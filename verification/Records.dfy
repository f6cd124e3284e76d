/** From durable chunks to vector records. */
module Records {
  import opened CodePoints
  import opened Identifiers
  import opened VectorStore

  datatype DurableChunk = DurableChunk(id: ChunkId, text: Text)

  function RecordFor(embed: Text -> Embedding, knowledgeBase: KnowledgeBaseId, chunk: DurableChunk): VectorRecord {
    VectorRecord(VectorId(chunk.id), embed(chunk.text), knowledgeBase, chunk.id.document, chunk.id,
                 chunk.id.chunkIndex, chunk.text, chunk.id.contentHash)
  }

  function RecordsFor(embed: Text -> Embedding, knowledgeBase: KnowledgeBaseId,
                      rows: seq<DurableChunk>): seq<VectorRecord> {
    seq(|rows|, i requires 0 <= i < |rows| => RecordFor(embed, knowledgeBase, rows[i]))
  }

  /** A record is its chunk, field by field, with the embedding of its own text. */
  lemma {:induction false} RecordIsItsChunk(embed: Text -> Embedding, knowledgeBase: KnowledgeBaseId,
                                            rows: seq<DurableChunk>, i: nat)
    requires i < |rows|
    ensures |RecordsFor(embed, knowledgeBase, rows)| == |rows|
    ensures
      var record, chunk := RecordsFor(embed, knowledgeBase, rows)[i], rows[i];
      && record.chunkId == chunk.id && record.vectorId.chunkId == chunk.id && record.document == chunk.id.document
      && record.knowledgeBase == knowledgeBase && record.text == chunk.text && record.embedding == embed(chunk.text)
      && record.chunkIndex == chunk.id.chunkIndex && record.contentHash == chunk.id.contentHash
  {
  }

  /** The embedder works text by text, so batching its calls does not show. */
  lemma {:induction false} RecordsConcat(embed: Text -> Embedding, knowledgeBase: KnowledgeBaseId,
                                         a: seq<DurableChunk>, b: seq<DurableChunk>)
    ensures RecordsFor(embed, knowledgeBase, a + b) ==
      RecordsFor(embed, knowledgeBase, a) + RecordsFor(embed, knowledgeBase, b)
  {
  }
}
