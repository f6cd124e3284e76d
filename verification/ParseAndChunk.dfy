/** From parsed sections to the chunks of an attempt, and what the ingestion protocol takes for granted about them. */
module ParseAndChunk {
  import opened Chunking
  import opened CodePoints
  import opened Documents
  import opened Identifiers
  import opened Options
  import Ingestion

  // ---------------------------------------------------------------- there is one normalised document

  ghost predicate SameUpTo(a: NormalizedDocument, b: NormalizedDocument, k: nat)
    requires k <= |a.spans| && k <= |b.spans|
  {
    var end := if k == 0 then 0 else a.spans[k - 1].endOffset;
    a.spans[..k] == b.spans[..k] && end <= |a.text| && end <= |b.text| && a.text[..end] == b.text[..end]
  }

  lemma {:induction false} SameSoFar(fragments: seq<Section>, kept: seq<nat>, a: NormalizedDocument,
                                     b: NormalizedDocument, k: nat)
    requires Tiled(fragments, kept, a) && Tiled(fragments, kept, b) && k <= |kept|
    ensures SameUpTo(a, b, k)
  {
    if k > 0 {
      SameSoFar(fragments, kept, a, b, k - 1);
      assert SpanAt(fragments, kept, a, k - 1) && SpanAt(fragments, kept, b, k - 1);
      var s, t := a.spans[k - 1], b.spans[k - 1];
      assert k > 1 ==> a.spans[..k - 1][k - 2] == b.spans[..k - 1][k - 2];
      assert |a.text[s.startOffset..s.endOffset]| == |b.text[t.startOffset..t.endOffset]|;
      assert s == t;
      var before := if k == 1 then 0 else a.spans[k - 2].endOffset;
      assert a.spans[..k] == a.spans[..k - 1] + [s] && b.spans[..k] == b.spans[..k - 1] + [t];
      SameText(a.text, b.text, before, s.startOffset, s.endOffset);
    }
  }

  lemma {:induction false} SameText(x: Text, y: Text, before: nat, start: nat, end: nat)
    requires before <= start <= end <= |x| && end <= |y| && x[..before] == y[..before] && x[start..end] == y[start..end]
    requires forall p :: before <= p < start ==> x[p] == y[p]
    ensures x[..end] == y[..end]
  {
    forall p | 0 <= p < end
      ensures x[p] == y[p]
    {
      if p < before {
        assert x[..before][p] == y[..before][p];
      } else if start <= p {
        assert x[start..end][p - start] == y[start..end][p - start];
      }
    }
  }

  lemma {:induction false} TiledIsUnique(fragments: seq<Section>, kept: seq<nat>, a: NormalizedDocument,
                                         b: NormalizedDocument)
    requires Tiled(fragments, kept, a) && Tiled(fragments, kept, b)
    ensures a == b
  {
    SameSoFar(fragments, kept, a, b, |kept|);
    assert a.spans[..|kept|] == a.spans && b.spans[..|kept|] == b.spans;
    assert a.text[..|a.text|] == a.text && b.text[..|b.text|] == b.text;
  }

  // ---------------------------------------------------------------- the chunks of a document

  /** `chunks` are what normalising and chunking the sections gives; none when no section has text. */
  ghost predicate Yields(config: ChunkingConfig, sha256: Text -> Digest, sections: seq<Section>, chunks: seq<TextChunk>)
    requires config.Valid()
  {
    var fragments := Fragments(sections);
    var kept := KeptIndexes(fragments, |sections|);
    if kept == [] then chunks == []
    else exists document :: Tiled(fragments, kept, document) && ChunkedAs(config, sha256, document, chunks)
  }

  ghost predicate ChunkedAs(config: ChunkingConfig, sha256: Text -> Digest, document: NormalizedDocument,
                            chunks: seq<TextChunk>)
    requires config.Valid()
  {
    IsChunking(document.text, config, WindowsOf(chunks)) && ChunksOfWindows(document, sha256, WindowsOf(chunks), chunks)
  }

  /** Sections determine their chunks. */
  lemma {:induction false} ChunksAreDetermined(config: ChunkingConfig, sha256: Text -> Digest, sections: seq<Section>,
                                               x: seq<TextChunk>, y: seq<TextChunk>)
    requires config.Valid() && Yields(config, sha256, sections, x) && Yields(config, sha256, sections, y)
    ensures x == y
  {
    var fragments := Fragments(sections);
    var kept := KeptIndexes(fragments, |sections|);
    if kept != [] {
      var a :| Tiled(fragments, kept, a) && ChunkedAs(config, sha256, a, x);
      var b :| Tiled(fragments, kept, b) && ChunkedAs(config, sha256, b, y);
      TiledIsUnique(fragments, kept, a, b);
      ChunkingIsUnique(a.text, config, WindowsOf(x), WindowsOf(y));
      assert |x| == |WindowsOf(x)| == |y|;
      forall i | 0 <= i < |x|
        ensures x[i] == y[i]
      {
        assert ChunkAt(a, sha256, WindowsOf(x), x, i) && ChunkAt(a, sha256, WindowsOf(x), y, i);
      }
    }
  }

  datatype ChunkResult = NoText | InvariantViolated | Chunks(chunks: seq<TextChunk>)

  /** Chunks when some section has text, and then at least one; never a violated invariant. */
  ghost predicate IsOutcome(config: ChunkingConfig, sha256: Text -> Digest, sections: seq<Section>, r: ChunkResult)
    requires config.Valid()
  {
    match r
    case NoText => KeptIndexes(Fragments(sections), |sections|) == []
    case InvariantViolated => false
    case Chunks(chunks) => chunks != [] && Yields(config, sha256, sections, chunks)
  }

  /** `_parse_and_chunk` after parsing. Its guards against missing or inconsistent chunks never fire. */
  method ChunkSections(config: ChunkingConfig, sha256: Text -> Digest, sections: seq<Section>) returns (r: ChunkResult)
    requires config.Valid()
    ensures IsOutcome(config, sha256, sections, r)
  {
    var normalized := Documents.Normalize(sections);
    if normalized.EmptyDocument? {
      return NoText;
    }
    var chunks := Chunk(config, normalized.document, sha256);
    ChunksAreDurable(config, normalized.document, sha256, WindowsOf(chunks), chunks);
    if chunks == [] {
      return InvariantViolated;
    }
    for expectedIndex := 0 to |chunks| {
      var chunk := chunks[expectedIndex];
      if chunk.chunkIndex != expectedIndex || chunk.contentHash != sha256(chunk.text) {
        return InvariantViolated;
      }
    }
    assert ChunkedAs(config, sha256, normalized.document, chunks);
    r := Chunks(chunks);
  }

  // ---------------------------------------------------------------- what the protocol assumes

  type Parser = (Identifiers.DocumentId, Ingestion.Bytes) -> Option<seq<Section>>

  /** The protocol's texts are those of the chunks of the parsed bytes; none when parsing fails. */
  ghost predicate Computes(p: Ingestion.Pipeline, parse: Parser, config: ChunkingConfig)
    requires config.Valid()
  {
    forall d, bytes :: ComputesFor(p, parse, config, d, bytes)
  }

  ghost predicate ComputesFor(p: Ingestion.Pipeline, parse: Parser, config: ChunkingConfig, d: DocumentId,
                              bytes: Ingestion.Bytes)
    requires config.Valid()
  {
    match parse(d, bytes)
    case None => p.texts(d, bytes) == []
    case Some(sections) =>
      exists chunks :: Yields(config, p.textSha256, sections, chunks) && p.texts(d, bytes) == TextsOf(chunks)
  }

  function TextsOf(chunks: seq<TextChunk>): seq<Text> {
    seq(|chunks|, i requires 0 <= i < |chunks| => chunks[i].text)
  }

  /** The durable rows of the protocol carry the chunks' own indexes and digests, and no row is blank; there are rows
      exactly when parsing gives a section with text. */
  lemma {:induction false} RowsAreTheChunks(p: Ingestion.Pipeline, parse: Parser, config: ChunkingConfig, d: DocumentId,
                                            bytes: Ingestion.Bytes, chunks: seq<TextChunk>)
    requires config.Valid() && Computes(p, parse, config) && parse(d, bytes).Some?
    requires Yields(config, p.textSha256, parse(d, bytes).value, chunks)
    ensures
      var sections := parse(d, bytes).value;
      var rows := Ingestion.DurableChunks(p, d, p.texts(d, bytes));
      && |rows| == |chunks|
      && (rows == [] <==> KeptIndexes(Fragments(sections), |sections|) == [])
      && forall i :: 0 <= i < |rows| ==>
           && rows[i].text == chunks[i].text && !AllSpace(rows[i].text)
           && rows[i].id.chunkIndex == chunks[i].chunkIndex && rows[i].id.contentHash == chunks[i].contentHash
  {
    var sections := parse(d, bytes).value;
    assert ComputesFor(p, parse, config, d, bytes);
    var same :| Yields(config, p.textSha256, sections, same) && p.texts(d, bytes) == TextsOf(same);
    ChunksAreDetermined(config, p.textSha256, sections, chunks, same);
    var fragments := Fragments(sections);
    var kept := KeptIndexes(fragments, |sections|);
    if kept != [] {
      var document :| Tiled(fragments, kept, document) && ChunkedAs(config, p.textSha256, document, chunks);
      ChunksAreDurable(config, document, p.textSha256, WindowsOf(chunks), chunks);
      TiledHasText(fragments, kept, document);
    }
  }

  lemma {:induction false} TiledHasText(fragments: seq<Section>, kept: seq<nat>, document: NormalizedDocument)
    requires kept != [] && Tiled(fragments, kept, document) && kept == KeptIndexes(fragments, |fragments|)
    ensures !AllSpace(document.text)
  {
    KeptAreTheNonBlank(fragments, |fragments|);
    assert kept[0] in kept && SpanAt(fragments, kept, document, 0);
    SomeSpanIsText(document.text, document.spans[0].startOffset, document.spans[0].endOffset);
  }

  /** What the protocol requires of its pipeline holds as soon as the parser itself gives the same sections for bytes
      with the same digest. */
  lemma {:induction false} PipelineIsValid(p: Ingestion.Pipeline, parse: Parser, config: ChunkingConfig)
    requires config.Valid() && Computes(p, parse, config)
    requires p.batchSize >= 1 && p.lease > 0 && p.retryDelay >= 0
    requires forall d, a, b :: p.sha256(a) == p.sha256(b) ==> parse(d, a) == parse(d, b)
    ensures p.Valid()
  {
    forall d, a, b | p.sha256(a) == p.sha256(b)
      ensures p.texts(d, a) == p.texts(d, b)
    {
      assert ComputesFor(p, parse, config, d, a) && ComputesFor(p, parse, config, d, b);
      assert parse(d, a) == parse(d, b);
      if parse(d, a).Some? {
        var sections := parse(d, a).value;
        var x :| Yields(config, p.textSha256, sections, x) && p.texts(d, a) == TextsOf(x);
        var y :| Yields(config, p.textSha256, sections, y) && p.texts(d, b) == TextsOf(y);
        ChunksAreDetermined(config, p.textSha256, sections, x, y);
      }
    }
  }
}
