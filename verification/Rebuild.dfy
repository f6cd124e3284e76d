/** Rebuilding a document's vectors from its durable chunks: what a rebuild does to the index, whatever fails. */
module Rebuild {
  import opened CodePoints
  import opened Identifiers
  import opened Jobs
  import opened Options
  import opened Records
  import opened Sequences
  import opened VectorStore

  /** A `document_chunks` row; rows of the legacy format have no content digest. */
  datatype ChunkRow = ChunkRow(chunk: DurableChunk, hasDigest: bool)

  datatype StoredDocument = StoredDocument(knowledgeBase: KnowledgeBaseId, status: Status, rows: seq<ChunkRow>)

  type Database = map<DocumentId, StoredDocument>

  /** Chunk ids are primary keys and derived from their document. */
  ghost predicate ValidDatabase(db: Database) {
    forall d :: d in db ==> DistinctRows(d, db[d].rows)
  }

  ghost predicate DistinctRows(d: DocumentId, rows: seq<ChunkRow>) {
    && (forall i :: 0 <= i < |rows| ==> rows[i].chunk.id.document == d)
    && (forall i, j :: 0 <= i < j < |rows| ==> rows[i].chunk.id != rows[j].chunk.id)
  }

  /** What ends a rebuild early although no `except` clause of it expects it. */
  datatype Interruption = DatabaseError | InitializationError | Cancelled | OtherError

  datatype Exception = InvalidLimit | NotReady | LimitExceeded | StoreRefused | Interrupted(cause: Interruption)

  datatype RebuildFailure = RebuildFailure(document: DocumentId, code: string)

  datatype RebuildResult = RebuildResult(documentsSeen: nat, documentsIndexed: nat, chunksIndexed: nat,
    failures: seq<RebuildFailure>)

  datatype Reply = Raised(exception: Exception) | Returned(result: RebuildResult)

  /** What becomes of a provider request. It may fail in a way the rebuild expects, with the code the failure is
      classified as, or raise anything else, a cancellation included. Either way it may have had some effect. */
  datatype Request<E> = Answered | FailsWith(code: string, effect: E) | Raises(cause: Interruption, effect: E)

  /** What becomes of the load transaction and of the requests of one rebuild. The effect of a deletion that fails is
      whether it took place, that of an upsert how many records of its batch were written. */
  datatype Faults = Faults(load: Option<Interruption>, embed: nat -> Request<()>, delete: Request<bool>,
    upsert: nat -> Request<nat>)

  type BatchSize = n: nat | n > 0 witness 1

  datatype Settings = Settings(embed: Text -> Embedding, modelId: Text, dimension: nat, batchSize: BatchSize)

  const DEPENDENCY_FAILED := "INGESTION_DEPENDENCY_FAILED"

  // ---------------------------------------------------------------- loading

  datatype LoadResult = Refused(exception: Exception)
                      | LoadedRows(knowledgeBase: KnowledgeBaseId, rows: seq<DurableChunk>)

  function ChunksIn(rows: seq<ChunkRow>): seq<DurableChunk> {
    seq(|rows|, i requires 0 <= i < |rows| => rows[i].chunk)
  }

  /** What the load transaction finds when it is not interrupted. */
  function Load(db: Database, d: DocumentId, maxChunks: nat): LoadResult {
    if d !in db || db[d].status != Completed then Refused(NotReady)
    else if |db[d].rows| > maxChunks then Refused(LimitExceeded)
    else if db[d].rows == [] || exists row <- db[d].rows :: !row.hasDigest then Refused(NotReady)
    else LoadedRows(db[d].knowledgeBase, ChunksIn(db[d].rows))
  }

  /** A document is rebuilt exactly when it is completed, has chunks, no more than allowed, and no chunk of the legacy
      format; the limit is checked before the formats. */
  lemma {:induction false} WhatIsLoaded(db: Database, d: DocumentId, maxChunks: nat)
    ensures Load(db, d, maxChunks).LoadedRows? <==>
      && d in db && db[d].status == Completed && 1 <= |db[d].rows| <= maxChunks
      && forall i :: 0 <= i < |db[d].rows| ==> db[d].rows[i].hasDigest
    ensures Load(db, d, maxChunks) == Refused(LimitExceeded) <==>
      d in db && db[d].status == Completed && |db[d].rows| > maxChunks
    ensures Load(db, d, maxChunks) in {Refused(NotReady), Refused(LimitExceeded)} || (
      && Load(db, d, maxChunks).LoadedRows? && Load(db, d, maxChunks).knowledgeBase == db[d].knowledgeBase
      && |Load(db, d, maxChunks).rows| == |db[d].rows|
      && forall i :: 0 <= i < |db[d].rows| ==> Load(db, d, maxChunks).rows[i] == db[d].rows[i].chunk)
  {
    if d in db {
      assert forall i :: 0 <= i < |db[d].rows| ==> db[d].rows[i] in db[d].rows;
    }
  }

  // ---------------------------------------------------------------- what one rebuild does

  /** The first number of `from..n` at which it stops, or `n`. */
  function First(stops: nat -> bool, from: nat, n: nat): (k: nat)
    requires from <= n
    ensures from <= k <= n && (k < n ==> stops(k)) && forall i :: from <= i < k ==> !stops(i)
    decreases n - from
  {
    if from == n || stops(from) then from else First(stops, from + 1, n)
  }

  lemma {:induction false} FirstIs(stops: nat -> bool, from: nat, n: nat, k: nat)
    requires from <= k <= n && (forall i :: from <= i < k ==> !stops(i)) && (k < n ==> stops(k))
    ensures First(stops, from, n) == k
  {
  }

  predicate RightDimension(s: Settings, rows: seq<DurableChunk>) {
    forall row <- rows :: |s.embed(row.text)| == s.dimension
  }

  /** What ends the embedding requests: the first that does not answer or answers with a wrong dimension. */
  function EmbeddingOf(s: Settings, embed: nat -> Request<()>, batches: seq<seq<DurableChunk>>, from: nat): Request<()>
    requires from <= |batches|
    decreases |batches| - from
  {
    if from == |batches| then Answered
    else if !embed(from).Answered? then embed(from)
    else if !RightDimension(s, batches[from]) then FailsWith(DEPENDENCY_FAILED, ())
    else EmbeddingOf(s, embed, batches, from + 1)
  }

  function AllIndexed(chunks: nat): Reply {
    Returned(RebuildResult(1, 1, chunks, []))
  }

  /** How a request without an answer ends the rebuild: an expected failure is reported, all else is raised. */
  function EndedBy<E>(d: DocumentId, chunks: nat, request: Request<E>): Reply
    requires !request.Answered?
  {
    match request
    case FailsWith(code, _) => Returned(RebuildResult(1, 0, chunks, [RebuildFailure(d, code)]))
    case Raises(cause, _) => Raised(Interrupted(cause))
  }

  /** The records a rebuild leaves for its document, nothing if it leaves the index alone, and its reply. */
  function Plan(s: Settings, db: Database, d: DocumentId, maxChunks: nat,
                faults: Faults): (Option<seq<VectorRecord>>, Reply)
  {
    if faults.load.Some? then (None, Raised(Interrupted(faults.load.value)))
    else
      match Load(db, d, maxChunks)
      case Refused(exception) => (None, Raised(exception))
      case LoadedRows(knowledgeBase, rows) =>
        var embedding := EmbeddingOf(s, faults.embed, Batches(rows, s.batchSize), 0);
        if !embedding.Answered? then (None, EndedBy(d, 0, embedding))
        else if !faults.delete.Answered? then
          (if faults.delete.effect then Some([]) else None, EndedBy(d, 0, faults.delete))
        else
          var (records, reply) := Refilling(s, d, RecordsFor(s.embed, knowledgeBase, rows), faults.upsert);
          (Some(records), reply)
  }

  function Smaller(a: nat, b: nat): nat {
    if a <= b then a else b
  }

  function Unanswered(requests: nat -> Request<nat>): nat -> bool {
    (k: nat) => !requests(k).Answered?
  }

  /** The batched upserts stop at the first without an answer, which may have written a part of its batch. */
  function Refilling(s: Settings, d: DocumentId, records: seq<VectorRecord>,
                     upsert: nat -> Request<nat>): (seq<VectorRecord>, Reply)
  {
    var n := |Batches(records, s.batchSize)|;
    var k := First(Unanswered(upsert), 0, n);
    if k == n then (records, AllIndexed(|records|))
    else
      var reported := Smaller(k * s.batchSize, |records|);
      var written := Smaller(reported + Smaller(upsert(k).effect, s.batchSize), |records|);
      (records[..written], EndedBy(d, reported, upsert(k)))
  }

  /** The index and the reply after rebuilding one document. */
  function Rebuilt(s: Settings, index: Index, db: Database, d: DocumentId, maxChunks: nat, faults: Faults): (Index,
                   Reply)
  {
    var (records, reply) := Plan(s, db, d, maxChunks, faults);
    (if records.Some? then Refilled(index, d, records.value) else index, reply)
  }

  // ---------------------------------------------------------------- batches and records

  lemma {:induction false} PrefixOfBatches<T>(s: Settings, values: seq<T>, k: nat)
    requires k <= |Batches(values, s.batchSize)|
    ensures |Joined(Batches(values, s.batchSize)[..k])| == if k == |Batches(values, s.batchSize)| then
      |values| else k * s.batchSize
    ensures k < |Batches(values, s.batchSize)| ==> k * s.batchSize < |values|
    ensures Joined(Batches(values, s.batchSize)[..k]) == values[..|Joined(Batches(values, s.batchSize)[..k])|]
  {
    var batches := Batches(values, s.batchSize);
    BatchesAreTheValues(values, s.batchSize);
    JoinedPrefix(batches, k);
    if k == |batches| {
      assert batches[..k] == batches;
    } else {
      FullBatches(batches, s.batchSize, k);
      JoinedPrefix(batches, k + 1);
      assert batches[..k + 1][..k] == batches[..k];
    }
  }

  lemma {:induction false} FullBatches<T>(batches: seq<seq<T>>, size: nat, k: nat)
    requires k <= |batches| && forall i :: 0 <= i < k ==> |batches[i]| == size
    ensures |Joined(batches[..k])| == k * size
  {
    if k > 0 {
      FullBatches(batches, size, k - 1);
      assert batches[..k][..k - 1] == batches[..k - 1];
    }
  }

  lemma {:induction false} LoadedAreDistinct(db: Database, d: DocumentId, maxChunks: nat, embed: Text -> Embedding)
    requires ValidDatabase(db) && Load(db, d, maxChunks).LoadedRows?
    ensures var LoadedRows(kb, rows) := Load(db, d, maxChunks);
      Distinct(RecordsFor(embed, kb, rows)) && BelongTo(RecordsFor(embed, kb, rows), d)
  {
    var rows := db[d].rows;
    assert DistinctRows(d, rows);
    forall i, j | 0 <= i < j < |rows|
      ensures VectorId(ChunksIn(rows)[i].id) != VectorId(ChunksIn(rows)[j].id)
    {
      assert rows[i].chunk.id != rows[j].chunk.id;
    }
  }

  lemma {:induction false} BatchIsValid(s: Settings, records: seq<VectorRecord>, n: nat)
    requires n < |Batches(records, s.batchSize)| && Distinct(records)
      && HasDimension(records, s.dimension)
    ensures Distinct(Batches(records, s.batchSize)[n]) && HasDimension(Batches(records, s.batchSize)[n], s.dimension)
  {
    var batches := Batches(records, s.batchSize);
    PrefixOfBatches(s, records, n);
    PrefixOfBatches(s, records, n + 1);
    assert batches[..n + 1][..n] == batches[..n];
    var a := |Joined(batches[..n])|;
    assert Joined(batches[..n + 1]) == Joined(batches[..n]) + batches[n];
    assert forall i :: 0 <= i < |batches[n]| ==> batches[n][i] == records[a + i] by {
      forall i | 0 <= i < |batches[n]|
        ensures batches[n][i] == records[a + i]
      {
        assert batches[n][i] == Joined(batches[..n + 1])[a + i];
      }
    }
  }

  /** The values up to the next batch's end are those before it and the batch. */
  lemma {:induction false} NextBatch<T>(s: Settings, values: seq<T>, n: nat, before: nat)
    requires n < |Batches(values, s.batchSize)| && before == n * s.batchSize
    ensures
      var batches := Batches(values, s.batchSize);
      var after := before + |batches[n]|;
      && after == (if n + 1 == |batches| then |values| else (n + 1) * s.batchSize) && after <= |values|
      && values[..after] == values[..before] + batches[n]
  {
    var batches := Batches(values, s.batchSize);
    PrefixOfBatches(s, values, n);
    PrefixOfBatches(s, values, n + 1);
    Snoc(batches, n + 1);
    assert Joined(batches[..n + 1]) == Joined(batches[..n]) + batches[n];
  }

  // ---------------------------------------------------------------- what a rebuild means

  /** All records of the document, when they can be loaded. */
  function Whole(s: Settings, db: Database, d: DocumentId, maxChunks: nat): seq<VectorRecord>
    requires Load(db, d, maxChunks).LoadedRows?
  {
    var LoadedRows(knowledgeBase, rows) := Load(db, d, maxChunks);
    RecordsFor(s.embed, knowledgeBase, rows)
  }

  /** Requests that fail leave nothing behind. */
  ghost predicate AtomicUpserts(faults: Faults) {
    forall k :: faults.upsert(k).Answered? || faults.upsert(k).effect == 0
  }

  ghost predicate PlanIsSound(s: Settings, db: Database, d: DocumentId, maxChunks: nat, faults: Faults) {
    var (records, reply) := Plan(s, db, d, maxChunks, faults);
    && (records.Some? ==> Load(db, d, maxChunks).LoadedRows? && records.value <= Whole(s, db, d, maxChunks))
    && match reply
       case Raised(exception) =>
         exception.Interrupted? || (records.None? && Load(db, d, maxChunks) == Refused(exception))
       case Returned(result) =>
         && Load(db, d, maxChunks).LoadedRows?
         && result.documentsSeen == 1 == result.documentsIndexed + |result.failures|
         && (result.failures == [] ==> records == Some(Whole(s, db, d, maxChunks)))
         && (if records.None? then result.chunksIndexed == 0
             else result.chunksIndexed <= |records.value| <= result.chunksIndexed + s.batchSize)
         && (records.Some? && (AtomicUpserts(faults) || result.failures == []) ==>
               |records.value| == result.chunksIndexed)
  }

  lemma {:induction false} PlanIsExact(s: Settings, db: Database, d: DocumentId, maxChunks: nat, faults: Faults)
    requires ValidDatabase(db)
    ensures PlanIsSound(s, db, d, maxChunks, faults)
    ensures
      var records := Plan(s, db, d, maxChunks, faults).0;
      records.Some? ==> BelongTo(records.value, d)
  {
    if Load(db, d, maxChunks).LoadedRows? {
      LoadedAreDistinct(db, d, maxChunks, s.embed);
    }
  }

  /** Whatever fails, and however the rebuild ends: other documents are untouched, and its own document either is
      untouched too or holds exactly a first part of its records, all of them after a reported success. A reported
      failure has counted no more chunks than are there, and exactly those when upserts are atomic. */
  lemma {:induction false} RebuiltIsExact(s: Settings, index: Index, db: Database, d: DocumentId, maxChunks: nat,
                                          faults: Faults, other: DocumentId)
    requires ValidDatabase(db) && KeyedIndex(index)
    ensures
      var index' := Rebuilt(s, index, db, d, maxChunks, faults).0;
      var records := Plan(s, db, d, maxChunks, faults).0;
      && KeyedIndex(index') && PlanIsSound(s, db, d, maxChunks, faults)
      && (other != d ==> OfDocument(index', other) == OfDocument(index, other))
      && (if records.None? then index' == index else OfDocument(index', d) == AsIndex(records.value))
  {
    PlanIsExact(s, db, d, maxChunks, faults);
    var records := Plan(s, db, d, maxChunks, faults).0;
    if records.Some? {
      RefillIsExact(index, d, records.value, d);
      RefillIsExact(index, d, records.value, other);
    }
  }

  /** A rebuild gets as far as deleting, or at least its deletion takes place although it fails. */
  predicate Deletes(s: Settings, db: Database, d: DocumentId, maxChunks: nat, faults: Faults) {
    && faults.load.None? && Load(db, d, maxChunks).LoadedRows?
    && EmbeddingOf(s, faults.embed, Batches(Load(db, d, maxChunks).rows, s.batchSize), 0).Answered?
    && (faults.delete.Answered? || faults.delete.effect)
  }

  /** However it ends, a rebuild leaves the index as it is exactly when it does not delete, or the index held just
      the records it leaves. */
  lemma {:induction false} UnchangedIff(s: Settings, index: Index, db: Database, d: DocumentId, maxChunks: nat,
                                        faults: Faults)
    requires ValidDatabase(db) && KeyedIndex(index)
    ensures
      var records := Plan(s, db, d, maxChunks, faults).0;
      && (records.Some? <==> Deletes(s, db, d, maxChunks, faults))
      && (Rebuilt(s, index, db, d, maxChunks, faults).0 == index <==>
            (records.Some? ==> OfDocument(index, d) == AsIndex(records.value)))
  {
    PlanIsExact(s, db, d, maxChunks, faults);
    var records := Plan(s, db, d, maxChunks, faults).0;
    if records.Some? {
      RefillAgain(index, d, records.value);
    }
  }

  /** A rebuild that is cancelled between its deletion and its first upsert raises and leaves its document empty. */
  lemma {:induction false} CancelledAfterDeletion(s: Settings, index: Index, db: Database, d: DocumentId,
                                                  maxChunks: nat, faults: Faults)
    requires ValidDatabase(db) && KeyedIndex(index) && Deletes(s, db, d, maxChunks, faults)
    requires faults.delete.Answered? && faults.upsert(0) == Raises(Cancelled, 0)
    ensures Rebuilt(s, index, db, d, maxChunks, faults).1 == Raised(Interrupted(Cancelled))
    ensures OfDocument(Rebuilt(s, index, db, d, maxChunks, faults).0, d) == map[]
  {
    FirstIs(Unanswered(faults.upsert), 0, |Batches(Whole(s, db, d, maxChunks), s.batchSize)|, 0);
    assert Plan(s, db, d, maxChunks, faults) == (Some([]), Raised(Interrupted(Cancelled)));
    RebuiltIsExact(s, index, db, d, maxChunks, faults, d);
  }

  /** No request fails and every embedding has the configured dimension. */
  ghost predicate NoFaults(s: Settings, faults: Faults, rows: seq<DurableChunk>) {
    && faults.load.None? && (forall k :: faults.embed(k).Answered? && faults.upsert(k).Answered?)
    && faults.delete.Answered? && RightDimension(s, rows)
  }

  lemma {:induction false} NoEmbeddingFailure(s: Settings, faults: Faults, rows: seq<DurableChunk>, from: nat)
    requires NoFaults(s, faults, rows) && from <= |Batches(rows, s.batchSize)|
    ensures EmbeddingOf(s, faults.embed, Batches(rows, s.batchSize), from) == Answered
    decreases |Batches(rows, s.batchSize)| - from
  {
    var batches := Batches(rows, s.batchSize);
    if from < |batches| {
      PrefixOfBatches(s, rows, from);
      PrefixOfBatches(s, rows, from + 1);
      assert batches[..from + 1][..from] == batches[..from];
      forall row <- batches[from]
        ensures row in rows
      {
        assert row in Joined(batches[..from + 1]);
      }
      NoEmbeddingFailure(s, faults, rows, from + 1);
    }
  }

  /** Without faults a rebuild succeeds, whatever the batch size, with the same index. */
  lemma {:induction false} BatchSizeDoesNotShow(s: Settings, index: Index, db: Database, d: DocumentId,
                                                maxChunks: nat, faults: Faults)
    requires Load(db, d, maxChunks).LoadedRows?
    requires NoFaults(s, faults, Load(db, d, maxChunks).rows)
    ensures
      var records := Whole(s, db, d, maxChunks);
      Rebuilt(s, index, db, d, maxChunks, faults) == (Refilled(index, d, records), AllIndexed(|records|))
  {
    NoEmbeddingFailure(s, faults, Load(db, d, maxChunks).rows, 0);
  }

  /** A successful rebuild leaves the index as it is exactly when the index already agreed with the chunks. */
  lemma {:induction false} RebuildIsNoOp(s: Settings, index: Index, db: Database, d: DocumentId, maxChunks: nat,
                                         faults: Faults)
    requires ValidDatabase(db) && KeyedIndex(index) && Load(db, d, maxChunks).LoadedRows?
    requires var reply := Rebuilt(s, index, db, d, maxChunks, faults).1; reply.Returned? && reply.result.failures == []
    ensures
      Rebuilt(s, index, db, d, maxChunks, faults).0 == index <==>
        OfDocument(index, d) == AsIndex(Whole(s, db, d, maxChunks))
  {
    PlanIsExact(s, db, d, maxChunks, faults);
    UnchangedIff(s, index, db, d, maxChunks, faults);
  }

  /** What a rebuild does to its document depends only on what the index held for that document. */
  lemma {:induction false} RebuiltIsLocal(s: Settings, a: Index, b: Index, db: Database, d: DocumentId,
                                          maxChunks: nat, faults: Faults)
    requires ValidDatabase(db) && KeyedIndex(a) && KeyedIndex(b) && OfDocument(a, d) == OfDocument(b, d)
    ensures Rebuilt(s, a, db, d, maxChunks, faults).1 == Rebuilt(s, b, db, d, maxChunks, faults).1
    ensures OfDocument(Rebuilt(s, a, db, d, maxChunks, faults).0, d) ==
      OfDocument(Rebuilt(s, b, db, d, maxChunks, faults).0, d)
  {
    PlanIsExact(s, db, d, maxChunks, faults);
    var records := Plan(s, db, d, maxChunks, faults).0;
    if records.Some? {
      RefillIsExact(a, d, records.value, d);
      RefillIsExact(b, d, records.value, d);
    }
  }

  // ---------------------------------------------------------------- what is reported

  /** What a request without an answer makes of the rebuild, with so many chunks in whole batches behind it. */
  ghost predicate IsToldAs<E>(reply: Reply, d: DocumentId, chunks: nat, request: Request<E>) {
    match request
    case Answered => false
    case FailsWith(code, _) =>
      && reply.Returned? && reply.result.failures == [RebuildFailure(d, code)]
      && reply.result.documentsSeen == 1 && reply.result.documentsIndexed == 0 && reply.result.chunksIndexed == chunks
    case Raises(cause, _) => reply == Raised(Interrupted(cause))
  }

  ghost predicate EmbedsAll(s: Settings, embed: nat -> Request<()>, batches: seq<seq<DurableChunk>>, n: nat)
    requires n <= |batches|
  {
    forall i :: 0 <= i < n ==> embed(i).Answered? && RightDimension(s, batches[i])
  }

  lemma {:induction false} EmbeddingStops(s: Settings, embed: nat -> Request<()>, batches: seq<seq<DurableChunk>>,
                                          from: nat, k: nat)
    requires from <= k <= |batches| && EmbedsAll(s, embed, batches, k)
    ensures k == |batches| ==> EmbeddingOf(s, embed, batches, from) == Answered
    ensures k < |batches| && !embed(k).Answered? ==> EmbeddingOf(s, embed, batches, from) == embed(k)
    ensures k < |batches| && embed(k).Answered? && !RightDimension(s, batches[k]) ==>
      EmbeddingOf(s, embed, batches, from) == FailsWith("INGESTION_DEPENDENCY_FAILED", ())
    decreases k - from
  {
    if from < k {
      EmbeddingStops(s, embed, batches, from + 1, k);
    }
  }

  /** The first embedding request without an answer decides, or the first answer of a wrong dimension, which is reported
      as a failing dependency; the index is left alone. */
  lemma {:induction false} BadEmbeddingIsTold(s: Settings, db: Database, d: DocumentId, maxChunks: nat, faults: Faults,
                                              k: nat)
    requires faults.load.None? && Load(db, d, maxChunks).LoadedRows?
    requires k < |Batches(Load(db, d, maxChunks).rows, s.batchSize)|
    requires EmbedsAll(s, faults.embed, Batches(Load(db, d, maxChunks).rows, s.batchSize), k)
    requires !faults.embed(k).Answered?
      || !RightDimension(s, Batches(Load(db, d, maxChunks).rows, s.batchSize)[k])
    ensures
      var (records, reply) := Plan(s, db, d, maxChunks, faults);
      && records.None?
      && IsToldAs(reply, d, 0, if faults.embed(k).Answered? then FailsWith("INGESTION_DEPENDENCY_FAILED", ())
                               else faults.embed(k))
  {
    EmbeddingStops(s, faults.embed, Batches(Load(db, d, maxChunks).rows, s.batchSize), 0, k);
  }

  ghost predicate Embedded(s: Settings, db: Database, d: DocumentId, maxChunks: nat, faults: Faults) {
    && faults.load.None? && Load(db, d, maxChunks).LoadedRows?
    && var batches := Batches(Load(db, d, maxChunks).rows, s.batchSize);
       EmbedsAll(s, faults.embed, batches, |batches|)
  }

  /** A deletion without an answer is told, and has emptied the document if it took place. */
  lemma {:induction false} BadDeletionIsTold(s: Settings, db: Database, d: DocumentId, maxChunks: nat, faults: Faults)
    requires Embedded(s, db, d, maxChunks, faults) && !faults.delete.Answered?
    ensures
      var (records, reply) := Plan(s, db, d, maxChunks, faults);
      records == (if faults.delete.effect then Some([]) else None) && IsToldAs(reply, d, 0, faults.delete)
  {
    var batches := Batches(Load(db, d, maxChunks).rows, s.batchSize);
    EmbeddingStops(s, faults.embed, batches, 0, |batches|);
  }

  /** The first upsert without an answer is told with the chunks of the batches before it; what it wrote of its own
      batch is there too. Without one the rebuild succeeds with all chunks. */
  lemma {:induction false} BadUpsertIsTold(s: Settings, db: Database, d: DocumentId, maxChunks: nat, faults: Faults,
                                           k: nat)
    requires Embedded(s, db, d, maxChunks, faults) && faults.delete.Answered?
    requires k <= |Batches(Whole(s, db, d, maxChunks), s.batchSize)|
    requires forall i :: 0 <= i < k ==> faults.upsert(i).Answered?
    requires k < |Batches(Whole(s, db, d, maxChunks), s.batchSize)| ==> !faults.upsert(k).Answered?
    ensures
      var whole := Whole(s, db, d, maxChunks);
      var (records, reply) := Plan(s, db, d, maxChunks, faults);
      if k == |Batches(whole, s.batchSize)| then
        records == Some(whole) && reply == Returned(RebuildResult(1, 1, |whole|, []))
      else
        && k * s.batchSize <= |whole| && IsToldAs(reply, d, k * s.batchSize, faults.upsert(k))
        && records.Some? && records.value <= whole
        && |records.value| == Smaller(k * s.batchSize + Smaller(faults.upsert(k).effect, s.batchSize), |whole|)
  {
    var batches := Batches(Load(db, d, maxChunks).rows, s.batchSize);
    var whole := Whole(s, db, d, maxChunks);
    EmbeddingStops(s, faults.embed, batches, 0, |batches|);
    PrefixOfBatches(s, whole, k);
    FirstIs(Unanswered(faults.upsert), 0, |Batches(whole, s.batchSize)|, k);
  }
}
