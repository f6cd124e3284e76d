/** The rebuild methods of the processing service. */
module RebuildService {
  import opened CodePoints
  import opened Identifiers
  import opened Jobs
  import opened Options
  import opened Rebuild
  import opened RebuildListing
  import opened Records
  import opened VectorStore

  /** The listing transaction of a knowledge base. */
  datatype ListingResult = Interrupts(cause: Interruption) | NoKnowledgeBase | Documents(listing: seq<Listed>)

  // ---------------------------------------------------------------- embedding

  /** `_records_for_chunks`: the embedder is called batch by batch. */
  method RecordsForChunks(s: Settings, embed: nat -> Request<()>, knowledgeBase: KnowledgeBaseId,
                          rows: seq<DurableChunk>)
    returns (records: seq<VectorRecord>, outcome: Request<()>)
    ensures outcome == EmbeddingOf(s, embed, Batches(rows, s.batchSize), 0)
    ensures outcome.Answered? ==>
      records == RecordsFor(s.embed, knowledgeBase, rows) && HasDimension(records, s.dimension)
  {
    var batches := Batches(rows, s.batchSize);
    records := [];
    for n := 0 to |batches|
      invariant EmbeddingOf(s, embed, batches, 0) == EmbeddingOf(s, embed, batches, n)
      invariant records == RecordsFor(s.embed, knowledgeBase, Joined(batches[..n]))
      invariant HasDimension(records, s.dimension)
    {
      if !embed(n).Answered? {
        return [], embed(n);
      }
      if !RightDimension(s, batches[n]) {
        return [], FailsWith(DEPENDENCY_FAILED, ());
      }
      assert batches[..n + 1][..n] == batches[..n];
      RecordsConcat(s.embed, knowledgeBase, Joined(batches[..n]), batches[n]);
      records := records + RecordsFor(s.embed, knowledgeBase, batches[n]);
    }
    assert batches[..|batches|] == batches;
    BatchesAreTheValues(rows, s.batchSize);
    outcome := Answered;
  }

  // ---------------------------------------------------------------- deletion and upserts

  /** After the deletion and the first `n` batches. */
  ghost predicate HasRefilled(s: Settings, before: Index, now: Index, d: DocumentId, records: seq<VectorRecord>,
                              n: nat, indexed: nat)
  {
    var batches := Batches(records, s.batchSize);
    && n <= |batches| && indexed == (if n == |batches| then |records| else n * s.batchSize) <= |records|
    && now == Refilled(before, d, records[..indexed])
  }

  lemma {:induction false} RefillNext(s: Settings, before: Index, now: Index, d: DocumentId,
                                      records: seq<VectorRecord>, n: nat, indexed: nat)
    requires HasRefilled(s, before, now, d, records, n, indexed) && n < |Batches(records, s.batchSize)|
    ensures var batch := Batches(records, s.batchSize)[n];
      HasRefilled(s, before, Upserted(now, batch), d, records, n + 1, indexed + |batch|)
  {
    var batch := Batches(records, s.batchSize)[n];
    NextBatch(s, records, n, indexed);
    UpsertedConcat(WithoutDocument(before, d), records[..indexed], batch);
  }

  /** A batch is full, or it ends with the values. */
  lemma {:induction false} BatchSizes<T>(s: Settings, values: seq<T>, n: nat)
    requires n < |Batches(values, s.batchSize)|
    ensures
      var size := |Batches(values, s.batchSize)[n]|;
      size == s.batchSize || (size <= s.batchSize && n * s.batchSize + size == |values|)
  {
    BatchesAreTheValues(values, s.batchSize);
    NextBatch(s, values, n, n * s.batchSize);
  }

  lemma {:induction false} PartOfBatch<T>(values: seq<T>, n: nat, batch: seq<T>, part: nat)
    requires part <= |batch| && n + |batch| <= |values| && values[..n + |batch|] == values[..n] + batch
    ensures values[..n + part] == values[..n] + batch[..part]
  {
    assert values[..n + part] == values[..n + |batch|][..n + part];
  }

  /** A failing upsert that writes a part of its batch leaves a longer first part of the records. */
  lemma {:induction false} RefillPart(s: Settings, before: Index, now: Index, d: DocumentId,
                                      records: seq<VectorRecord>, n: nat, indexed: nat, effect: nat)
    requires HasRefilled(s, before, now, d, records, n, indexed) && n < |Batches(records, s.batchSize)|
    ensures
      var batch := Batches(records, s.batchSize)[n];
      var written := Smaller(indexed + Smaller(effect, s.batchSize), |records|);
      Upserted(now, batch[..Smaller(effect, |batch|)]) == Refilled(before, d, records[..written])
  {
    var batch := Batches(records, s.batchSize)[n];
    var part := Smaller(effect, |batch|);
    BatchSizes(s, records, n);
    NextBatch(s, records, n, indexed);
    assert Smaller(indexed + Smaller(effect, s.batchSize), |records|) == indexed + part;
    PartOfBatch(records, indexed, batch, part);
    UpsertedConcat(WithoutDocument(before, d), records[..indexed], batch[..part]);
  }

  lemma {:induction false} RefillStops(s: Settings, d: DocumentId, records: seq<VectorRecord>,
                                       upsert: nat -> Request<nat>, n: nat)
    requires n <= |Batches(records, s.batchSize)| && forall i :: 0 <= i < n ==> upsert(i).Answered?
    requires n < |Batches(records, s.batchSize)| ==> !upsert(n).Answered?
    ensures
      Refilling(s, d, records, upsert) ==
        if n == |Batches(records, s.batchSize)| then (records, AllIndexed(|records|))
        else
          (records[..Smaller(n * s.batchSize + Smaller(upsert(n).effect, s.batchSize), |records|)],
           EndedBy(d, n * s.batchSize, upsert(n)))
  {
    PrefixOfBatches(s, records, n);
    FirstIs(Unanswered(upsert), 0, |Batches(records, s.batchSize)|, n);
  }

  lemma {:induction false} RefillEnds(s: Settings, before: Index, now: Index, d: DocumentId,
                                      records: seq<VectorRecord>, upsert: nat -> Request<nat>, n: nat, indexed: nat)
    requires HasRefilled(s, before, now, d, records, n, indexed) && n < |Batches(records, s.batchSize)|
    requires (forall i :: 0 <= i < n ==> upsert(i).Answered?) && !upsert(n).Answered?
    ensures
      var batch := Batches(records, s.batchSize)[n];
      var (left, expected) := Refilling(s, d, records, upsert);
      && Upserted(now, batch[..Smaller(upsert(n).effect, |batch|)]) == Refilled(before, d, left)
      && EndedBy(d, indexed, upsert(n)) == expected
  {
    RefillStops(s, d, records, upsert, n);
    RefillPart(s, before, now, d, records, n, indexed, upsert(n).effect);
  }

  /** The deletion and the batched upserts. A request without an answer has the effect that the faults say. */
  method RefillStore(s: Settings, store: InMemoryVectorStore, d: DocumentId, records: seq<VectorRecord>,
                     upsert: nat -> Request<nat>)
    returns (reply: Reply)
    requires store.dimension == Some(s.dimension)
    requires Distinct(records) && HasDimension(records, s.dimension)
    modifies store`records
    ensures var (left, expected) := Refilling(s, d, records, upsert);
      store.records == Refilled(old(store.records), d, left) && reply == expected
  {
    var batches := Batches(records, s.batchSize);
    ghost var before := store.records;
    var indexedChunks: nat := 0;
    var deleted := store.DeleteByDocument(d);
    for n := 0 to |batches|
      invariant forall i :: 0 <= i < n ==> upsert(i).Answered?
      invariant HasRefilled(s, before, store.records, d, records, n, indexedChunks)
    {
      BatchIsValid(s, records, n);
      if !upsert(n).Answered? {
        RefillEnds(s, before, store.records, d, records, upsert, n, indexedChunks);
        var part := store.Upsert(batches[n][..Smaller(upsert(n).effect, |batches[n]|)]);
        return EndedBy(d, indexedChunks, upsert(n));
      }
      RefillNext(s, before, store.records, d, records, n, indexedChunks);
      var written := store.Upsert(batches[n]);
      indexedChunks := indexedChunks + |batches[n]|;
    }
    RefillStops(s, d, records, upsert, |batches|);
    assert records[..|records|] == records;
    reply := AllIndexed(|records|);
  }

  // ---------------------------------------------------------------- the service

  /** Initialising the store with these settings succeeds. */
  predicate Compatible(s: Settings, store: InMemoryVectorStore)
    reads store
  {
    && !AllSpace(s.modelId) && s.dimension > 0
    && (store.modelId == None || (store.modelId == Some(s.modelId) && store.dimension == Some(s.dimension)))
  }

  class ProcessingService {
    const settings: Settings
    const store: InMemoryVectorStore
    var initialized: bool

    constructor (settings: Settings, store: InMemoryVectorStore)
      ensures this.settings == settings && this.store == store && !initialized
    {
      this.settings, this.store, this.initialized := settings, store, false;
    }

    /** Once initialised, the store has the service's configuration. */
    ghost predicate Valid()
      reads this, store
    {
      initialized ==> store.modelId == Some(settings.modelId) && store.dimension == Some(settings.dimension)
    }

    /** What `initialize` raises, if anything; only the first call that succeeds sends a request. */
    function Refusal(fault: Option<Interruption>): Option<Exception>
      reads this, store
    {
      if initialized then None
      else if fault.Some? then Some(Interrupted(fault.value))
      else if !Compatible(settings, store) then Some(StoreRefused)
      else None
    }

    method Initialize(fault: Option<Interruption>) returns (refusal: Option<Exception>)
      requires Valid()
      modifies this`initialized, store
      ensures Valid() && store.records == old(store.records)
      ensures refusal == old(Refusal(fault))
      // Once initialised there is nothing left to refuse; before, the request must succeed and the configuration fit.
      ensures
        var fits := old(store.modelId) == None
          || (old(store.modelId) == Some(settings.modelId) && old(store.dimension) == Some(settings.dimension));
        var named := exists c <- settings.modelId :: !IsSpace(c);
        refusal.None? <==> old(initialized) || (fault.None? && named && settings.dimension > 0 && fits)
      ensures refusal.Some? ==> refusal.value == if fault.Some? then Interrupted(fault.value) else StoreRefused
      ensures initialized <==> refusal.None?
    {
      if initialized {
        return None;
      }
      if fault.Some? {
        return Some(Interrupted(fault.value));
      }
      var reply := store.Initialize(settings.modelId, settings.dimension);
      if reply != Done {
        return Some(StoreRefused);
      }
      initialized := true;
      refusal := None;
    }

    method RebuildDocument(initialize: Option<Interruption>, db: Database, d: DocumentId, maxChunks: int,
                           faults: Faults)
      returns (reply: Reply)
      requires Valid() && ValidDatabase(db)
      modifies this`initialized, store
      ensures Valid() && (old(initialized) ==> initialized)
      ensures
        if maxChunks < 1 then reply == Raised(InvalidLimit) && store.records == old(store.records)
        else if old(Refusal(initialize)).Some? then
          reply == Raised(old(Refusal(initialize)).value) && store.records == old(store.records)
        else
          (store.records, reply) == Rebuilt(settings, old(store.records), db, d, maxChunks, faults)
    {
      if maxChunks < 1 {
        return Raised(InvalidLimit);
      }
      var refusal := Initialize(initialize);
      if refusal.Some? {
        return Raised(refusal.value);
      }
      if faults.load.Some? {
        return Raised(Interrupted(faults.load.value));
      }
      var loaded := Load(db, d, maxChunks);
      if loaded.Refused? {
        return Raised(loaded.exception);
      }
      LoadedAreDistinct(db, d, maxChunks, settings.embed);
      var records, embedding := RecordsForChunks(settings, faults.embed, loaded.knowledgeBase, loaded.rows);
      if !embedding.Answered? {
        return EndedBy(d, 0, embedding);
      }
      if !faults.delete.Answered? {
        if faults.delete.effect {
          var deleted := store.DeleteByDocument(d);
        }
        return EndedBy(d, 0, faults.delete);
      }
      reply := RefillStore(settings, store, d, records, faults.upsert);
    }

    /** The body of the loop over the listing. */
    method TakeTurn(listed: Listed, db: Database, maxChunks: int, faults: Faults, ghost c: Course, ghost k: nat)
      returns (reply: Reply)
      requires Valid() && initialized && ValidDatabase(db) && maxChunks >= 1
      requires k < |c.listing| && c.settings == settings && c.maxChunks == maxChunks
      requires c.listing[k] == listed && c.databases(k) == db && c.faults(k) == faults
      modifies this`initialized, store
      ensures Valid() && initialized
      ensures reply == TurnReply(c, k) && store.records == Turn(c, old(store.records), k)
    {
      var d := listed.document;
      if listed.status != Completed {
        return Returned(RebuildResult(1, 0, 0, [RebuildFailure(d, REBUILD_NOT_READY)]));
      }
      reply := RebuildDocument(None, db, d, maxChunks, faults);
      if reply.Raised? && reply.exception in {NotReady, LimitExceeded} {
        return Returned(RebuildResult(1, 0, 0, [RebuildFailure(d, RefusalCode(reply.exception))]));
      }
    }

    /** One turn carries the progress on or ends the loop. */
    method NextTurn(c: Course, n: nat, ghost before: Index, ghost result: RebuildResult) returns (turn: Reply)
      requires Valid() && initialized && c.Valid() && c.settings == settings && c.maxChunks >= 1
      requires n < |c.listing| && KeyedIndex(before) && Progress(c, before, store.records, n, result)
      modifies this`initialized, store
      ensures Valid() && initialized
      ensures
        match turn
        case Returned(report) =>
          Progress(c, before, store.records, n + 1, Plus(result, report)) && report.documentsSeen == 1
        case Raised(_) => Outcome(c, before, store.records, turn)
    {
      if TurnReply(c, n).Returned? {
        ProgressNext(c, before, store.records, n, result);
      } else {
        RaisingEnds(c, before, store.records, n, result);
      }
      turn := TakeTurn(c.listing[n], c.databases(n), c.maxChunks, c.faults(n), c, n);
    }

    method RebuildAll(c: Course) returns (reply: Reply)
      requires Valid() && initialized && c.settings == settings && c.maxChunks >= 1
      requires c.Valid() && KeyedIndex(store.records)
      modifies this`initialized, store
      ensures Valid() && initialized
      ensures Outcome(c, old(store.records), store.records, reply)
    {
      ghost var before := store.records;
      var indexedDocuments: nat, indexedChunks: nat := 0, 0;
      var failures: seq<RebuildFailure> := [];
      NoProgress(c, before);
      for n := 0 to |c.listing|
        invariant Valid() && initialized
        invariant Progress(c, before, store.records, n, RebuildResult(n, indexedDocuments, indexedChunks, failures))
      {
        var turn := NextTurn(c, n, before, RebuildResult(n, indexedDocuments, indexedChunks, failures));
        if turn.Raised? {
          return turn;
        }
        indexedDocuments := indexedDocuments + turn.result.documentsIndexed;
        indexedChunks := indexedChunks + turn.result.chunksIndexed;
        failures := failures + turn.result.failures;
      }
      FirstRaisingIs(c, |c.listing|);
      reply := Returned(RebuildResult(|c.listing|, indexedDocuments, indexedChunks, failures));
    }

    /** What a rebuild of a knowledge base raises before its first turn, if anything. */
    function EarlyRefusal(initialize: Option<Interruption>, documents: ListingResult, maxDocuments: int,
                          maxChunks: int): Option<Exception>
      reads this, store
    {
      if maxDocuments < 1 || maxChunks < 1 then Some(InvalidLimit)
      else if Refusal(initialize).Some? then Refusal(initialize)
      else
        match documents
        case Interrupts(cause) => Some(Interrupted(cause))
        case NoKnowledgeBase => Some(NotReady)
        case Documents(listing) => if |listing| > maxDocuments then Some(LimitExceeded) else None
    }

    method RebuildKnowledgeBase(initialize: Option<Interruption>, documents: ListingResult,
                                databases: nat -> Database, maxDocuments: int, maxChunks: int,
                                faults: nat -> Faults)
      returns (reply: Reply)
      requires Valid() && KeyedIndex(store.records)
      requires documents.Documents? && maxChunks >= 1 ==>
        Course(settings, documents.listing, databases, maxChunks, faults).Valid()
      modifies this`initialized, store
      ensures Valid()
      ensures
        var refusal := old(EarlyRefusal(initialize, documents, maxDocuments, maxChunks));
        if refusal.Some? then reply == Raised(refusal.value) && store.records == old(store.records)
        else
          Outcome(Course(settings, documents.listing, databases, maxChunks, faults), old(store.records),
            store.records, reply)
      ensures maxDocuments < 1 || maxChunks < 1 <==> reply == Raised(InvalidLimit)
      ensures reply == Raised(NotReady) ==> documents.NoKnowledgeBase?
      ensures reply == Raised(LimitExceeded) ==> documents.Documents? && |documents.listing| > maxDocuments
      ensures reply.Returned? ==>
        && initialized && maxDocuments >= 1 && maxChunks >= 1
        && documents.Documents? && |documents.listing| <= maxDocuments
    {
      if maxDocuments < 1 || maxChunks < 1 {
        return Raised(InvalidLimit);
      }
      var refusal := Initialize(initialize);
      if refusal.Some? {
        return Raised(refusal.value);
      }
      match documents
      case Interrupts(cause) => return Raised(Interrupted(cause));
      case NoKnowledgeBase => return Raised(NotReady);
      case Documents(listing) =>
        if |listing| > maxDocuments {
          return Raised(LimitExceeded);
        }
        reply := RebuildAll(Course(settings, listing, databases, maxChunks, faults));
    }
  }
}
