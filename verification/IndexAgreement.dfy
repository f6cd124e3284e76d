/** The vector index against the durable chunks, with live, stale and rebuilding writers interleaving freely. */
module IndexAgreement {
  import opened Identifiers
  import opened Ingestion
  import opened Jobs
  import opened Options
  import opened Records
  import opened VectorStore

  // ---------------------------------------------------------------- the index never leaves the chunks

  /** The record of the chunk at position `i` of the document. */
  predicate IsRecordOf(p: Pipeline, record: VectorRecord, chunk: DurableChunk, d: DocumentId, i: nat) {
    && record.document == d && record.chunkIndex == i && record.text == chunk.text
    && record.embedding == p.embed(chunk.text) && record.contentHash == p.textSha256(chunk.text)
    && record.chunkId == chunk.id == ChunkId(d, i, p.textSha256(chunk.text))
  }

  /** Every index entry is the record of one of the durable chunks of its document: that chunk's text with its
      embedding, its ids, and the document's knowledge base. */
  lemma {:induction false} IndexWithinChunks(p: Pipeline, events: seq<Event>, id: VectorId)
    requires p.Valid() && Legal(p, START, events) && id in After(p, START, events).index
    ensures
      var s := After(p, START, events);
      var d := s.index[id].document;
      && d in s.chunks && d in s.documents
      && s.index[id].knowledgeBase == s.documents[d].knowledgeBase
      && (exists i :: 0 <= i < |s.chunks[d].rows| && VectorId(s.chunks[d].rows[i].id) == id
                      && IsRecordOf(p, s.index[id], s.chunks[d].rows[i], d, i))
  {
    StartIsOk(p);
    RunKeepsInv(p, START, events);
    var s := After(p, START, events);
    var d := s.index[id].document;
    assert EntryOk(p, s, id);
    assert ChunksOk(p, s, d);
    var records := Derived(p, d, s.documents[d]);
    var i :| 0 <= i < |records| && records[i] == s.index[id];
    assert records[i] == RecordFor(p.embed, s.documents[d].knowledgeBase, s.chunks[d].rows[i]);
    assert IsRecordOf(p, s.index[id], s.chunks[d].rows[i], d, i);
  }

  lemma {:induction false} DerivedIsDistinct(p: Pipeline, d: DocumentId, document: Document)
    ensures Distinct(Derived(p, d, document)) && BelongTo(Derived(p, d, document), d)
  {
  }

  lemma {:induction false} IndexIsKeyed(p: Pipeline, s: World)
    requires Inv(p, s)
    ensures KeyedIndex(s.index)
  {
    forall id | id in s.index
      ensures s.index[id].vectorId == id && Keyed(s.index[id])
    {
      assert EntryOk(p, s, id);
      DerivedIsDistinct(p, s.index[id].document, s.documents[s.index[id].document]);
    }
  }

  // ---------------------------------------------------------------- one step, seen from one document

  /** The document whose vectors the step may touch. */
  function Touches(s: World, e: Event): Option<DocumentId> {
    match e
    case AttemptSteps(w, step) => if IsRunning(s, w) then Some(s.workers[w].document) else None
    case RebuildSteps(r, step) => if r in s.rebuilds then Some(s.rebuilds[r].document) else None
    case _ => None
  }

  /** The step deletes the document's vectors, whoever takes it. */
  predicate Deletes(s: World, e: Event, d: DocumentId) {
    (e.AttemptSteps? || e.RebuildSteps?) && e.step.DeleteVectors? && Touches(s, e) == Some(d)
  }

  /** The records of the document that the step sends. */
  function Sends(p: Pipeline, s: World, e: Event, d: DocumentId): seq<VectorRecord>
    requires Enabled(p, s, e)
  {
    if Touches(s, e) != Some(d) then []
    else
      match e
      case AttemptSteps(w, step) => Written(p, d, s.documents[d], s.workers[w].phase, step)
      case RebuildSteps(r, step) => Written(p, d, s.documents[d], s.rebuilds[r].phase, step)
  }

  lemma {:induction false} WrittenBelongs(p: Pipeline, d: DocumentId, document: Document, phase: Phase, step: Step)
    requires PhaseOk(p, d, document, phase) && Allows(p, d, document, phase, step)
    ensures BelongTo(Written(p, d, document, phase, step), d)
    ensures forall record <- Written(p, d, document, phase, step) :: record in Derived(p, d, document)
  {
    var written := Written(p, d, document, phase, step);
    forall i | 0 <= i < |written|
      ensures Keyed(written[i]) && written[i].document == d && written[i] in Derived(p, d, document)
    {
      WrittenIsDerived(p, d, document, phase, step, i);
      DerivedIsDistinct(p, d, document);
    }
  }

  lemma {:induction false} WriterStepOfDocument(p: Pipeline, index: Index, d: DocumentId, document: Document,
                                                phase: Phase, step: Step, other: DocumentId)
    requires KeyedIndex(index) && PhaseOk(p, d, document, phase) && Allows(p, d, document, phase, step)
    ensures OfDocument(IndexAfter(p, index, d, document, phase, step), other) ==
            if other != d then OfDocument(index, other)
            else Upserted(if step.DeleteVectors? then map[] else OfDocument(index, d),
                          Written(p, d, document, phase, step))
  {
    var kept := if step.DeleteVectors? then WithoutDocument(index, d) else index;
    WrittenBelongs(p, d, document, phase, step);
    UpsertedOfDocument(kept, Written(p, d, document, phase, step), d, other);
    DeletedOfDocument(index, d, other);
  }

  /** The exact effect of any step on a document's vectors: they are dropped if it deletes them, then what it
      sends for that document is upserted. Steps on other documents leave them untouched. */
  lemma {:induction false} StepOfDocument(p: Pipeline, s: World, e: Event, d: DocumentId)
    requires p.Valid() && Inv(p, s) && Enabled(p, s, e)
    ensures OfDocument(Apply(p, s, e).index, d) ==
            Upserted(if Deletes(s, e, d) then map[] else OfDocument(s.index, d), Sends(p, s, e, d))
  {
    IndexIsKeyed(p, s);
    if e.AttemptSteps? {
      assert WorkerOk(p, s, e.worker);
      var Running(j, own, attempt, phase) := s.workers[e.worker];
      WriterStepOfDocument(p, s.index, own, s.documents[own], phase, e.step, d);
    } else if e.RebuildSteps? {
      assert RebuildOk(p, s, e.rebuild);
      var Rebuild(own, phase) := s.rebuilds[e.rebuild];
      WriterStepOfDocument(p, s.index, own, s.documents[own], phase, e.step, d);
    }
  }

  lemma {:induction false} SendsDerived(p: Pipeline, s: World, e: Event, d: DocumentId, record: VectorRecord)
    requires p.Valid() && Inv(p, s) && Enabled(p, s, e) && record in Sends(p, s, e, d)
    ensures d in s.documents && record in Derived(p, d, s.documents[d])
  {
    if e.AttemptSteps? {
      assert WorkerOk(p, s, e.worker);
      WrittenBelongs(p, d, s.documents[d], s.workers[e.worker].phase, e.step);
    } else {
      assert RebuildOk(p, s, e.rebuild);
      WrittenBelongs(p, d, s.documents[d], s.rebuilds[e.rebuild].phase, e.step);
    }
  }

  // ---------------------------------------------------------------- a whole run, seen from one document

  /** Everything sent for the document since its vectors were last deleted, by anyone. */
  function SentSinceDeletion(p: Pipeline, s: World, events: seq<Event>, d: DocumentId): seq<VectorRecord>
    requires Legal(p, s, events)
  {
    if events == [] then []
    else
      var start := events[..|events| - 1];
      var before, e := After(p, s, start), events[|events| - 1];
      (if Deletes(before, e, d) then [] else SentSinceDeletion(p, s, start, d)) + Sends(p, before, e, d)
  }

  /** The index of a document is exactly what was sent since the last deletion. */
  lemma {:induction false} IndexIsWhatWasSent(p: Pipeline, events: seq<Event>, d: DocumentId)
    requires p.Valid() && Legal(p, START, events)
    ensures OfDocument(After(p, START, events).index, d) == AsIndex(SentSinceDeletion(p, START, events, d))
    ensures forall record <- SentSinceDeletion(p, START, events, d) ::
      var s := After(p, START, events); d in s.documents && record in Derived(p, d, s.documents[d])
  {
    if events != [] {
      var start := events[..|events| - 1];
      IndexIsWhatWasSent(p, start, d);
      StartIsOk(p);
      RunKeepsInv(p, START, start);
      var before, e := After(p, START, start), events[|events| - 1];
      StepOfDocument(p, before, e, d);
      StepGrows(p, before, e);
      assert DocumentGrows(before, After(p, START, events), d);
      UpsertedConcat(map[], if Deletes(before, e, d) then [] else SentSinceDeletion(p, START, start, d),
                     Sends(p, before, e, d));
      forall record | record in Sends(p, before, e, d)
        ensures d in before.documents && record in Derived(p, d, before.documents[d])
      {
        SendsDerived(p, before, e, d, record);
      }
    }
  }

  /** In any state of any run, a document's index agrees with its durable chunks exactly when every one of their
      records has been sent since the last deletion. */
  lemma {:induction false} AgreementIff(p: Pipeline, events: seq<Event>, d: DocumentId)
    requires p.Valid() && Legal(p, START, events) && d in After(p, START, events).chunks
    ensures d in After(p, START, events).documents
    ensures
      var s := After(p, START, events);
      OfDocument(s.index, d) == AsIndex(RecordsFor(p.embed, s.documents[d].knowledgeBase, s.chunks[d].rows)) <==>
      forall record <- RecordsFor(p.embed, s.documents[d].knowledgeBase, s.chunks[d].rows) ::
        record in SentSinceDeletion(p, START, events, d)
  {
    var s := After(p, START, events);
    StartIsOk(p);
    RunKeepsInv(p, START, events);
    assert ChunksOk(p, s, d);
    IndexIsWhatWasSent(p, events, d);
    DerivedIsDistinct(p, d, s.documents[d]);
    PartIsWhole(SentSinceDeletion(p, START, events, d), Derived(p, d, s.documents[d]));
  }

  // ---------------------------------------------------------------- agreement at completion

  /** Nobody deletes the document's vectors during the run. */
  predicate NoDeletion(p: Pipeline, s: World, events: seq<Event>, d: DocumentId)
    requires Legal(p, s, events)
  {
    events == [] ||
    var start := events[..|events| - 1];
    NoDeletion(p, s, start, d) && !Deletes(After(p, s, start), events[|events| - 1], d)
  }

  /** What this writer has upserted so far is in the index. */
  ghost predicate PrefixIndexed(index: Index, phase: Phase) {
    phase.Upserting? ==>
      phase.done <= |phase.records| && forall i :: 0 <= i < phase.done ==> Holds(index, phase.records[i])
  }

  ghost predicate WorkerIndexed(s: World, w: WorkerId, d: DocumentId) {
    IsRunning(s, w) && s.workers[w].document == d ==> PrefixIndexed(s.index, s.workers[w].phase)
  }

  /** Without a deletion no record leaves the index: other writers of the document send equal records. */
  lemma {:induction false} RecordsStay(p: Pipeline, s: World, e: Event, d: DocumentId, record: VectorRecord)
    requires p.Valid() && Inv(p, s) && Enabled(p, s, e) && !Deletes(s, e, d)
    requires d in s.documents && record in Derived(p, d, s.documents[d])
    requires Holds(s.index, record) || record in Sends(p, s, e, d)
    ensures Holds(Apply(p, s, e).index, record)
  {
    DerivedIsDistinct(p, d, s.documents[d]);
    StepOfDocument(p, s, e, d);
    forall other | other in Sends(p, s, e, d)
      ensures other in Derived(p, d, s.documents[d])
    {
      SendsDerived(p, s, e, d, other);
    }
    assert record.document == d;
    HeldAfterUpsert(OfDocument(s.index, d), Sends(p, s, e, d), Derived(p, d, s.documents[d]), record);
    assert Holds(OfDocument(Apply(p, s, e).index, d), record);
  }

  lemma {:induction false} WasUpserting(p: Pipeline, s: World, e: Event, w: WorkerId, d: DocumentId)
    requires p.Valid() && Inv(p, s) && Enabled(p, s, e) && !Deletes(s, e, d)
    requires var s' := Apply(p, s, e); IsRunning(s', w) && s'.workers[w].document == d && s'.workers[w].phase.Upserting?
    ensures IsRunning(s, w) && s.workers[w].document == d && s.workers[w].phase.Upserting?
    ensures e != AttemptSteps(w, UpsertBatch) ==> Apply(p, s, e).workers[w].phase == s.workers[w].phase
  {
    assert w in s.workers ==> WorkerOk(p, s, w);
  }

  /** A worker found upserting the document was doing so before, and has sent what it has passed since. */
  lemma {:induction false} UpsertingBefore(p: Pipeline, s: World, e: Event, w: WorkerId, d: DocumentId)
    requires p.Valid() && Inv(p, s) && Enabled(p, s, e) && !Deletes(s, e, d)
    requires var s' := Apply(p, s, e); IsRunning(s', w) && s'.workers[w].document == d && s'.workers[w].phase.Upserting?
    ensures IsRunning(s, w) && s.workers[w].document == d && s.workers[w].phase.Upserting?
    ensures
      var Upserting(records, before) := s.workers[w].phase;
      var done := Apply(p, s, e).workers[w].phase.done;
      && Apply(p, s, e).workers[w].phase.records == records == Derived(p, d, s.documents[d])
      && done <= |records|
      && forall i :: before <= i < done ==> records[i] in Sends(p, s, e, d)
  {
    WasUpserting(p, s, e, w, d);
    assert WorkerOk(p, s, w);
    if e == AttemptSteps(w, UpsertBatch) {
      var Upserting(records, before) := s.workers[w].phase;
      var done := Apply(p, s, e).workers[w].phase.done;
      forall i | before <= i < done
        ensures records[i] in Sends(p, s, e, d)
      {
        assert Sends(p, s, e, d)[i - before] == records[i];
      }
    }
  }

  lemma {:induction false} StepKeepsPrefix(p: Pipeline, s: World, e: Event, w: WorkerId, d: DocumentId)
    requires p.Valid() && Inv(p, s) && Enabled(p, s, e) && !Deletes(s, e, d) && WorkerIndexed(s, w, d)
    ensures WorkerIndexed(Apply(p, s, e), w, d)
  {
    var s' := Apply(p, s, e);
    if IsRunning(s', w) && s'.workers[w].document == d && s'.workers[w].phase.Upserting? {
      UpsertingBefore(p, s, e, w, d);
      var Upserting(records, done) := s'.workers[w].phase;
      forall i | 0 <= i < done
        ensures Holds(s'.index, records[i])
      {
        RecordsStay(p, s, e, d, records[i]);
      }
    }
  }

  lemma {:induction false} RunKeepsPrefix(p: Pipeline, s: World, events: seq<Event>, w: WorkerId, d: DocumentId)
    requires p.Valid() && Inv(p, s) && Legal(p, s, events) && NoDeletion(p, s, events, d) && WorkerIndexed(s, w, d)
    ensures WorkerIndexed(After(p, s, events), w, d)
  {
    if events != [] {
      var start := events[..|events| - 1];
      RunKeepsPrefix(p, s, start, w, d);
      RunKeepsInv(p, s, start);
      StepKeepsPrefix(p, After(p, s, start), events[|events| - 1], w, d);
    }
  }

  lemma {:induction false} AllHeldIsAgreement(p: Pipeline, s: World, d: DocumentId)
    requires Inv(p, s) && d in s.chunks && d in s.documents
    requires forall record <- Derived(p, d, s.documents[d]) :: Holds(s.index, record)
    ensures OfDocument(s.index, d) == AsIndex(RecordsFor(p.embed, s.documents[d].knowledgeBase, s.chunks[d].rows))
  {
    var records := Derived(p, d, s.documents[d]);
    assert ChunksOk(p, s, d);
    DerivedIsDistinct(p, d, s.documents[d]);
    UpsertedLookup(map[], records);
    forall id | id in OfDocument(s.index, d)
      ensures id in AsIndex(records) && AsIndex(records)[id] == s.index[id]
    {
      assert EntryOk(p, s, id);
      var i :| 0 <= i < |records| && records[i] == s.index[id];
      assert records[i].vectorId == id;
    }
    forall id | id in AsIndex(records)
      ensures id in OfDocument(s.index, d)
    {
      UpsertedSources(map[], records, id);
      var i :| 0 <= i < |records| && records[i].vectorId == id;
      assert records[i] in records;
      assert Holds(s.index, records[i]) && records[i].document == d;
    }
  }

  lemma {:induction false} AllUpsertedIsAgreement(p: Pipeline, s: World, own: WorkerId, d: DocumentId)
    requires p.Valid() && Inv(p, s) && Enabled(p, s, AttemptSteps(own, CommitSuccess))
    requires s.workers[own].document == d && WorkerIndexed(s, own, d)
    ensures d in s.chunks && d in s.documents
    ensures OfDocument(s.index, d) == AsIndex(RecordsFor(p.embed, s.documents[d].knowledgeBase, s.chunks[d].rows))
  {
    assert WorkerOk(p, s, own);
    var records := s.workers[own].phase.records;
    forall record <- Derived(p, d, s.documents[d])
      ensures Holds(s.index, record)
    {
      var i :| 0 <= i < |records| && records[i] == record;
    }
    AllHeldIsAgreement(p, s, d);
  }

  /** Index and chunks agree when an attempt completes, provided nobody deletes the document's vectors between
      that attempt's own deletion and its completion. Earlier partial writes, upserts by stale workers and by
      rebuilds of the same document, and any work on other documents do not matter. */
  lemma {:induction false} CompletionAgrees(p: Pipeline, s: World, own: WorkerId, events: seq<Event>)
    requires p.Valid() && Inv(p, s) && Enabled(p, s, AttemptSteps(own, DeleteVectors))
    requires var s0 := Apply(p, s, AttemptSteps(own, DeleteVectors));
      && Legal(p, s0, events) && NoDeletion(p, s0, events, s.workers[own].document)
      && Enabled(p, After(p, s0, events), AttemptSteps(own, CommitSuccess))
      && After(p, s0, events).workers[own].document == s.workers[own].document
    ensures
      var s0 := Apply(p, s, AttemptSteps(own, DeleteVectors));
      var s' := Apply(p, After(p, s0, events), AttemptSteps(own, CommitSuccess));
      var d := s.workers[own].document;
      && d in s'.chunks && d in s'.documents
      && OfDocument(s'.index, d) == AsIndex(RecordsFor(p.embed, s'.documents[d].knowledgeBase, s'.chunks[d].rows))
  {
    var d := s.workers[own].document;
    var s0 := Apply(p, s, AttemptSteps(own, DeleteVectors));
    StepKeepsInv(p, s, AttemptSteps(own, DeleteVectors));
    assert WorkerIndexed(s0, own, d);
    RunKeepsPrefix(p, s0, events, own, d);
    RunKeepsInv(p, s0, events);
    AllUpsertedIsAgreement(p, After(p, s0, events), own, d);
  }

  // ---------------------------------------------------------------- a rebuild repairs

  ghost predicate RebuildIndexed(s: World, r: RebuildId) {
    r in s.rebuilds ==> PrefixIndexed(s.index, s.rebuilds[r].phase)
  }

  lemma {:induction false} RebuildingBefore(p: Pipeline, s: World, e: Event, r: RebuildId)
    requires p.Valid() && Inv(p, s) && Enabled(p, s, e) && r in s.rebuilds && !Deletes(s, e, s.rebuilds[r].document)
    requires r in Apply(p, s, e).rebuilds && Apply(p, s, e).rebuilds[r].phase.Upserting?
    ensures Apply(p, s, e).rebuilds[r].document == s.rebuilds[r].document && s.rebuilds[r].phase.Upserting?
    ensures
      var Rebuild(d, phase) := s.rebuilds[r];
      var done := Apply(p, s, e).rebuilds[r].phase.done;
      && d in s.documents && Apply(p, s, e).rebuilds[r].phase.records == phase.records == Derived(p, d, s.documents[d])
      && done <= |phase.records|
      && forall i :: phase.done <= i < done ==> phase.records[i] in Sends(p, s, e, d)
  {
    assert RebuildOk(p, s, r);
    if e == RebuildSteps(r, UpsertBatch) {
      var Rebuild(d, phase) := s.rebuilds[r];
      var done := Apply(p, s, e).rebuilds[r].phase.done;
      forall i | phase.done <= i < done
        ensures phase.records[i] in Sends(p, s, e, d)
      {
        assert Sends(p, s, e, d)[i - phase.done] == phase.records[i];
      }
    }
  }

  lemma {:induction false} StepKeepsRebuildPrefix(p: Pipeline, s: World, e: Event, r: RebuildId)
    requires p.Valid() && Inv(p, s) && Enabled(p, s, e) && r in s.rebuilds && RebuildIndexed(s, r)
    requires !Deletes(s, e, s.rebuilds[r].document)
    ensures RebuildIndexed(Apply(p, s, e), r)
    ensures r in Apply(p, s, e).rebuilds && Apply(p, s, e).rebuilds[r].document == s.rebuilds[r].document
  {
    var s' := Apply(p, s, e);
    if s'.rebuilds[r].phase.Upserting? {
      RebuildingBefore(p, s, e, r);
      var Upserting(records, done) := s'.rebuilds[r].phase;
      forall i | 0 <= i < done
        ensures Holds(s'.index, records[i])
      {
        RecordsStay(p, s, e, s.rebuilds[r].document, records[i]);
      }
    }
  }

  lemma {:induction false} RunKeepsRebuildPrefix(p: Pipeline, s: World, events: seq<Event>, r: RebuildId)
    requires p.Valid() && Inv(p, s) && Legal(p, s, events) && r in s.rebuilds && RebuildIndexed(s, r)
    requires NoDeletion(p, s, events, s.rebuilds[r].document)
    ensures RebuildIndexed(After(p, s, events), r)
    ensures r in After(p, s, events).rebuilds && After(p, s, events).rebuilds[r].document == s.rebuilds[r].document
  {
    if events != [] {
      var start := events[..|events| - 1];
      RunKeepsRebuildPrefix(p, s, start, r);
      RunKeepsInv(p, s, start);
      StepKeepsRebuildPrefix(p, After(p, s, start), events[|events| - 1], r);
    }
  }

  /** A rebuild restores agreement, whatever the index held before, if nobody else deletes the document's vectors
      between its own deletion and its last upsert. */
  lemma {:induction false} RebuildRestoresAgreement(p: Pipeline, s: World, r: RebuildId, events: seq<Event>)
    requires p.Valid() && Inv(p, s) && Enabled(p, s, RebuildSteps(r, DeleteVectors))
    requires var s0 := Apply(p, s, RebuildSteps(r, DeleteVectors));
      && Legal(p, s0, events) && NoDeletion(p, s0, events, s.rebuilds[r].document)
      && r in After(p, s0, events).rebuilds && After(p, s0, events).rebuilds[r].phase.Upserting?
      && After(p, s0, events).rebuilds[r].phase.done == |After(p, s0, events).rebuilds[r].phase.records|
    ensures
      var s' := After(p, Apply(p, s, RebuildSteps(r, DeleteVectors)), events);
      var d := s.rebuilds[r].document;
      && d in s'.chunks && d in s'.documents
      && OfDocument(s'.index, d) == AsIndex(RecordsFor(p.embed, s'.documents[d].knowledgeBase, s'.chunks[d].rows))
  {
    var d := s.rebuilds[r].document;
    var s0 := Apply(p, s, RebuildSteps(r, DeleteVectors));
    StepKeepsInv(p, s, RebuildSteps(r, DeleteVectors));
    RunKeepsRebuildPrefix(p, s0, events, r);
    RunKeepsInv(p, s0, events);
    var s' := After(p, s0, events);
    assert RebuildOk(p, s', r);
    var records := s'.rebuilds[r].phase.records;
    forall record <- Derived(p, d, s'.documents[d])
      ensures Holds(s'.index, record)
    {
      var i :| 0 <= i < |records| && records[i] == record;
    }
    AllHeldIsAgreement(p, s', d);
  }

  /** A writer's step, live, stale or rebuilding, leaves the vectors of every other document as they were. */
  lemma {:induction false} OtherDocumentsUntouched(p: Pipeline, s: World, e: Event, d: DocumentId)
    requires p.Valid() && Inv(p, s) && Enabled(p, s, e) && Touches(s, e) != Some(d)
    ensures OfDocument(Apply(p, s, e).index, d) == OfDocument(s.index, d)
  {
    StepOfDocument(p, s, e, d);
  }
}
