/** A rebuild after a successful ingestion has nothing to do. */
module RebuildAgreement {
  import opened Identifiers
  import opened IndexAgreement
  import opened Ingestion
  import opened Jobs
  import opened Records
  import opened VectorStore
  import Rebuild

  function AsRows(rows: seq<DurableChunk>): seq<Rebuild.ChunkRow> {
    seq(|rows|, i requires 0 <= i < |rows| => Rebuild.ChunkRow(rows[i], true))
  }

  /** What the rebuild reads of one completed document. */
  function Snapshot(s: World, d: DocumentId): Rebuild.Database
    requires d in s.documents && d in s.chunks
  {
    map[d := Rebuild.StoredDocument(s.documents[d].knowledgeBase, Completed, AsRows(s.chunks[d].rows))]
  }

  lemma {:induction false} SnapshotLoads(p: Pipeline, s: World, d: DocumentId, maxChunks: nat)
    requires Inv(p, s) && d in s.documents && d in s.chunks
    ensures Rebuild.ValidDatabase(Snapshot(s, d))
    ensures Rebuild.Load(Snapshot(s, d), d, maxChunks) ==
            if |s.chunks[d].rows| > maxChunks then Rebuild.Refused(Rebuild.LimitExceeded)
            else Rebuild.LoadedRows(s.documents[d].knowledgeBase, s.chunks[d].rows)
  {
    assert ChunksOk(p, s, d);
    var rows := AsRows(s.chunks[d].rows);
    assert Rebuild.DistinctRows(d, rows);
    forall row <- rows
      ensures row.hasDigest
    {
      var i :| 0 <= i < |rows| && rows[i] == row;
    }
    assert Rebuild.ChunksIn(rows) == s.chunks[d].rows;
  }

  /** Rebuilding the document right after the completion of an undisturbed attempt, with the same embedder and
      within the chunk limit, leaves the whole index as it is whenever it succeeds. */
  lemma {:induction false} RebuildAfterIngestionIsNoOp(p: Pipeline, s: World, own: WorkerId, events: seq<Event>,
                                                       settings: Rebuild.Settings, maxChunks: nat,
                                                       faults: Rebuild.Faults)
    requires p.Valid() && Inv(p, s) && Enabled(p, s, AttemptSteps(own, DeleteVectors))
    requires var s0 := Apply(p, s, AttemptSteps(own, DeleteVectors));
      && Legal(p, s0, events) && NoDeletion(p, s0, events, s.workers[own].document)
      && Enabled(p, After(p, s0, events), AttemptSteps(own, CommitSuccess))
      && After(p, s0, events).workers[own].document == s.workers[own].document
    requires settings.embed == p.embed
    ensures
      var s' := Apply(p, After(p, Apply(p, s, AttemptSteps(own, DeleteVectors)), events),
        AttemptSteps(own, CommitSuccess));
      var d := s.workers[own].document;
      && d in s'.documents && d in s'.chunks
      && var (index, reply) := Rebuild.Rebuilt(settings, s'.index, Snapshot(s', d), d, maxChunks, faults);
         reply.Returned? && reply.result.failures == [] ==> index == s'.index
  {
    var d := s.workers[own].document;
    var s0 := Apply(p, s, AttemptSteps(own, DeleteVectors));
    StepKeepsInv(p, s, AttemptSteps(own, DeleteVectors));
    RunKeepsInv(p, s0, events);
    StepKeepsInv(p, After(p, s0, events), AttemptSteps(own, CommitSuccess));
    CompletionAgrees(p, s, own, events);
    Unchanged(p, Apply(p, After(p, s0, events), AttemptSteps(own, CommitSuccess)), d, settings, maxChunks, faults);
  }

  /** The same in any state in which index and chunks agree, and there only. */
  lemma {:induction false} Unchanged(p: Pipeline, s: World, d: DocumentId, settings: Rebuild.Settings,
                                     maxChunks: nat, faults: Rebuild.Faults)
    requires Inv(p, s) && d in s.documents && d in s.chunks && settings.embed == p.embed
    ensures
      var (index, reply) := Rebuild.Rebuilt(settings, s.index, Snapshot(s, d), d, maxChunks, faults);
      reply.Returned? && reply.result.failures == [] ==>
        (index == s.index <==>
          OfDocument(s.index, d) == AsIndex(RecordsFor(p.embed, s.documents[d].knowledgeBase, s.chunks[d].rows)))
  {
    SnapshotLoads(p, s, d, maxChunks);
    IndexIsKeyed(p, s);
    var reply := Rebuild.Rebuilt(settings, s.index, Snapshot(s, d), d, maxChunks, faults).1;
    if reply.Returned? && reply.result.failures == [] {
      Rebuild.RebuiltIsExact(settings, s.index, Snapshot(s, d), d, maxChunks, faults, d);
      Rebuild.RebuildIsNoOp(settings, s.index, Snapshot(s, d), d, maxChunks, faults);
    }
  }
}
