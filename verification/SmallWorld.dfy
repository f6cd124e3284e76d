/** Runs of the ingestion protocol with one document, for concrete examples. */
module SmallWorld {
  import opened Identifiers
  import opened Ingestion
  import opened Jobs
  import opened Records
  import opened VectorStore

  const PIPELINE := Pipeline(bytes => |bytes|, (d, bytes) => [[0x41]], text => |text|, text => [1.0], 1, 10, 5)
  const DOCUMENT := Document(0, [7])
  const ROWS := DurableChunks(PIPELINE, 0, [[0x41]])
  const RECORDS := RecordsFor(PIPELINE.embed, 0, ROWS)

  /** A world with the one document, its job and workers. */
  function Small(now: Time, job: Job, chunks: map<DocumentId, StoredChunks>, index: Index,
                 workers: map<WorkerId, Worker>): World {
    World(now, map[0 := DOCUMENT], map[0 := job], chunks, index, workers, map[])
  }

  ghost predicate Reached(events: seq<Event>, s: World) {
    Legal(PIPELINE, START, events) && After(PIPELINE, START, events) == s
  }

  lemma {:induction false} Then(events: seq<Event>, s: World, e: Event)
    requires Reached(events, s) && Enabled(PIPELINE, s, e)
    ensures Reached(events + [e], Apply(PIPELINE, s, e))
  {
    assert (events + [e])[..|events + [e]| - 1] == events;
  }

  /** The document has been uploaded and worker 1 has started. */
  lemma {:induction false} Started() returns (events: seq<Event>)
    ensures Reached(events, Small(0, NewJob(0, 0), map[], map[], map[1 := Idle]))
  {
    events := [];
    assert Reached(events, START);
    Then(events, START, DocumentUploaded(0, 0, 0, [7]));
    events := events + [DocumentUploaded(0, 0, 0, [7])];
    assert Reached(events, Small(0, NewJob(0, 0), map[], map[], map[]));
    Then(events, Small(0, NewJob(0, 0), map[], map[], map[]), WorkerStarts(1));
    events := events + [WorkerStarts(1)];
  }
}
