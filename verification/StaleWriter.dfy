/** A run in which a stale worker empties the index of a document that is about to complete. */
module StaleWriter {
  import opened Identifiers
  import opened Ingestion
  import opened Jobs
  import opened SmallWorld
  import opened VectorStore

  lemma {:induction false} Attempted(events: seq<Event>, now: Time, job: Job, chunks: map<DocumentId, StoredChunks>,
                                     index: Index,
                                     workers: map<WorkerId, Worker>, w: WorkerId, attempt: nat, phase: Phase,
                                     step: Step)
    requires Reached(events, Small(now, job, chunks, index, workers))
    requires w in workers && workers[w] == Running(0, 0, attempt, phase) && Owned(job, w, now)
    requires Allows(PIPELINE, 0, DOCUMENT, phase, step) && !Leaves(true, step)
    ensures Reached(events + [AttemptSteps(w, step)],
                    Small(now, RowAfter(PIPELINE, now, job, true, step),
                          if step.StoreChunks? then
                            chunks[0 := StoredChunks(DurableChunks(PIPELINE, 0, phase.texts), attempt)] else chunks,
                          IndexAfter(PIPELINE, index, 0, DOCUMENT, phase, step),
                          workers[w := Running(0, 0, attempt, PhaseAfter(PIPELINE, 0, DOCUMENT, phase, step))]))
  {
    Then(events, Small(now, job, chunks, index, workers), AttemptSteps(w, step));
  }

  /** An owned attempt, from its claim to the point where its records are ready. */
  lemma {:induction false} Prepared(events: seq<Event>, now: Time, job: Job, chunks: map<DocumentId, StoredChunks>,
                                    index: Index,
                                    workers: map<WorkerId, Worker>, w: WorkerId)
    returns (events': seq<Event>)
    requires Reached(events, Small(now, job, chunks, index, workers))
    requires w in workers && workers[w] == Running(0, 0, job.attemptCount, Reading) && Owned(job, w, now)
    ensures Reached(events',
      Small(now, ChunksReplaced(job, now, 10), chunks[0 := StoredChunks(ROWS, job.attemptCount)], index,
                                   workers[w := Running(0, 0, job.attemptCount, Embedded(RECORDS))]))
  {
    var a := job.attemptCount;
    Attempted(events, now, job, chunks, index, workers, w, a, Reading, ReadSource([7]));
    events' := events + [AttemptSteps(w, ReadSource([7]))];
    var parsed := workers[w := Running(0, 0, a, Parsed([[0x41]]))];
    assert Reached(events', Small(now, job, chunks, index, parsed));
    Attempted(events', now, job, chunks, index, parsed, w, a, Parsed([[0x41]]), StoreChunks);
    events' := events' + [AttemptSteps(w, StoreChunks)];
    var stored := workers[w := Running(0, 0, a, Stored(ROWS))];
    assert parsed[w := Running(0, 0, a, Stored(ROWS))] == stored;
    var replaced := ChunksReplaced(job, now, 10);
    var chunks' := chunks[0 := StoredChunks(ROWS, a)];
    Attempted(events', now, replaced, chunks', index, stored, w, a, Stored(ROWS), EmbedChunks);
    events' := events' + [AttemptSteps(w, EmbedChunks)];
    assert stored[w := Running(0, 0, a, Embedded(RECORDS))] == workers[w := Running(0, 0, a, Embedded(RECORDS))];
  }

  const CLAIMED := ChunksReplaced(Claimed(NewJob(0, 0), 1, 0, 10), 0, 10)
  const REQUEUED := Recovered(CLAIMED, 10, 5)

  const STARTED: map<WorkerId, Worker> := map[1 := Running(0, 0, 1, Reading), 2 := Idle]

  lemma {:induction false} FirstClaim() returns (events: seq<Event>)
    ensures Reached(events, Small(0, Claimed(NewJob(0, 0), 1, 0, 10), map[], map[], STARTED))
  {
    events := Started();
    Then(events, Small(0, NewJob(0, 0), map[], map[], map[1 := Idle]), WorkerStarts(2));
    events := events + [WorkerStarts(2)];
    Then(events, Small(0, NewJob(0, 0), map[], map[], map[1 := Idle, 2 := Idle]), JobClaimed(1, 0));
    events := events + [JobClaimed(1, 0)];
    assert map[1 := Idle, 2 := Idle][1 := Running(0, 0, 1, Reading)] == STARTED;
  }

  /** Worker 1 has its records ready when its lease runs out and the job is recovered. */
  lemma {:induction false} FirstAttempt() returns (events: seq<Event>)
    ensures Reached(events, Small(15, REQUEUED, map[0 := StoredChunks(ROWS, 1)], map[],
                                  map[1 := Running(0, 0, 1, Embedded(RECORDS)), 2 := Idle]))
  {
    events := FirstClaim();
    events := Prepared(events, 0, Claimed(NewJob(0, 0), 1, 0, 10), map[], map[], STARTED, 1);
    var ready := map[1 := Running(0, 0, 1, Embedded(RECORDS)), 2 := Idle];
    assert STARTED[1 := Running(0, 0, 1, Embedded(RECORDS))] == ready;
    var chunks := map[0 := StoredChunks(ROWS, 1)];
    Then(events, Small(0, CLAIMED, chunks, map[], ready), ClockTicks(10));
    events := events + [ClockTicks(10)];
    Then(events, Small(10, CLAIMED, chunks, map[], ready), LeaseRecovered(0));
    events := events + [LeaseRecovered(0)];
    Then(events, Small(10, REQUEUED, chunks, map[], ready), ClockTicks(15));
    events := events + [ClockTicks(15)];
  }

  const RECLAIMED := Claimed(REQUEUED, 2, 15, 10)

  /** Worker 2 deletes and upserts, worker 1's late deletion arrives, worker 2 commits: the job is completed, its
      chunks are those of the completing attempt, and the index holds nothing for the document. */
  lemma {:induction false} StaleDeletionEmptiesTheIndex() returns (events: seq<Event>)
    ensures PIPELINE.Valid() && Legal(PIPELINE, START, events)
    ensures
      var s := After(PIPELINE, START, events);
      && 0 in s.jobs && s.jobs[0].status == Completed && s.jobs[0].document == 0
      && s.chunks == map[0 := StoredChunks(ROWS, 2)] && |ROWS| == 1
      && OfDocument(s.index, 0) == map[]
  {
    events := FirstAttempt();
    var stale := Running(0, 0, 1, Embedded(RECORDS));
    var first := map[0 := StoredChunks(ROWS, 1)];
    Then(events, Small(15, REQUEUED, first, map[], map[1 := stale, 2 := Idle]), JobClaimed(2, 0));
    events := events + [JobClaimed(2, 0)];
    var workers := map[1 := stale, 2 := Running(0, 0, 2, Reading)];
    assert map[1 := stale, 2 := Idle][2 := Running(0, 0, 2, Reading)] == workers;
    events := Prepared(events, 15, RECLAIMED, first, map[], workers, 2);
    var job := ChunksReplaced(RECLAIMED, 15, 10);
    var second := map[0 := StoredChunks(ROWS, 2)];
    assert first[0 := StoredChunks(ROWS, 2)] == second;
    var ready := map[1 := stale, 2 := Running(0, 0, 2, Embedded(RECORDS))];
    assert workers[2 := Running(0, 0, 2, Embedded(RECORDS))] == ready;
    events := UpsertsFirst(events, job, second);
    events := Emptied(events, job, second);
  }

  lemma {:induction false} UpsertsFirst(events: seq<Event>, job: Job,
                                        chunks: map<DocumentId, StoredChunks>) returns (events': seq<Event>)
    requires Reached(events, Small(15, job, chunks, map[], map[1 := Running(0, 0, 1, Embedded(RECORDS)),
                                                               2 := Running(0, 0, 2, Embedded(RECORDS))]))
    requires Owned(job, 2, 15)
    ensures Reached(events', Small(15, job, chunks, AsIndex(RECORDS),
                                   map[1 := Running(0, 0, 1, Embedded(RECORDS)),
                                       2 := Running(0, 0, 2, Upserting(RECORDS, 1))]))
  {
    var stale := Running(0, 0, 1, Embedded(RECORDS));
    Attempted(events, 15, job, chunks, map[], map[1 := stale, 2 := Running(0, 0, 2, Embedded(RECORDS))], 2, 2,
      Embedded(RECORDS), DeleteVectors);
    events' := events + [AttemptSteps(2, DeleteVectors)];
    var deleted := map[1 := stale, 2 := Running(0, 0, 2, Upserting(RECORDS, 0))];
    assert map[1 := stale, 2 := Running(0, 0, 2, Embedded(RECORDS))]
      [2 := Running(0, 0, 2, Upserting(RECORDS, 0))] == deleted;
    Attempted(events', 15, job, chunks, map[], deleted, 2, 2, Upserting(RECORDS, 0), UpsertBatch);
    events' := events' + [AttemptSteps(2, UpsertBatch)];
    assert RECORDS[0..1] == RECORDS;
    assert deleted[2 := Running(0, 0, 2, Upserting(RECORDS, 1))] ==
      map[1 := stale, 2 := Running(0, 0, 2, Upserting(RECORDS, 1))];
  }

  lemma {:induction false} NothingElse()
    ensures WithoutDocument(AsIndex(RECORDS), 0) == map[]
  {
    forall id | id in AsIndex(RECORDS)
      ensures AsIndex(RECORDS)[id].document == 0
    {
      UpsertedSources(map[], RECORDS, id);
    }
  }

  lemma {:induction false} Emptied(events: seq<Event>, job: Job,
                                   chunks: map<DocumentId, StoredChunks>) returns (events': seq<Event>)
    requires Reached(events, Small(15, job, chunks, AsIndex(RECORDS),
                                   map[1 := Running(0, 0, 1, Embedded(RECORDS)),
                                       2 := Running(0, 0, 2, Upserting(RECORDS, 1))]))
    requires Owned(job, 2, 15)
    ensures Reached(events', Small(15, Succeeded(job, 15), chunks, map[],
                                   map[1 := Running(0, 0, 1, Upserting(RECORDS, 0)), 2 := Idle]))
  {
    var written := map[1 := Running(0, 0, 1, Embedded(RECORDS)), 2 := Running(0, 0, 2, Upserting(RECORDS, 1))];
    Then(events, Small(15, job, chunks, AsIndex(RECORDS), written), AttemptSteps(1, DeleteVectors));
    events' := events + [AttemptSteps(1, DeleteVectors)];
    var emptied := map[1 := Running(0, 0, 1, Upserting(RECORDS, 0)), 2 := Running(0, 0, 2, Upserting(RECORDS, 1))];
    assert written[1 := Running(0, 0, 1, Upserting(RECORDS, 0))] == emptied;
    NothingElse();
    Then(events', Small(15, job, chunks, map[], emptied), AttemptSteps(2, CommitSuccess));
    events' := events' + [AttemptSteps(2, CommitSuccess)];
    assert emptied[2 := Idle] == map[1 := Running(0, 0, 1, Upserting(RECORDS, 0)), 2 := Idle];
  }
}
