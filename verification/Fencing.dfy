/** What the lease protects, over whole runs: the owner's name and the lease time suffice, although no attempt
    number is checked. */
module Fencing {
  import opened Ingestion
  import opened Jobs

  /** Whenever a worker passes the ownership guard, the job's attempt is the one that worker runs,
      and no other worker passes it for the job. */
  lemma {:induction false} OwnerRunsTheCurrentAttempt(p: Pipeline, events: seq<Event>, w: WorkerId, other: WorkerId)
    requires p.Valid() && Legal(p, START, events)
    requires var s := After(p, START, events); IsRunning(s, w) && HasLease(s, w)
    ensures var s := After(p, START, events); s.workers[w].attempt == s.jobs[s.workers[w].job].attemptCount
    ensures var s := After(p, START, events);
      IsRunning(s, other) && s.workers[other].job == s.workers[w].job && HasLease(s, other) ==> other == w
  {
    StartIsOk(p);
    RunKeepsInv(p, START, events);
    assert WorkerOk(p, After(p, START, events), w);
  }

  /** The attempt is over, or its lease has run out. */
  predicate Lapsed(s: World, j: JobId, attempt: nat) {
    j in s.jobs && attempt <= s.jobs[j].attemptCount &&
    (s.jobs[j].attemptCount == attempt ==> s.jobs[j].status != Processing || Expired(s.jobs[j], s.now))
  }

  lemma {:induction false} LapsedStaysLapsed(p: Pipeline, s: World, e: Event, j: JobId, attempt: nat)
    requires p.Valid() && Inv(p, s) && Enabled(p, s, e) && Lapsed(s, j, attempt)
    ensures Lapsed(Apply(p, s, e), j, attempt)
  {
    StepGrows(p, s, e);
    assert JobGrows(s, Apply(p, s, e), j);
    assert JobOk(s, j);
  }

  /** A lapsed lease is never revived: no worker of that attempt, or of an earlier one, passes the guard again,
      although renewals keep arriving and the same worker may claim the job again. */
  lemma {:induction false} LapsedLeaseIsNeverRevived(p: Pipeline, s: World, events: seq<Event>, j: JobId,
                                                     attempt: nat, w: WorkerId)
    requires p.Valid() && Inv(p, s) && Legal(p, s, events) && Lapsed(s, j, attempt)
    ensures var s' := After(p, s, events);
      && Lapsed(s', j, attempt)
      && (IsRunning(s', w) && s'.workers[w].job == j && s'.workers[w].attempt <= attempt ==> !HasLease(s', w))
  {
    RunKeepsInv(p, s, events);
    if events != [] {
      var start := events[..|events| - 1];
      LapsedLeaseIsNeverRevived(p, s, start, j, attempt, w);
      RunKeepsInv(p, s, start);
      LapsedStaysLapsed(p, After(p, s, start), events[|events| - 1], j, attempt);
    }
    var s' := After(p, s, events);
    if IsRunning(s', w) {
      assert WorkerOk(p, s', w);
    }
  }

  /** A success commits only over chunks its own attempt wrote. */
  lemma {:induction false} SuccessCommitsItsOwnChunks(p: Pipeline, events: seq<Event>, w: WorkerId)
    requires p.Valid() && Legal(p, START, events) && Enabled(p, After(p, START, events), AttemptSteps(w, CommitSuccess))
    requires HasLease(After(p, START, events), w)
    ensures
      var s := After(p, START, events);
      var Running(j, d, attempt, phase) := s.workers[w];
      var s' := Apply(p, s, AttemptSteps(w, CommitSuccess));
      && d in s'.chunks && s'.chunks[d] == StoredChunks(ChunksOf(p, d, s.documents[d]), attempt)
      && s'.jobs[j].status == Completed && s'.jobs[j].documentStatus == Completed && s'.jobs[j].attemptCount == attempt
  {
    StartIsOk(p);
    RunKeepsInv(p, START, events);
    var s := After(p, START, events);
    assert WorkerOk(p, s, w);
    var d := s.workers[w].document;
    assert ChunksOk(p, s, d) && WriterOk(s, d, s.workers[w].job);
  }

  /** A completed job never changes again, and the chunks stay those of its completing attempt. */
  lemma {:induction false} CompletedIsFinal(p: Pipeline, start: seq<Event>, more: seq<Event>, j: JobId)
    requires p.Valid() && Legal(p, START, start) && Legal(p, After(p, START, start), more)
    requires var s := After(p, START, start); j in s.jobs && s.jobs[j].status == Completed
    ensures
      var s := After(p, START, start);
      var s' := After(p, s, more);
      var d := s.jobs[j].document;
      && j in s'.jobs && s'.jobs[j] == s.jobs[j]
      && d in s'.documents && d in s'.chunks
      && s'.chunks[d] == StoredChunks(ChunksOf(p, d, s'.documents[d]), s.jobs[j].attemptCount)
  {
    StartIsOk(p);
    RunKeepsInv(p, START, start);
    var s := After(p, START, start);
    RunKeepsInv(p, s, more);
    var s' := After(p, s, more);
    assert JobGrows(s, s', j);
    assert JobOk(s', j);
    assert ChunksOk(p, s', s.jobs[j].document);
  }
}
