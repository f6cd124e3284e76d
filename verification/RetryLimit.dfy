/** When a user's retry of a failed job can lead to another attempt. */
module RetryLimit {
  import opened Attempts
  import opened Bypass
  import opened Ingestion
  import opened Jobs
  import opened SmallWorld

  lemma {:induction false} SomeClaim(events: seq<Event>, j: JobId, i: nat)
    requires i < |events| && events[i].JobClaimed? && events[i].job == j
    ensures ClaimsOf(events, j) > 0
  {
    var start := events[..|events| - 1];
    if i < |start| {
      assert start[i] == events[i];
      SomeClaim(start, j, i);
    }
  }

  /** After a user's retry of a failed job, in any continuation with enough claims and later uploads: the job is
      claimed exactly when it had attempts left. */
  lemma {:induction false} RetryLeadsToAnAttemptIff(p: Pipeline, s: World, j: JobId, events: seq<Event>)
    requires p.Valid() && p.retryDelay > 0 && Inv(p, s) && j in s.jobs && s.jobs[j].status == Failed
    requires Legal(p, Apply(p, s, JobRetried(j)), events)
    requires UploadsAfter(p, Apply(p, s, JobRetried(j)), events, s.jobs[j].createdAt)
    requires
      var retried := Apply(p, s, JobRetried(j));
      Bypass.Claims(events) >= |Ahead(retried, j)| + Retries(events) + Passes(p, retried, events, j) + 1
    ensures ClaimsOf(events, j) > 0 <==> s.jobs[j].attemptCount < s.jobs[j].maxAttempts
  {
    var retried := Apply(p, s, JobRetried(j));
    StepKeepsInv(p, s, JobRetried(j));
    RetryHelpsIff(s.jobs[j], retried.now);
    assert JobOk(s, j);
    if s.jobs[j].attemptCount < s.jobs[j].maxAttempts {
      ClaimedWithinTheBound(p, retried, events, j);
      var i :| 0 <= i < |events| && events[i].JobClaimed? && events[i].job == j;
      SomeClaim(events, j, i);
    } else {
      ExhaustedIsNeverClaimed(p, retried, events, j);
    }
  }

  /** Without attempts left the retried job waits for ever: no continuation claims it or changes its status. */
  lemma {:induction false} ExhaustedRetryWaitsForEver(p: Pipeline, s: World, j: JobId, events: seq<Event>)
    requires p.Valid() && Inv(p, s) && j in s.jobs && s.jobs[j].status == Failed
    requires s.jobs[j].attemptCount == s.jobs[j].maxAttempts && Legal(p, Apply(p, s, JobRetried(j)), events)
    ensures ClaimsOf(events, j) == 0
    ensures
      var after := After(p, Apply(p, s, JobRetried(j)), events);
      j in after.jobs && after.jobs[j].status == Pending && after.jobs[j].documentStatus == Pending
  {
    StepKeepsInv(p, s, JobRetried(j));
    ExhaustedIsNeverClaimed(p, Apply(p, s, JobRetried(j)), events, j);
    RunKeepsInv(p, Apply(p, s, JobRetried(j)), events);
    assert JobOk(After(p, Apply(p, s, JobRetried(j)), events), j);
  }

  // ---------------------------------------------------------------- such a job is reached

  const NOT_RETRYABLE := Failure("DOCUMENT_PROCESSING_FAILED", false)

  function FailedOnce(job: Job): Job {
    Ended(Claimed(job, 1, 0, 10), 0, 5, NOT_RETRYABLE)
  }

  /** One attempt fails for good. */
  lemma {:induction false} AttemptFails(events: seq<Event>, job: Job) returns (events': seq<Event>)
    requires Reached(events, Small(0, job, map[], map[], map[1 := Idle])) && Eligible(job, 0) && job.document == 0
    ensures Reached(events', Small(0, FailedOnce(job), map[], map[], map[1 := Idle]))
  {
    Then(events, Small(0, job, map[], map[], map[1 := Idle]), JobClaimed(1, 0));
    events' := events + [JobClaimed(1, 0)];
    var running := map[1 := Running(0, 0, job.attemptCount + 1, Reading)];
    assert map[1 := Idle][1 := Running(0, 0, job.attemptCount + 1, Reading)] == running;
    Then(events', Small(0, Claimed(job, 1, 0, 10), map[], map[], running),
      AttemptSteps(1, CommitFailure(NOT_RETRYABLE)));
    events' := events' + [AttemptSteps(1, CommitFailure(NOT_RETRYABLE))];
    assert running[1 := Idle] == map[1 := Idle];
  }

  lemma {:induction false} UserRetries(events: seq<Event>, job: Job) returns (events': seq<Event>)
    requires Reached(events, Small(0, job, map[], map[], map[1 := Idle]))
    ensures events' == events + [JobRetried(0)]
      && Reached(events', Small(0, Retried(job), map[], map[], map[1 := Idle]))
  {
    Then(events, Small(0, job, map[], map[], map[1 := Idle]), JobRetried(0));
    events' := events + [JobRetried(0)];
  }

  const ONCE := FailedOnce(NewJob(0, 0))
  const TWICE := FailedOnce(Retried(ONCE))
  const THRICE := FailedOnce(Retried(TWICE))

  /** A run in which every attempt fails for good and the user retries each time: the last retry is accepted
      although no attempt is left. */
  lemma {:induction false} ExhaustedRetryIsReached() returns (events: seq<Event>)
    ensures Legal(PIPELINE, START, events) && PIPELINE.Valid()
    ensures
      var s := After(PIPELINE, START, events);
      && 0 in s.jobs && s.jobs[0].status == Failed && s.jobs[0].attemptCount == s.jobs[0].maxAttempts
      && Enabled(PIPELINE, s, JobRetried(0)) && Apply(PIPELINE, s, JobRetried(0)).jobs[0].status == Pending
  {
    events := Started();
    events := AttemptFails(events, NewJob(0, 0));
    events := UserRetries(events, ONCE);
    events := AttemptFails(events, Retried(ONCE));
    events := UserRetries(events, TWICE);
    events := AttemptFails(events, Retried(TWICE));
    assert Reached(events, Small(0, THRICE, map[], map[], map[1 := Idle]));
  }
}
