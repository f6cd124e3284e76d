/** How often a job can be claimed, over whole runs. */
module Attempts {
  import opened Ingestion
  import opened Jobs

  predicate Claims(e: Event, j: JobId) {
    e.JobClaimed? && e.job == j
  }

  /** The step ends an attempt of the job: it succeeds, fails under its lease, or is recovered. */
  predicate Ends(p: Pipeline, s: World, e: Event, j: JobId)
    requires Enabled(p, s, e)
  {
    match e
    case AttemptSteps(w, step) => (step.CommitSuccess? || step.CommitFailure?) && s.workers[w].job == j
      && HasLease(s, w)
    case LeaseRecovered(job) => job == j
    case _ => false
  }

  /** Twice the attempts left, and one more while an attempt is running. */
  function Measure(job: Job): int {
    2 * (job.maxAttempts - job.attemptCount) + if job.status == Processing then 1 else 0
  }

  /** Every claim and every ending lowers the measure by one; nothing else moves it, a user's retry included. */
  lemma {:induction false} MeasureStep(p: Pipeline, s: World, e: Event, j: JobId)
    requires p.Valid() && Inv(p, s) && Enabled(p, s, e) && j in s.jobs
    ensures j in Apply(p, s, e).jobs && Measure(s.jobs[j]) >= 0
    ensures Measure(Apply(p, s, e).jobs[j]) == Measure(s.jobs[j]) - if Claims(e, j) || Ends(p, s, e, j) then 1 else 0
    ensures Apply(p, s, e).jobs[j].attemptCount == s.jobs[j].attemptCount + if Claims(e, j) then 1 else 0
  {
    assert JobOk(s, j);
    StepGrows(p, s, e);
    assert JobGrows(s, Apply(p, s, e), j);
  }

  function ClaimsOf(events: seq<Event>, j: JobId): nat {
    if events == [] then 0
    else ClaimsOf(events[..|events| - 1], j) + if Claims(events[|events| - 1], j) then 1 else 0
  }

  function EndingsOf(p: Pipeline, s: World, events: seq<Event>, j: JobId): nat
    requires Legal(p, s, events)
  {
    if events == [] then 0
    else
      var start := events[..|events| - 1];
      EndingsOf(p, s, start, j) + if Ends(p, After(p, s, start), events[|events| - 1], j) then 1 else 0
  }

  lemma {:induction false} MeasureRun(p: Pipeline, s: World, events: seq<Event>, j: JobId)
    requires p.Valid() && Inv(p, s) && Legal(p, s, events) && j in s.jobs
    ensures j in After(p, s, events).jobs && Inv(p, After(p, s, events))
    ensures Measure(After(p, s, events).jobs[j]) ==
      Measure(s.jobs[j]) - ClaimsOf(events, j) - EndingsOf(p, s, events, j)
    ensures After(p, s, events).jobs[j].attemptCount == s.jobs[j].attemptCount + ClaimsOf(events, j)
    ensures After(p, s, events).jobs[j].maxAttempts == s.jobs[j].maxAttempts
  {
    if events != [] {
      var start := events[..|events| - 1];
      MeasureRun(p, s, start, j);
      var before := After(p, s, start);
      MeasureStep(p, before, events[|events| - 1], j);
      StepGrows(p, before, events[|events| - 1]);
      assert JobGrows(before, After(p, s, events), j);
      StepKeepsInv(p, before, events[|events| - 1]);
    }
  }

  lemma {:induction false} NothingBeforeUpload(p: Pipeline, events: seq<Event>, j: JobId)
    requires p.Valid() && Legal(p, START, events)
    ensures j !in After(p, START, events).jobs ==> ClaimsOf(events, j) == 0 && EndingsOf(p, START, events, j) == 0
    ensures j in After(p, START, events).jobs ==>
      var job := After(p, START, events).jobs[j];
      && job.attemptCount == ClaimsOf(events, j)
      && job.attemptCount == EndingsOf(p, START, events, j) + (if job.status == Processing then 1 else 0)
  {
    if events != [] {
      var start := events[..|events| - 1];
      NothingBeforeUpload(p, start, j);
      StartIsOk(p);
      RunKeepsInv(p, START, start);
      var before := After(p, START, start);
      var e := events[|events| - 1];
      if j in before.jobs {
        MeasureStep(p, before, e, j);
        StepGrows(p, before, e);
        assert JobGrows(before, After(p, START, events), j);
      } else {
        assert e.AttemptSteps? ==> WorkerOk(p, before, e.worker);
      }
    }
  }

  /** The row's attempt count is its number of claims, and that is its number of ended attempts plus the
      running one; no run claims a job more often than its limit. */
  lemma {:induction false} AttemptsAreCounted(p: Pipeline, events: seq<Event>, j: JobId)
    requires p.Valid() && Legal(p, START, events) && j in After(p, START, events).jobs
    ensures
      var job := After(p, START, events).jobs[j];
      && job.attemptCount == ClaimsOf(events, j) <= job.maxAttempts
      && job.attemptCount == EndingsOf(p, START, events, j) + (if job.status == Processing then 1 else 0)
      && job.documentStatus == job.status
      && (job.status == Processing <==> job.claimedBy.Some?) && (job.claimedBy.Some? <==> job.leaseExpiresAt.Some?)
  {
    NothingBeforeUpload(p, events, j);
    StartIsOk(p);
    RunKeepsInv(p, START, events);
    assert JobOk(After(p, START, events), j);
  }

  /** A job whose attempts are used up is never claimed again, however often a user retries it: it does not
      run, and it does not complete unless it already had. */
  lemma {:induction false} ExhaustedIsNeverClaimed(p: Pipeline, s: World, events: seq<Event>, j: JobId)
    requires p.Valid() && Inv(p, s) && Legal(p, s, events) && j in s.jobs
    requires s.jobs[j].attemptCount == s.jobs[j].maxAttempts && s.jobs[j].status != Processing
    ensures ClaimsOf(events, j) == 0
    ensures j in After(p, s, events).jobs
    ensures
      var before, after := s.jobs[j].status, After(p, s, events).jobs[j].status;
      after == before || (before == Failed && after == Pending)
  {
    MeasureRun(p, s, events, j);
    assert JobOk(After(p, s, events), j);
    if events != [] {
      var start := events[..|events| - 1];
      MeasureRun(p, s, start, j);
      ExhaustedIsNeverClaimed(p, s, start, j);
      var before := After(p, s, start);
      assert JobOk(before, j);
      StepGrows(p, before, events[|events| - 1]);
      assert JobGrows(before, After(p, s, events), j);
    }
  }
}
