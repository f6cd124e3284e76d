/** How long a claim, a renewal or a chunk transaction keeps the job for its worker, over whole runs. */
module Leases {
  import opened Ingestion
  import opened Jobs
  import opened Options

  /** A step that gives the worker the job until a lease from now: its claim, or an owned renewal or chunk
      transaction. */
  predicate Grants(s: World, e: Event, w: WorkerId, j: JobId) {
    match e
    case JobClaimed(worker, job) => worker == w && job == j
    case AttemptSteps(worker, step) =>
      && worker == w && IsRunning(s, w) && s.workers[w].job == j && HasLease(s, w)
      && (step.RenewLease? || step.StoreChunks?)
    case _ => false
  }

  /** The worker commits an outcome for the job. */
  predicate Commits(s: World, e: Event, w: WorkerId, j: JobId) {
    match e
    case AttemptSteps(worker, step) =>
      worker == w && IsRunning(s, w) && s.workers[w].job == j && (step.CommitSuccess? || step.CommitFailure?)
    case _ => false
  }

  predicate NoCommit(p: Pipeline, s: World, events: seq<Event>, w: WorkerId, j: JobId)
    requires Legal(p, s, events)
  {
    events == [] ||
    var start := events[..|events| - 1];
    NoCommit(p, s, start, w, j) && !Commits(After(p, s, start), events[|events| - 1], w, j)
  }

  predicate NoGrant(p: Pipeline, s: World, events: seq<Event>, w: WorkerId, j: JobId)
    requires Legal(p, s, events)
  {
    events == [] ||
    var start := events[..|events| - 1];
    NoGrant(p, s, start, w, j) && !Grants(After(p, s, start), events[|events| - 1], w, j)
  }

  /** The worker holds the job at least until `until`. */
  predicate HeldUntil(s: World, w: WorkerId, j: JobId, until: Time) {
    && j in s.jobs && s.jobs[j].status == Processing && s.jobs[j].claimedBy == Some(w)
    && s.jobs[j].leaseExpiresAt.Some? && until <= s.jobs[j].leaseExpiresAt.value
  }

  /** If the worker still holds the job, then until `until` and no longer. */
  predicate NotBeyond(s: World, w: WorkerId, j: JobId, until: Time) {
    j in s.jobs && (s.jobs[j].claimedBy == Some(w) ==> s.jobs[j].leaseExpiresAt == Some(until))
  }

  lemma {:induction false} GrantHolds(p: Pipeline, s: World, e: Event, w: WorkerId, j: JobId)
    requires p.Valid() && Inv(p, s) && Enabled(p, s, e) && Grants(s, e, w, j)
    ensures HeldUntil(Apply(p, s, e), w, j, s.now + p.lease) && NotBeyond(Apply(p, s, e), w, j, s.now + p.lease)
    ensures Apply(p, s, e).now == s.now
  {
  }

  /** Nobody takes the job from its worker before the time. */
  lemma {:induction false} StepHolds(p: Pipeline, s: World, e: Event, w: WorkerId, j: JobId, until: Time)
    requires p.Valid() && Inv(p, s) && Enabled(p, s, e) && HeldUntil(s, w, j, until)
    requires !Commits(s, e, w, j) && s.now < until <= s.now + p.lease
    ensures HeldUntil(Apply(p, s, e), w, j, until)
  {
    assert e.AttemptSteps? ==> WorkerOk(p, s, e.worker);
  }

  lemma {:induction false} StepDoesNotExtend(p: Pipeline, s: World, e: Event, w: WorkerId, j: JobId, until: Time)
    requires p.Valid() && Inv(p, s) && Enabled(p, s, e) && NotBeyond(s, w, j, until) && !Grants(s, e, w, j)
    ensures NotBeyond(Apply(p, s, e), w, j, until)
  {
    assert JobOk(s, j);
    assert e.AttemptSteps? ==> WorkerOk(p, s, e.worker);
  }

  lemma {:induction false} RunHolds(p: Pipeline, s: World, events: seq<Event>, w: WorkerId, j: JobId, until: Time)
    requires p.Valid() && Inv(p, s) && Legal(p, s, events) && HeldUntil(s, w, j, until) && until <= s.now + p.lease
    requires NoCommit(p, s, events, w, j) && After(p, s, events).now < until
    ensures HeldUntil(After(p, s, events), w, j, until) && s.now <= After(p, s, events).now
  {
    if events != [] {
      var start, e := events[..|events| - 1], events[|events| - 1];
      RunKeepsInv(p, s, start);
      StepGrows(p, After(p, s, start), e);
      RunHolds(p, s, start, w, j, until);
      StepHolds(p, After(p, s, start), e, w, j, until);
    }
  }

  lemma {:induction false} RunDoesNotExtend(p: Pipeline, s: World, events: seq<Event>, w: WorkerId, j: JobId,
                                            until: Time)
    requires p.Valid() && Inv(p, s) && Legal(p, s, events) && NotBeyond(s, w, j, until)
    requires NoGrant(p, s, events, w, j)
    ensures NotBeyond(After(p, s, events), w, j, until)
  {
    if events != [] {
      var start, e := events[..|events| - 1], events[|events| - 1];
      RunKeepsInv(p, s, start);
      RunDoesNotExtend(p, s, start, w, j, until);
      StepDoesNotExtend(p, After(p, s, start), e, w, j, until);
    }
  }

  /** After a claim, an owned renewal or an owned chunk transaction the worker passes the guard in every continuation
      state less than a lease later in which it has not committed, whatever others do. */
  lemma {:induction false} LeaseLasts(p: Pipeline, s: World, e: Event, events: seq<Event>, w: WorkerId, j: JobId)
    requires p.Valid() && Inv(p, s) && Enabled(p, s, e) && Grants(s, e, w, j) && Legal(p, Apply(p, s, e), events)
    requires NoCommit(p, Apply(p, s, e), events, w, j) && After(p, Apply(p, s, e), events).now < s.now + p.lease
    ensures var s' := After(p, Apply(p, s, e), events); j in s'.jobs && Owned(s'.jobs[j], w, s'.now)
  {
    GrantHolds(p, s, e, w, j);
    StepKeepsInv(p, s, e);
    RunHolds(p, Apply(p, s, e), events, w, j, s.now + p.lease);
  }

  /** Without a further claim, renewal or chunk transaction of its own it no longer passes from a lease later on. */
  lemma {:induction false} LeaseEnds(p: Pipeline, s: World, e: Event, events: seq<Event>, w: WorkerId, j: JobId)
    requires p.Valid() && Inv(p, s) && Enabled(p, s, e) && Grants(s, e, w, j) && Legal(p, Apply(p, s, e), events)
    requires NoGrant(p, Apply(p, s, e), events, w, j) && s.now + p.lease <= After(p, Apply(p, s, e), events).now
    ensures var s' := After(p, Apply(p, s, e), events); j in s'.jobs && !Owned(s'.jobs[j], w, s'.now)
  {
    GrantHolds(p, s, e, w, j);
    StepKeepsInv(p, s, e);
    RunDoesNotExtend(p, Apply(p, s, e), events, w, j, s.now + p.lease);
  }

  /** A processing job can be recovered exactly when its claimant no longer passes the guard. */
  lemma {:induction false} RecoverableIff(p: Pipeline, s: World, j: JobId, w: WorkerId)
    requires Inv(p, s) && j in s.jobs && s.jobs[j].claimedBy == Some(w)
    ensures Enabled(p, s, LeaseRecovered(j)) <==> !Owned(s.jobs[j], w, s.now)
  {
    assert JobOk(s, j);
  }

  /** The failure with which the step ends the attempt at the job, if it does. */
  function FailureOf(s: World, e: Event, j: JobId): Option<Failure> {
    match e
    case LeaseRecovered(job) => if job == j then Some(Failure("LEASE_EXPIRED", true)) else None
    case AttemptSteps(w, CommitFailure(failure)) =>
      if IsRunning(s, w) && s.workers[w].job == j && HasLease(s, w) then Some(failure) else None
    case _ => None
  }

  /** A failed or recovered attempt leaves the job failed for good, or, when it may be retried and attempts are left,
      claimable from the retry delay on and not before. */
  lemma {:induction false} WhenClaimableAgain(p: Pipeline, s: World, e: Event, j: JobId, later: Time)
    requires p.Valid() && Inv(p, s) && Enabled(p, s, e) && FailureOf(s, e, j).Some?
    ensures j in s.jobs && j in Apply(p, s, e).jobs
    ensures
      var failure, before, after := FailureOf(s, e, j).value, s.jobs[j], Apply(p, s, e).jobs[j];
      && after.errorCode == Some(failure.code) && after.attemptCount == before.attemptCount
      && after.document == before.document && after.documentStatus == after.status
      && (if failure.retryable && before.attemptCount < before.maxAttempts then
            after.status == Pending && (Eligible(after, later) <==> s.now + p.retryDelay <= later)
          else after.status == Failed && !Eligible(after, later))
  {
    assert JobOk(s, j);
  }
}
