/** The durable ingestion job: what each transaction does to the row and its document. */
module Jobs {
  import opened Identifiers
  import opened Options

  type Time = int
  type JobId = nat
  type WorkerId = nat

  datatype Status = Pending | Processing | Completed | Failed

  datatype Failure = Failure(code: string, retryable: bool)

  /** A job row together with the status of its one document. */
  datatype Job = Job(
    document: DocumentId,
    createdAt: Time,
    maxAttempts: nat,
    status: Status,
    documentStatus: Status,
    attemptCount: nat,
    progress: nat,
    claimedBy: Option<WorkerId>,
    claimedAt: Option<Time>,
    leaseExpiresAt: Option<Time>,
    nextRetryAt: Option<Time>,
    errorCode: Option<string>,
    startedAt: Option<Time>,
    finishedAt: Option<Time>)

  const DEFAULT_MAX_ATTEMPTS := 3

  function NewJob(document: DocumentId, createdAt: Time): Job {
    Job(document, createdAt, DEFAULT_MAX_ATTEMPTS, Pending, Pending, 0, 0, None, None, None, None, None, None, None)
  }

  // ---------------------------------------------------------------- guards

  /** `get_owned_processing_internal` finds the row. */
  predicate Owned(job: Job, worker: WorkerId, now: Time) {
    && job.status == Processing && job.claimedBy == Some(worker)
    && job.leaseExpiresAt.Some? && now < job.leaseExpiresAt.value
  }

  /** `lock_expired_leases_internal` selects the row. */
  predicate Expired(job: Job, now: Time) {
    job.status == Processing && job.leaseExpiresAt.Some? && job.leaseExpiresAt.value <= now
  }

  /** `claim_next_internal` may select the row. */
  predicate Eligible(job: Job, now: Time) {
    && job.status == Pending && job.attemptCount < job.maxAttempts
    && (job.nextRetryAt.None? || job.nextRetryAt.value <= now)
  }

  function DueAt(job: Job): Time {
    if job.nextRetryAt.Some? then job.nextRetryAt.value else job.createdAt
  }

  /** The claim order: due time, then creation time, then id. */
  predicate ClaimedBefore(a: Job, i: JobId, b: Job, j: JobId) {
    || DueAt(a) < DueAt(b)
    || (DueAt(a) == DueAt(b) && (a.createdAt < b.createdAt || (a.createdAt == b.createdAt && i < j)))
  }

  /** The row a claim transaction takes: the first eligible one. */
  predicate IsNextClaim(jobs: map<JobId, Job>, now: Time, i: JobId) {
    && i in jobs && Eligible(jobs[i], now)
    && forall j :: j in jobs && j != i && Eligible(jobs[j], now) ==> ClaimedBefore(jobs[i], i, jobs[j], j)
  }

  /** The claim order spelled out: the earlier due time goes first, where a job that was never requeued is due since
      its creation; then the earlier creation; then the smaller id. */
  lemma {:induction false} EarlierDueGoesFirst(jobs: map<JobId, Job>, now: Time, i: JobId, j: JobId)
    requires IsNextClaim(jobs, now, i) && j in jobs && j != i
    requires jobs[j].status == Pending && jobs[j].attemptCount < jobs[j].maxAttempts
    requires jobs[j].nextRetryAt == None || jobs[j].nextRetryAt.value <= now
    ensures
      var due := if jobs[i].nextRetryAt == None then jobs[i].createdAt else jobs[i].nextRetryAt.value;
      var otherDue := if jobs[j].nextRetryAt == None then jobs[j].createdAt else jobs[j].nextRetryAt.value;
      && due <= otherDue
      && (due == otherDue ==> jobs[i].createdAt <= jobs[j].createdAt)
      && (due == otherDue && jobs[i].createdAt == jobs[j].createdAt ==> i < j)
    ensures jobs[i].status == Pending && jobs[i].attemptCount < jobs[i].maxAttempts
    ensures jobs[i].nextRetryAt == None || jobs[i].nextRetryAt.value <= now
  {
    assert Eligible(jobs[j], now);
  }

  lemma {:induction false} FirstOf(jobs: map<JobId, Job>, ids: set<JobId>) returns (first: JobId)
    requires ids != {} && ids <= jobs.Keys
    ensures first in ids && forall j :: j in ids && j != first ==> ClaimedBefore(jobs[first], first, jobs[j], j)
    decreases |ids|
  {
    first :| first in ids;
    var rest := ids - {first};
    if rest != {} {
      var other := FirstOf(jobs, rest);
      if ClaimedBefore(jobs[other], other, jobs[first], first) {
        first := other;
      }
    }
  }

  /** The claim order picks exactly one job whenever one is eligible, and none otherwise. */
  lemma {:induction false} ClaimIsDetermined(jobs: map<JobId, Job>, now: Time, i: JobId, j: JobId)
    ensures IsNextClaim(jobs, now, i) && IsNextClaim(jobs, now, j) ==> i == j
    ensures (exists k :: IsNextClaim(jobs, now, k)) <==> exists k :: k in jobs && Eligible(jobs[k], now)
  {
    var eligible := set k | k in jobs && Eligible(jobs[k], now);
    if eligible != {} {
      var first := FirstOf(jobs, eligible);
      assert IsNextClaim(jobs, now, first);
    } else {
      assert forall k :: k in jobs && Eligible(jobs[k], now) ==> k in eligible;
    }
  }

  // ---------------------------------------------------------------- effects

  function Claimed(job: Job, worker: WorkerId, now: Time, lease: Time): Job {
    job.(status := Processing, documentStatus := Processing, attemptCount := job.attemptCount + 1, progress := 0,
         claimedBy := Some(worker), claimedAt := Some(now), leaseExpiresAt := Some(now + lease),
         nextRetryAt := None, errorCode := None, startedAt := Some(now), finishedAt := None)
  }

  function WithoutLease(job: Job): Job {
    job.(claimedBy := None, claimedAt := None, leaseExpiresAt := None)
  }

  function Requeued(job: Job, now: Time, retryDelay: Time): Job {
    job.(status := Pending, documentStatus := Pending, progress := 0, nextRetryAt := Some(now + retryDelay),
         startedAt := None, finishedAt := None)
  }

  function GivenUp(job: Job, now: Time): Job {
    job.(status := Failed, documentStatus := Failed, nextRetryAt := None, finishedAt := Some(now))
  }

  /** The attempt has ended without success: another one if allowed and left, else failure. */
  function Ended(job: Job, now: Time, retryDelay: Time, failure: Failure): Job {
    var cleared := WithoutLease(job).(errorCode := Some(failure.code));
    if failure.retryable && job.attemptCount < job.maxAttempts then Requeued(cleared, now, retryDelay)
    else GivenUp(cleared, now)
  }

  const LEASE_EXPIRED := Failure("LEASE_EXPIRED", true)

  function Recovered(job: Job, now: Time, retryDelay: Time): Job {
    Ended(job, now, retryDelay, LEASE_EXPIRED)
  }

  function Renewed(job: Job, now: Time, lease: Time): Job {
    job.(leaseExpiresAt := Some(now + lease))
  }

  function ChunksReplaced(job: Job, now: Time, lease: Time): Job {
    Renewed(job, now, lease).(progress := 50)
  }

  function Succeeded(job: Job, now: Time): Job {
    WithoutLease(job).(status := Completed, documentStatus := Completed, progress := 100,
                       nextRetryAt := None, errorCode := None, finishedAt := Some(now))
  }

  /** A user's retry: only a failed job changes, and its attempts are kept. */
  function Retried(job: Job): Job {
    if job.status != Failed then job
    else WithoutLease(job).(status := Pending, documentStatus := Pending, progress := 0, nextRetryAt := None,
                            errorCode := None, startedAt := None, finishedAt := None)
  }

  /** A retry of a failed job makes it claimable exactly when it has attempts left. */
  lemma {:induction false} RetryHelpsIff(job: Job, now: Time)
    requires job.status == Failed
    ensures Eligible(Retried(job), now) <==> job.attemptCount < job.maxAttempts
    ensures Retried(job).status == Pending && Retried(job).attemptCount == job.attemptCount
  {
  }

  // ---------------------------------------------------------------- the rows and their transactions

  class DocumentRow {
    const id: DocumentId
    var status: Status

    constructor (id: DocumentId)
      ensures this.id == id && status == Pending
    {
      this.id := id;
      status := Pending;
    }
  }

  datatype RetryReply = Accepted | Conflict

  class JobRow {
    const document: DocumentRow
    const createdAt: Time
    const maxAttempts: nat
    var status: Status
    var attemptCount: nat
    var progress: nat
    var claimedBy: Option<WorkerId>
    var claimedAt: Option<Time>
    var leaseExpiresAt: Option<Time>
    var nextRetryAt: Option<Time>
    var errorCode: Option<string>
    var startedAt: Option<Time>
    var finishedAt: Option<Time>

    ghost function Value(): Job
      reads this, document
    {
      Job(document.id, createdAt, maxAttempts, status, document.status, attemptCount, progress,
          claimedBy, claimedAt, leaseExpiresAt, nextRetryAt, errorCode, startedAt, finishedAt)
    }

    constructor (document: DocumentRow, createdAt: Time)
      requires document.status == Pending
      ensures Value() == NewJob(document.id, createdAt)
      ensures this.document == document && this.createdAt == createdAt && maxAttempts == 3
      ensures status == Pending && document.status == Pending && attemptCount == 0 && progress == 0
      ensures claimedBy.None? && claimedAt.None? && leaseExpiresAt.None? && nextRetryAt.None?
      ensures errorCode.None? && startedAt.None? && finishedAt.None?
    {
      this.document := document;
      this.createdAt := createdAt;
      maxAttempts := DEFAULT_MAX_ATTEMPTS;
      status, attemptCount, progress := Pending, 0, 0;
      claimedBy, claimedAt, leaseExpiresAt := None, None, None;
      nextRetryAt, errorCode, startedAt, finishedAt := None, None, None, None;
    }

    /** The assignments of `claim_next_internal` to the locked row. */
    method Claim(worker: WorkerId, now: Time, lease: Time)
      modifies this, document
      ensures Value() == Claimed(old(Value()), worker, now, lease)
      ensures status == Processing && document.status == Processing
      ensures attemptCount == old(attemptCount) + 1 && progress == 0
      ensures claimedBy == Some(worker) && claimedAt == Some(now) && leaseExpiresAt == Some(now + lease)
      ensures nextRetryAt.None? && errorCode.None? && startedAt == Some(now) && finishedAt.None?
    {
      status := Processing;
      attemptCount := attemptCount + 1;
      progress := 0;
      claimedBy := Some(worker);
      claimedAt := Some(now);
      leaseExpiresAt := Some(now + lease);
      nextRetryAt := None;
      errorCode := None;
      startedAt := Some(now);
      finishedAt := None;
      document.status := Processing;
    }

    method ClearLease()
      modifies this`claimedBy, this`claimedAt, this`leaseExpiresAt
      ensures Value() == WithoutLease(old(Value()))
      ensures claimedBy.None? && claimedAt.None? && leaseExpiresAt.None?
    {
      claimedBy := None;
      claimedAt := None;
      leaseExpiresAt := None;
    }

    method EndAttempt(now: Time, retryDelay: Time, failure: Failure)
      modifies this, document
      ensures Value() == Ended(old(Value()), now, retryDelay, failure)
      ensures claimedBy.None? && claimedAt.None? && leaseExpiresAt.None? && errorCode == Some(failure.code)
      ensures attemptCount == old(attemptCount) && document.status == status
      ensures
        if failure.retryable && attemptCount < maxAttempts then
          && status == Pending && progress == 0 && nextRetryAt == Some(now + retryDelay)
          && startedAt.None? && finishedAt.None?
        else
          && status == Failed && progress == old(progress) && nextRetryAt.None?
          && startedAt == old(startedAt) && finishedAt == Some(now)
    {
      ClearLease();
      errorCode := Some(failure.code);
      if failure.retryable && attemptCount < maxAttempts {
        status := Pending;
        document.status := Pending;
        progress := 0;
        nextRetryAt := Some(now + retryDelay);
        startedAt := None;
        finishedAt := None;
      } else {
        status := Failed;
        document.status := Failed;
        nextRetryAt := None;
        finishedAt := Some(now);
      }
    }

    method IsOwned(worker: WorkerId, now: Time) returns (owned: bool)
      ensures owned == Owned(Value(), worker, now)
      ensures owned <==>
        status == Processing && claimedBy == Some(worker) && leaseExpiresAt.Some? && now < leaseExpiresAt.value
    {
      owned := status == Processing && claimedBy == Some(worker) && leaseExpiresAt.Some? && now < leaseExpiresAt.value;
    }

    method RenewLease(worker: WorkerId, now: Time, lease: Time) returns (renewed: bool)
      modifies this`leaseExpiresAt
      ensures renewed == Owned(old(Value()), worker, now)
      ensures Value() == if renewed then Renewed(old(Value()), now, lease) else old(Value())
      ensures leaseExpiresAt == if renewed then Some(now + lease) else old(leaseExpiresAt)
    {
      renewed := IsOwned(worker, now);
      if renewed {
        leaseExpiresAt := Some(now + lease);
      }
    }

    /** The job half of `_replace_chunks`; false is the lost lease. */
    method RecordChunks(worker: WorkerId, now: Time, lease: Time) returns (owned: bool)
      modifies this`progress, this`leaseExpiresAt
      ensures owned == Owned(old(Value()), worker, now)
      ensures Value() == if owned then ChunksReplaced(old(Value()), now, lease) else old(Value())
      ensures leaseExpiresAt == if owned then Some(now + lease) else old(leaseExpiresAt)
      ensures progress == if owned then 50 else old(progress)
    {
      owned := IsOwned(worker, now);
      if owned {
        progress := 50;
        leaseExpiresAt := Some(now + lease);
      }
    }

    method CompleteSuccess(worker: WorkerId, now: Time) returns (owned: bool)
      modifies this, document
      ensures owned == Owned(old(Value()), worker, now)
      ensures Value() == if owned then Succeeded(old(Value()), now) else old(Value())
      ensures owned ==>
        && status == Completed && document.status == Completed && progress == 100
        && attemptCount == old(attemptCount) && startedAt == old(startedAt)
        && claimedBy.None? && claimedAt.None? && leaseExpiresAt.None?
        && nextRetryAt.None? && errorCode.None? && finishedAt == Some(now)
    {
      owned := IsOwned(worker, now);
      if owned {
        status := Completed;
        document.status := Completed;
        progress := 100;
        ClearLease();
        nextRetryAt := None;
        errorCode := None;
        finishedAt := Some(now);
      }
    }

    method CompleteFailure(worker: WorkerId, now: Time, retryDelay: Time, failure: Failure)
      modifies this, document
      ensures Value() == if Owned(old(Value()), worker, now) then
        Ended(old(Value()), now, retryDelay, failure) else old(Value())
    {
      var owned := IsOwned(worker, now);
      if !owned {
        return;
      }
      EndAttempt(now, retryDelay, failure);
    }

    method Retry() returns (reply: RetryReply)
      modifies this, document
      ensures Value() == Retried(old(Value()))
      ensures reply == if old(status) == Pending || old(status) == Failed then Accepted else Conflict
      ensures old(status) != Failed ==> Value() == old(Value())
      ensures old(status) == Failed ==>
        && status == Pending && document.status == Pending && progress == 0 && attemptCount == old(attemptCount)
        && claimedBy.None? && claimedAt.None? && leaseExpiresAt.None?
        && nextRetryAt.None? && errorCode.None? && startedAt.None? && finishedAt.None?
    {
      if status == Pending {
        return Accepted;
      }
      if status != Failed {
        return Conflict;
      }
      status := Pending;
      progress := 0;
      ClearLease();
      nextRetryAt := None;
      errorCode := None;
      startedAt := None;
      finishedAt := None;
      document.status := Pending;
      reply := Accepted;
    }
  }

  /** The recovery loop over the locked expired rows. */
  method RecoverExpired(rows: seq<JobRow>, now: Time, retryDelay: Time) returns (count: nat)
    requires forall i, j :: 0 <= i < j < |rows| ==> rows[i] != rows[j] && rows[i].document != rows[j].document
    modifies rows, set i | 0 <= i < |rows| :: rows[i].document
    ensures count == |rows|
    ensures forall i :: 0 <= i < |rows| ==> rows[i].Value() == Recovered(old(rows[i].Value()), now, retryDelay)
  {
    for n := 0 to |rows|
      invariant forall i :: 0 <= i < n ==> rows[i].Value() == Recovered(old(rows[i].Value()), now, retryDelay)
      invariant forall i :: n <= i < |rows| ==> rows[i].Value() == old(rows[i].Value())
    {
      rows[n].EndAttempt(now, retryDelay, LEASE_EXPIRED);
    }
    count := |rows|;
  }
}
