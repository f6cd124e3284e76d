/** Bounded bypass: how many other jobs can be claimed before a due one. */
module Bypass {
  import opened Ingestion
  import opened Jobs

  /** The eligible jobs that claim order puts before `j`. */
  function Ahead(s: World, j: JobId): set<JobId>
    requires j in s.jobs
  {
    set i | i in s.jobs && i != j && Eligible(s.jobs[i], s.now) && ClaimedBefore(s.jobs[i], i, s.jobs[j], j)
  }

  function Claims(events: seq<Event>): nat {
    if events == [] then 0 else Claims(events[..|events| - 1]) + if events[|events| - 1].JobClaimed? then 1 else 0
  }

  function Retries(events: seq<Event>): nat {
    if events == [] then 0 else Retries(events[..|events| - 1]) + if events[|events| - 1].JobRetried? then 1 else 0
  }

  predicate NeverClaims(events: seq<Event>, j: JobId) {
    forall i :: 0 <= i < |events| && events[i].JobClaimed? ==> events[i].job != j
  }

  /** A claim passes over the due job `j`, whose row is locked, and takes one behind it. */
  predicate PassesOver(s: World, e: Event, j: JobId) {
    e.JobClaimed? && e.job in s.jobs && j in s.jobs && ClaimedBefore(s.jobs[j], j, s.jobs[e.job], e.job)
  }

  function Passes(p: Pipeline, s: World, events: seq<Event>, j: JobId): nat
    requires Legal(p, s, events)
  {
    if events == [] then 0
    else
      var start := events[..|events| - 1];
      Passes(p, s, start, j) + if PassesOver(After(p, s, start), events[|events| - 1], j) then 1 else 0
  }

  /** Every claim of the run takes the first due job. */
  predicate ClaimsInOrder(p: Pipeline, s: World, events: seq<Event>)
    requires Legal(p, s, events)
  {
    events == [] ||
    var start, e := events[..|events| - 1], events[|events| - 1];
    ClaimsInOrder(p, s, start) &&
    (e.JobClaimed? ==> IsNextClaim(After(p, s, start).jobs, After(p, s, start).now, e.job))
  }

  /** Every upload of the run happens strictly after `due`. */
  predicate UploadsAfter(p: Pipeline, s: World, events: seq<Event>, due: Time)
    requires Legal(p, s, events)
  {
    events == [] ||
    var start := events[..|events| - 1];
    UploadsAfter(p, s, start, due) && (events[|events| - 1].DocumentUploaded? ==> due < After(p, s, start).now)
  }

  lemma {:induction false} DueJobIsDue(p: Pipeline, s: World, j: JobId)
    requires Inv(p, s) && j in s.jobs && Eligible(s.jobs[j], s.now)
    ensures DueAt(s.jobs[j]) <= s.now
  {
    assert JobOk(s, j);
  }

  /** Nobody gets ahead of a due job except by a user's retry: what is requeued or uploaded sorts behind it. */
  lemma {:induction false} OnlyRetriesGetAhead(p: Pipeline, s: World, e: Event, j: JobId, i: JobId)
    requires p.Valid() && p.retryDelay > 0 && Inv(p, s) && Enabled(p, s, e)
    requires j in s.jobs && Eligible(s.jobs[j], s.now) && !(e.JobClaimed? && e.job == j)
    requires e.DocumentUploaded? ==> DueAt(s.jobs[j]) < s.now
    requires j in Apply(p, s, e).jobs && Apply(p, s, e).jobs[j] == s.jobs[j]
    requires i in Ahead(Apply(p, s, e), j)
    ensures i in Ahead(s, j) || (e.JobRetried? && e.job == i)
    ensures e.JobClaimed? ==> i != e.job
  {
    DueJobIsDue(p, s, j);
    assert e.AttemptSteps? ==> WorkerOk(p, s, e.worker);
  }

  /** Waiting changes nothing in the job's row. */
  lemma {:induction false} WaitingRowStays(p: Pipeline, s: World, e: Event, j: JobId)
    requires p.Valid() && Inv(p, s) && Enabled(p, s, e)
    requires j in s.jobs && Eligible(s.jobs[j], s.now) && !(e.JobClaimed? && e.job == j)
    ensures j in Apply(p, s, e).jobs && Apply(p, s, e).jobs[j] == s.jobs[j]
    ensures Eligible(s.jobs[j], Apply(p, s, e).now)
  {
    assert e.AttemptSteps? ==> WorkerOk(p, s, e.worker);
  }

  /** One step: a claim of another job takes one from those ahead or passes over the job, a retry adds at most one,
      nothing else adds any. */
  lemma {:induction false} AheadStep(p: Pipeline, s: World, e: Event, j: JobId)
    requires p.Valid() && p.retryDelay > 0 && Inv(p, s) && Enabled(p, s, e)
    requires j in s.jobs && Eligible(s.jobs[j], s.now) && !(e.JobClaimed? && e.job == j)
    requires e.DocumentUploaded? ==> DueAt(s.jobs[j]) < s.now
    ensures j in Apply(p, s, e).jobs
    ensures |Ahead(Apply(p, s, e), j)| + (if e.JobClaimed? then 1 else 0) <=
      |Ahead(s, j)| + (if e.JobRetried? then 1 else 0) + (if PassesOver(s, e, j) then 1 else 0)
  {
    var s' := Apply(p, s, e);
    WaitingRowStays(p, s, e, j);
    forall i | i in Ahead(s', j)
      ensures i in Ahead(s, j) || (e.JobRetried? && e.job == i)
      ensures e.JobClaimed? ==> i != e.job
    {
      OnlyRetriesGetAhead(p, s, e, j, i);
    }
    if e.JobClaimed? && !PassesOver(s, e, j) {
      assert e.job in Ahead(s, j);
      assert Ahead(s', j) <= Ahead(s, j) - {e.job};
      SizeOfSubset(Ahead(s', j), Ahead(s, j) - {e.job});
    } else if e.JobRetried? {
      assert Ahead(s', j) <= Ahead(s, j) + {e.job};
      SizeOfSubset(Ahead(s', j), Ahead(s, j) + {e.job});
    } else {
      SizeOfSubset(Ahead(s', j), Ahead(s, j));
    }
  }

  lemma {:induction false} SizeOfSubset(a: set<JobId>, b: set<JobId>)
    requires a <= b
    ensures |a| <= |b|
  {
    assert b == a + (b - a);
  }

  lemma {:induction false} ClaimsAreBounded(p: Pipeline, s: World, events: seq<Event>, j: JobId)
    requires p.Valid() && p.retryDelay > 0 && Inv(p, s) && Legal(p, s, events)
    requires j in s.jobs && Eligible(s.jobs[j], s.now)
    requires NeverClaims(events, j) && UploadsAfter(p, s, events, DueAt(s.jobs[j]))
    ensures j in After(p, s, events).jobs && After(p, s, events).jobs[j] == s.jobs[j]
    ensures Eligible(s.jobs[j], After(p, s, events).now)
    ensures Claims(events) + |Ahead(After(p, s, events), j)| <=
      |Ahead(s, j)| + Retries(events) + Passes(p, s, events, j)
  {
    if events != [] {
      var start, e := events[..|events| - 1], events[|events| - 1];
      assert forall i :: 0 <= i < |start| ==> start[i] == events[i];
      ClaimsAreBounded(p, s, start, j);
      RunKeepsInv(p, s, start);
      WaitingRowStays(p, After(p, s, start), e, j);
      AheadStep(p, After(p, s, start), e, j);
    }
  }

  /** Once due, a pending job with attempts left is claimed within the number of eligible jobs ahead of it, plus
      the number of users' retries and of claims that pass over it, plus one successful claims. */
  lemma {:induction false} ClaimedWithinTheBound(p: Pipeline, s: World, events: seq<Event>, j: JobId)
    requires p.Valid() && p.retryDelay > 0 && Inv(p, s) && Legal(p, s, events)
    requires j in s.jobs && Eligible(s.jobs[j], s.now) && UploadsAfter(p, s, events, DueAt(s.jobs[j]))
    requires Claims(events) >= |Ahead(s, j)| + Retries(events) + Passes(p, s, events, j) + 1
    ensures exists i :: 0 <= i < |events| && events[i].JobClaimed? && events[i].job == j
  {
    if NeverClaims(events, j) {
      ClaimsAreBounded(p, s, events, j);
      assert false;
    }
  }

  /** Claims that take the first due job do not pass over one that waits. */
  lemma {:induction false} OrderedClaimsDoNotPass(p: Pipeline, s: World, events: seq<Event>, j: JobId)
    requires p.Valid() && Inv(p, s) && Legal(p, s, events) && ClaimsInOrder(p, s, events)
    requires j in s.jobs && Eligible(s.jobs[j], s.now) && NeverClaims(events, j)
    ensures j in After(p, s, events).jobs && After(p, s, events).jobs[j] == s.jobs[j]
    ensures Eligible(s.jobs[j], After(p, s, events).now)
    ensures Passes(p, s, events, j) == 0
  {
    if events != [] {
      var start, e := events[..|events| - 1], events[|events| - 1];
      assert forall i :: 0 <= i < |start| ==> start[i] == events[i];
      OrderedClaimsDoNotPass(p, s, start, j);
      RunKeepsInv(p, s, start);
      WaitingRowStays(p, After(p, s, start), e, j);
    }
  }

  /** With claims in order, a due job is claimed within the jobs ahead of it, plus the retries, plus one claims. */
  lemma {:induction false} ClaimedInOrder(p: Pipeline, s: World, events: seq<Event>, j: JobId)
    requires p.Valid() && p.retryDelay > 0 && Inv(p, s) && Legal(p, s, events) && ClaimsInOrder(p, s, events)
    requires j in s.jobs && Eligible(s.jobs[j], s.now) && UploadsAfter(p, s, events, DueAt(s.jobs[j]))
    requires Claims(events) >= |Ahead(s, j)| + Retries(events) + 1
    ensures exists i :: 0 <= i < |events| && events[i].JobClaimed? && events[i].job == j
  {
    if NeverClaims(events, j) {
      OrderedClaimsDoNotPass(p, s, events, j);
      ClaimedWithinTheBound(p, s, events, j);
    }
  }
}
