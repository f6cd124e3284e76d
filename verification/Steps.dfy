/** What each step of the ingestion protocol needs and does, spelled out, and an attempt that nobody disturbs. */
module Steps {
  import opened CodePoints
  import opened Identifiers
  import opened Ingestion
  import opened Jobs
  import opened Options
  import opened Records
  import opened VectorStore

  // ---------------------------------------------------------------- what a step needs

  /** The order of an attempt: read the source, store its chunks, embed them, delete the old vectors, upsert the
      batches, and commit when the last one is in. A renewal, a failure and giving up are possible at any time, and an
      upsert may fail with any part of its batch written. */
  lemma {:induction false} WhatAStepNeeds(p: Pipeline, s: World, w: WorkerId, step: Step)
    ensures Enabled(p, s, AttemptSteps(w, step)) <==>
      && w in s.workers && s.workers[w].Running?
      && var Running(j, d, attempt, phase) := s.workers[w];
         && j in s.jobs && d in s.documents
         && match step
            case ReadSource(bytes) =>
              phase == Reading && p.sha256(bytes) == p.sha256(s.documents[d].uploaded) && p.texts(d, bytes) != []
            case StoreChunks => phase.Parsed?
            case EmbedChunks => phase.Stored?
            case DeleteVectors => phase.Embedded?
            case UpsertBatch => phase.Upserting? && phase.done < |phase.records|
            case TearBatch(written) =>
              phase.Upserting? && written <= p.batchSize && phase.done + written <= |phase.records|
            case CommitSuccess => phase.Upserting? && phase.done == |phase.records|
            case RenewLease => true
            case CommitFailure(failure) => true
            case Abandon => true
  {
  }

  /** A rebuild takes the same steps from the stored chunks on, without the job. */
  lemma {:induction false} WhatARebuildNeeds(p: Pipeline, s: World, r: RebuildId, step: Step)
    ensures Enabled(p, s, RebuildSteps(r, step)) <==>
      && r in s.rebuilds && s.rebuilds[r].document in s.documents
      && var phase := s.rebuilds[r].phase;
         match step
         case EmbedChunks => phase.Stored?
         case DeleteVectors => phase.Embedded?
         case UpsertBatch => phase.Upserting? && phase.done < |phase.records|
         case TearBatch(written) =>
           phase.Upserting? && written <= p.batchSize && phase.done + written <= |phase.records|
         case _ => false
  {
  }

  /** A rebuild starts with a completed document that has chunks, and reads those. */
  lemma {:induction false} HowARebuildStarts(p: Pipeline, s: World, r: RebuildId, j: JobId)
    ensures Enabled(p, s, RebuildStarts(r, j)) <==>
      && r !in s.rebuilds && j in s.jobs && s.jobs[j].documentStatus == Completed
      && s.jobs[j].document in s.chunks && s.chunks[s.jobs[j].document].rows != []
    ensures Enabled(p, s, RebuildStarts(r, j)) ==>
      var d := s.jobs[j].document;
      Apply(p, s, RebuildStarts(r, j)) == s.(rebuilds := s.rebuilds[r := Rebuild(d, Stored(s.chunks[d].rows))])
  {
  }

  /** A claim needs an idle worker and a pending job with attempts left whose retry time has come; a recovery a
      processing job whose lease has run out; a retry and an upload only that the job is there, or is not. */
  lemma {:induction false} WhatOthersNeed(p: Pipeline, s: World, e: Event)
    requires !e.AttemptSteps? && !e.RebuildSteps? && !e.RebuildStarts?
    ensures Enabled(p, s, e) <==>
      match e
      case ClockTicks(to) => s.now <= to
      case DocumentUploaded(j, d, knowledgeBase, bytes) => j !in s.jobs && d !in s.documents
      case WorkerStarts(w) => w !in s.workers
      case JobClaimed(w, j) =>
        && w in s.workers && s.workers[w] == Idle
        && j in s.jobs && s.jobs[j].status == Pending && s.jobs[j].attemptCount < s.jobs[j].maxAttempts
        && (s.jobs[j].nextRetryAt.Some? ==> s.jobs[j].nextRetryAt.value <= s.now)
      case LeaseRecovered(j) =>
        && j in s.jobs && s.jobs[j].status == Processing
        && s.jobs[j].leaseExpiresAt.Some? && s.jobs[j].leaseExpiresAt.value <= s.now
      case JobRetried(j) => j in s.jobs
  {
  }

  // ---------------------------------------------------------------- what a step does

  lemma {:induction false} WhatAClaimDoes(p: Pipeline, s: World, w: WorkerId, j: JobId)
    requires Enabled(p, s, JobClaimed(w, j))
    ensures w in s.workers && j in s.jobs
    ensures
      var job := s.jobs[j];
      Apply(p, s, JobClaimed(w, j)) == s.(
        jobs := s.jobs[j := job.(
          status := Processing, documentStatus := Processing, attemptCount := job.attemptCount + 1, progress := 0,
          claimedBy := Some(w), claimedAt := Some(s.now), leaseExpiresAt := Some(s.now + p.lease),
          nextRetryAt := None, errorCode := None, startedAt := Some(s.now), finishedAt := None)],
        workers := s.workers[w := Running(j, job.document, job.attemptCount + 1, Reading)])
  {
  }

  function EndOfBatch(done: nat, size: nat, total: nat): nat {
    if done + size < total then done + size else total
  }

  predicate PassesTheGuard(s: World, w: WorkerId, j: JobId) {
    && j in s.jobs && s.jobs[j].status == Processing && s.jobs[j].claimedBy == Some(w)
    && s.jobs[j].leaseExpiresAt.Some? && s.now < s.jobs[j].leaseExpiresAt.value
  }

  /** Reading, embedding and the index requests: the lease plays no part in them. */
  lemma {:induction false} WhatAnUnguardedStepDoes(p: Pipeline, s: World, w: WorkerId, step: Step)
    requires Enabled(p, s, AttemptSteps(w, step)) && p.batchSize >= 1
    ensures w in s.workers && s.workers[w].Running?
    ensures
      var Running(j, d, attempt, phase) := s.workers[w];
      var s' := Apply(p, s, AttemptSteps(w, step));
      match step
      case ReadSource(bytes) => s' == s.(workers := s.workers[w := Running(j, d, attempt, Parsed(p.texts(d, bytes)))])
      case EmbedChunks =>
        var records := RecordsFor(p.embed, s.documents[d].knowledgeBase, phase.rows);
        s' == s.(workers := s.workers[w := Running(j, d, attempt, Embedded(records))])
      case DeleteVectors =>
        s' == s.(index := map id | id in s.index && s.index[id].document != d :: s.index[id],
                 workers := s.workers[w := Running(j, d, attempt, Upserting(phase.records, 0))])
      case UpsertBatch =>
        var end := EndOfBatch(phase.done, p.batchSize, |phase.records|);
        && phase.done < end
        && s' == s.(index := Upserted(s.index, phase.records[phase.done..end]),
                    workers := s.workers[w := Running(j, d, attempt, Upserting(phase.records, end))])
      case TearBatch(written) =>
        s' == s.(index := Upserted(s.index, phase.records[phase.done..phase.done + written]),
                 workers := s.workers[w := Running(j, d, attempt, Raising)])
      case Abandon => s' == s.(workers := s.workers[w := Idle])
      case _ => true
  {
    var Running(j, d, attempt, phase) := s.workers[w];
    assert s.jobs[j := s.jobs[j]] == s.jobs;
  }

  /** The transactions: each does nothing to the job without the lease. */
  lemma {:induction false} WhatAGuardedStepDoes(p: Pipeline, s: World, w: WorkerId, step: Step)
    requires Enabled(p, s, AttemptSteps(w, step))
    ensures w in s.workers && s.workers[w].Running? && s.workers[w].job in s.jobs
    ensures
      var Running(j, d, attempt, phase) := s.workers[w];
      var s', job := Apply(p, s, AttemptSteps(w, step)), s.jobs[j];
      var owned := PassesTheGuard(s, w, j);
      match step
      case RenewLease =>
        s' == if owned then s.(jobs := s.jobs[j := job.(leaseExpiresAt := Some(s.now + p.lease))]) else s
      case StoreChunks =>
        if !owned then s' == s.(workers := s.workers[w := Idle])
        else
          && d in s'.chunks && s'.workers[w] == Running(j, d, attempt, Stored(s'.chunks[d].rows))
          && s' == s.(jobs := s.jobs[j := job.(progress := 50, leaseExpiresAt := Some(s.now + p.lease))],
                      chunks := s.chunks[d := s'.chunks[d]], workers := s.workers[w := s'.workers[w]])
          && s'.chunks[d].writer == attempt && |s'.chunks[d].rows| == |phase.texts|
          && forall i :: 0 <= i < |phase.texts| ==>
               s'.chunks[d].rows[i] == DurableChunk(ChunkId(d, i, p.textSha256(phase.texts[i])), phase.texts[i])
      case CommitSuccess =>
        s' == s.(workers := s.workers[w := Idle],
                 jobs := if !owned then s.jobs else s.jobs[j := job.(
                   status := Completed, documentStatus := Completed, progress := 100,
                   claimedBy := None, claimedAt := None, leaseExpiresAt := None,
                   nextRetryAt := None, errorCode := None, finishedAt := Some(s.now))])
      case CommitFailure(failure) =>
        s' == s.(workers := s.workers[w := Idle],
                 jobs := if !owned then s.jobs
                         else if failure.retryable && job.attemptCount < job.maxAttempts then s.jobs[j := job.(
                           status := Pending, documentStatus := Pending, progress := 0,
                           claimedBy := None, claimedAt := None, leaseExpiresAt := None,
                           nextRetryAt := Some(s.now + p.retryDelay), errorCode := Some(failure.code),
                           startedAt := None, finishedAt := None)]
                         else s.jobs[j := job.(
                           status := Failed, documentStatus := Failed,
                           claimedBy := None, claimedAt := None, leaseExpiresAt := None,
                           nextRetryAt := None, errorCode := Some(failure.code), finishedAt := Some(s.now))])
      case _ => true
  {
    var Running(j, d, attempt, phase) := s.workers[w];
    assert s.jobs[j := s.jobs[j]] == s.jobs && s.workers[w := s.workers[w]] == s.workers;
    assert step.StoreChunks? && PassesTheGuard(s, w, j) ==>
      Apply(p, s, AttemptSteps(w, step)).chunks ==
        s.chunks[d := StoredChunks(DurableChunks(p, d, phase.texts), attempt)];
  }

  /** A rebuild's requests do to the index what an attempt's do. */
  lemma {:induction false} WhatARebuildStepDoes(p: Pipeline, s: World, r: RebuildId, step: Step)
    requires Enabled(p, s, RebuildSteps(r, step)) && p.batchSize >= 1
    ensures
      var Rebuild(d, phase) := s.rebuilds[r];
      var s' := Apply(p, s, RebuildSteps(r, step));
      match step
      case EmbedChunks =>
        var records := RecordsFor(p.embed, s.documents[d].knowledgeBase, phase.rows);
        s' == s.(rebuilds := s.rebuilds[r := Rebuild(d, Embedded(records))])
      case DeleteVectors =>
        s' == s.(index := map id | id in s.index && s.index[id].document != d :: s.index[id],
                 rebuilds := s.rebuilds[r := Rebuild(d, Upserting(phase.records, 0))])
      case UpsertBatch =>
        var end := EndOfBatch(phase.done, p.batchSize, |phase.records|);
        s' == s.(index := Upserted(s.index, phase.records[phase.done..end]),
                 rebuilds := s.rebuilds[r := Rebuild(d, Upserting(phase.records, end))])
      case TearBatch(written) =>
        s' == s.(index := Upserted(s.index, phase.records[phase.done..phase.done + written]),
                 rebuilds := s.rebuilds[r := Rebuild(d, Raising)])
      case _ => false
  {
  }

  /** Uploads, recoveries and retries change one job. */
  lemma {:induction false} WhatOthersDo(p: Pipeline, s: World, e: Event)
    requires Enabled(p, s, e)
    ensures
      var s' := Apply(p, s, e);
      match e
      case ClockTicks(to) => s' == s.(now := to)
      case WorkerStarts(w) => s' == s.(workers := s.workers[w := Idle])
      case DocumentUploaded(j, d, knowledgeBase, bytes) =>
        s' == s.(documents := s.documents[d := Document(knowledgeBase, bytes)], jobs := s.jobs[j := Job(
                      d, s.now, 3, Pending, Pending, 0, 0, None, None, None, None, None, None, None)])
      case LeaseRecovered(j) =>
        && j in s.jobs
        && var job := s.jobs[j];
           s' == s.(jobs := s.jobs[j :=
             if job.attemptCount < job.maxAttempts then job.(
               status := Pending, documentStatus := Pending, progress := 0,
               claimedBy := None, claimedAt := None, leaseExpiresAt := None,
               nextRetryAt := Some(s.now + p.retryDelay), errorCode := Some("LEASE_EXPIRED"),
               startedAt := None, finishedAt := None)
             else job.(
               status := Failed, documentStatus := Failed,
               claimedBy := None, claimedAt := None, leaseExpiresAt := None,
               nextRetryAt := None, errorCode := Some("LEASE_EXPIRED"), finishedAt := Some(s.now))])
      case JobRetried(j) =>
        && j in s.jobs
        && var job := s.jobs[j];
           s' == if job.status != Failed then s else s.(jobs := s.jobs[j := job.(
             status := Pending, documentStatus := Pending, progress := 0,
             claimedBy := None, claimedAt := None, leaseExpiresAt := None,
             nextRetryAt := None, errorCode := None, startedAt := None, finishedAt := None)])
      case _ => true
  {
    assert e.JobRetried? ==> s.jobs[e.job := s.jobs[e.job]] == s.jobs;
  }

  // ---------------------------------------------------------------- an attempt that nobody disturbs

  ghost predicate Leads(p: Pipeline, s: World, events: seq<Event>, s': World) {
    Legal(p, s, events) && After(p, s, events) == s'
  }

  lemma {:induction false} Then(p: Pipeline, s: World, events: seq<Event>, s': World, e: Event)
    requires Leads(p, s, events, s') && Enabled(p, s', e)
    ensures Leads(p, s, events + [e], Apply(p, s', e))
  {
    assert (events + [e])[..|events + [e]| - 1] == events;
  }

  function Repeated(e: Event, n: nat): seq<Event> {
    seq(n, i => e)
  }

  /** The worker runs an attempt at the job and has come this far. */
  predicate IsAt(s: World, w: WorkerId, j: JobId, d: DocumentId, attempt: nat, phase: Phase) {
    w in s.workers && s.workers[w] == Running(j, d, attempt, phase) && j in s.jobs && d in s.documents
  }

  function At(s: World, w: WorkerId, j: JobId, d: DocumentId, attempt: nat, phase: Phase): World {
    s.(workers := s.workers[w := Running(j, d, attempt, phase)])
  }

  lemma {:induction false} AtTwice(s: World, w: WorkerId, j: JobId, d: DocumentId, attempt: nat, a: Phase, b: Phase)
    ensures At(At(s, w, j, d, attempt, a), w, j, d, attempt, b) == At(s, w, j, d, attempt, b)
  {
    assert s.workers[w := Running(j, d, attempt, a)][w := Running(j, d, attempt, b)] ==
      s.workers[w := Running(j, d, attempt, b)];
  }

  lemma {:induction false} ThenReads(p: Pipeline, s: World, events: seq<Event>, s': World, w: WorkerId, j: JobId,
                                     d: DocumentId, attempt: nat)
    requires p.batchSize >= 1 && Leads(p, s, events, s') && IsAt(s', w, j, d, attempt, Reading)
    requires p.texts(d, s'.documents[d].uploaded) != []
    ensures
      var bytes := s'.documents[d].uploaded;
      Leads(p, s, events + [AttemptSteps(w, ReadSource(bytes))], At(s', w, j, d, attempt, Parsed(p.texts(d, bytes))))
  {
    var step := ReadSource(s'.documents[d].uploaded);
    Then(p, s, events, s', AttemptSteps(w, step));
    WhatAnUnguardedStepDoes(p, s', w, step);
  }

  /** The chunk rows of the document. */
  function RowsOf(p: Pipeline, d: DocumentId, texts: seq<Text>): seq<DurableChunk> {
    seq(|texts|, i requires 0 <= i < |texts| => DurableChunk(ChunkId(d, i, p.textSha256(texts[i])), texts[i]))
  }

  function WithChunks(p: Pipeline, s: World, j: JobId, d: DocumentId, attempt: nat, rows: seq<DurableChunk>): World
    requires j in s.jobs
  {
    s.(jobs := s.jobs[j := s.jobs[j].(progress := 50, leaseExpiresAt := Some(s.now + p.lease))],
       chunks := s.chunks[d := StoredChunks(rows, attempt)])
  }

  lemma {:induction false} ThenStores(p: Pipeline, s: World, events: seq<Event>, s': World, w: WorkerId, j: JobId,
                                      d: DocumentId, attempt: nat, texts: seq<Text>)
    requires Leads(p, s, events, s') && IsAt(s', w, j, d, attempt, Parsed(texts)) && PassesTheGuard(s', w, j)
    ensures
      var rows := RowsOf(p, d, texts);
      Leads(p, s, events + [AttemptSteps(w, StoreChunks)],
        At(WithChunks(p, s', j, d, attempt, rows), w, j, d, attempt, Stored(rows)))
  {
    Then(p, s, events, s', AttemptSteps(w, StoreChunks));
    WhatAGuardedStepDoes(p, s', w, StoreChunks);
    assert Apply(p, s', AttemptSteps(w, StoreChunks)).chunks[d].rows == RowsOf(p, d, texts);
  }

  lemma {:induction false} ThenEmbeds(p: Pipeline, s: World, events: seq<Event>, s': World, w: WorkerId, j: JobId,
                                      d: DocumentId, attempt: nat, rows: seq<DurableChunk>)
    requires p.batchSize >= 1 && Leads(p, s, events, s') && IsAt(s', w, j, d, attempt, Stored(rows))
    ensures
      var records := RecordsFor(p.embed, s'.documents[d].knowledgeBase, rows);
      Leads(p, s, events + [AttemptSteps(w, EmbedChunks)], At(s', w, j, d, attempt, Embedded(records)))
  {
    Then(p, s, events, s', AttemptSteps(w, EmbedChunks));
    WhatAnUnguardedStepDoes(p, s', w, EmbedChunks);
  }

  lemma {:induction false} ThenDeletes(p: Pipeline, s: World, events: seq<Event>, s': World, w: WorkerId, j: JobId,
                                       d: DocumentId, attempt: nat, records: seq<VectorRecord>)
    requires p.batchSize >= 1 && Leads(p, s, events, s') && IsAt(s', w, j, d, attempt, Embedded(records))
    ensures Leads(p, s, events + [AttemptSteps(w, DeleteVectors)],
      At(s'.(index := WithoutDocument(s'.index, d)), w, j, d, attempt, Upserting(records, 0)))
  {
    Then(p, s, events, s', AttemptSteps(w, DeleteVectors));
    WhatAnUnguardedStepDoes(p, s', w, DeleteVectors);
  }

  lemma {:induction false} ThenUpserts(p: Pipeline, s: World, events: seq<Event>, s': World, w: WorkerId, j: JobId,
                                       d: DocumentId, attempt: nat, records: seq<VectorRecord>, done: nat)
    requires p.batchSize >= 1 && Leads(p, s, events, s') && done < |records|
    requires IsAt(s', w, j, d, attempt, Upserting(records, done))
    ensures
      var end := EndOfBatch(done, p.batchSize, |records|);
      Leads(p, s, events + [AttemptSteps(w, UpsertBatch)],
        At(s'.(index := Upserted(s'.index, records[done..end])), w, j, d, attempt, Upserting(records, end)))
  {
    Then(p, s, events, s', AttemptSteps(w, UpsertBatch));
    WhatAnUnguardedStepDoes(p, s', w, UpsertBatch);
  }

  /** The batches still to be sent, one upsert each. */
  lemma {:induction false} UpsertsFinish(p: Pipeline, s: World, events: seq<Event>, s': World, w: WorkerId, j: JobId,
                                         d: DocumentId, attempt: nat, records: seq<VectorRecord>, done: nat)
    requires p.batchSize >= 1 && Leads(p, s, events, s') && done <= |records|
    requires IsAt(s', w, j, d, attempt, Upserting(records, done))
    ensures
      Leads(p, s, events + Repeated(AttemptSteps(w, UpsertBatch), |Batches(records[done..], p.batchSize)|),
        At(s'.(index := Upserted(s'.index, records[done..])), w, j, d, attempt, Upserting(records, |records|)))
    decreases |records| - done
  {
    var step := AttemptSteps(w, UpsertBatch);
    if done == |records| {
      assert events + Repeated(step, 0) == events;
      assert s'.workers[w := Running(j, d, attempt, Upserting(records, done))] == s'.workers;
    } else {
      var end := EndOfBatch(done, p.batchSize, |records|);
      ThenUpserts(p, s, events, s', w, j, d, attempt, records, done);
      var sent := s'.(index := Upserted(s'.index, records[done..end]));
      NextBatchOf(records, done, end, p.batchSize);
      UpsertsFinish(p, s, events + [step], At(sent, w, j, d, attempt, Upserting(records, end)), w, j, d, attempt,
        records, end);
      OneMore(events, step, |Batches(records[end..], p.batchSize)|);
      UpsertedConcat(s'.index, records[done..end], records[end..]);
      AtTwice(sent.(index := Upserted(sent.index, records[end..])), w, j, d, attempt, Upserting(records, end),
        Upserting(records, |records|));
    }
  }

  lemma {:induction false} OneMore(events: seq<Event>, step: Event, n: nat)
    ensures events + [step] + Repeated(step, n) == events + Repeated(step, n + 1)
  {
    assert [step] + Repeated(step, n) == Repeated(step, n + 1);
  }

  lemma {:induction false} NextBatchOf(records: seq<VectorRecord>, done: nat, end: nat, size: nat)
    requires size >= 1 && done < |records| && end == EndOfBatch(done, size, |records|)
    ensures done < end <= |records| && records[done..] == records[done..end] + records[end..]
    ensures |Batches(records[done..], size)| == 1 + |Batches(records[end..], size)|
  {
    if end < |records| {
      assert records[done..][size..] == records[end..];
    } else {
      assert records[end..] == [];
    }
  }

  /** The job while its attempt runs, from the claim on. */
  function InProgress(p: Pipeline, s: World, w: WorkerId, j: JobId, progress: nat): World
    requires j in s.jobs
  {
    var job := s.jobs[j];
    s.(jobs := s.jobs[j := job.(
         status := Processing, documentStatus := Processing, attemptCount := job.attemptCount + 1, progress := progress,
         claimedBy := Some(w), claimedAt := Some(s.now), leaseExpiresAt := Some(s.now + p.lease),
         nextRetryAt := None, errorCode := None, startedAt := Some(s.now), finishedAt := None)])
  }

  lemma {:induction false} ThenClaims(p: Pipeline, s: World, w: WorkerId, j: JobId)
    requires Enabled(p, s, JobClaimed(w, j))
    ensures Leads(p, s, [JobClaimed(w, j)],
      At(InProgress(p, s, w, j, 0), w, j, s.jobs[j].document, s.jobs[j].attemptCount + 1, Reading))
  {
    assert Leads(p, s, [], s);
    Then(p, s, [], s, JobClaimed(w, j));
    WhatAClaimDoes(p, s, w, j);
    assert [] + [JobClaimed(w, j)] == [JobClaimed(w, j)];
  }

  lemma {:induction false} ProgressOnly(p: Pipeline, s: World, w: WorkerId, j: JobId, d: DocumentId, attempt: nat,
                                        rows: seq<DurableChunk>)
    requires j in s.jobs
    ensures WithChunks(p, InProgress(p, s, w, j, 0), j, d, attempt, rows) ==
      InProgress(p, s, w, j, 50).(chunks := s.chunks[d := StoredChunks(rows, attempt)])
  {
    var first, second := InProgress(p, s, w, j, 0), InProgress(p, s, w, j, 50);
    assert first.jobs[j].(progress := 50, leaseExpiresAt := Some(s.now + p.lease)) == second.jobs[j];
    assert first.jobs[j := second.jobs[j]] == second.jobs;
  }

  /** Claim, read, store. */
  lemma {:induction false} AttemptStores(p: Pipeline, s: World, w: WorkerId, j: JobId)
    requires p.Valid() && Enabled(p, s, JobClaimed(w, j)) && s.jobs[j].document in s.documents
    requires p.texts(s.jobs[j].document, s.documents[s.jobs[j].document].uploaded) != []
    ensures
      var d, attempt := s.jobs[j].document, s.jobs[j].attemptCount + 1;
      var bytes := s.documents[d].uploaded;
      var rows := RowsOf(p, d, p.texts(d, bytes));
      Leads(p, s, [JobClaimed(w, j), AttemptSteps(w, ReadSource(bytes)), AttemptSteps(w, StoreChunks)],
        At(InProgress(p, s, w, j, 50).(chunks := s.chunks[d := StoredChunks(rows, attempt)]), w, j, d, attempt,
          Stored(rows)))
  {
    var d, attempt := s.jobs[j].document, s.jobs[j].attemptCount + 1;
    var texts := p.texts(d, s.documents[d].uploaded);
    var started, read := InProgress(p, s, w, j, 0), AttemptSteps(w, ReadSource(s.documents[d].uploaded));
    ThenClaims(p, s, w, j);
    ThenReads(p, s, [JobClaimed(w, j)], At(started, w, j, d, attempt, Reading), w, j, d, attempt);
    AtTwice(started, w, j, d, attempt, Reading, Parsed(texts));
    assert [JobClaimed(w, j)] + [read] == [JobClaimed(w, j), read];
    ThenStores(p, s, [JobClaimed(w, j), read], At(started, w, j, d, attempt, Parsed(texts)), w, j, d, attempt, texts);
    StoredTwice(p, s, w, j, d, attempt, texts);
    assert [JobClaimed(w, j), read] + [AttemptSteps(w, StoreChunks)] ==
      [JobClaimed(w, j), read, AttemptSteps(w, StoreChunks)];
  }

  lemma {:induction false} StoredTwice(p: Pipeline, s: World, w: WorkerId, j: JobId, d: DocumentId, attempt: nat,
                                       texts: seq<Text>)
    requires j in s.jobs
    ensures
      var rows := RowsOf(p, d, texts);
      At(WithChunks(p, At(InProgress(p, s, w, j, 0), w, j, d, attempt, Parsed(texts)), j, d, attempt, rows), w, j, d,
        attempt, Stored(rows)) ==
      At(InProgress(p, s, w, j, 50).(chunks := s.chunks[d := StoredChunks(rows, attempt)]), w, j, d, attempt,
        Stored(rows))
  {
    var rows := RowsOf(p, d, texts);
    ProgressOnly(p, s, w, j, d, attempt, rows);
    AtTwice(WithChunks(p, InProgress(p, s, w, j, 0), j, d, attempt, rows), w, j, d, attempt, Parsed(texts),
      Stored(rows));
  }

  /** The world after the last upsert. */
  function AllSent(p: Pipeline, s: World, w: WorkerId, j: JobId, d: DocumentId, attempt: nat, rows: seq<DurableChunk>,
                   records: seq<VectorRecord>): World
    requires j in s.jobs
  {
    At(InProgress(p, s, w, j, 50).(chunks := s.chunks[d := StoredChunks(rows, attempt)],
                                   index := Refilled(s.index, d, records)),
       w, j, d, attempt, Upserting(records, |records|))
  }

  /** Embed, delete, upsert batch by batch. */
  lemma {:induction false} AttemptIndexes(p: Pipeline, s: World, events: seq<Event>, w: WorkerId, j: JobId,
                                          d: DocumentId, attempt: nat, rows: seq<DurableChunk>)
    requires p.Valid() && j in s.jobs && d in s.documents
    requires Leads(p, s, events,
      At(InProgress(p, s, w, j, 50).(chunks := s.chunks[d := StoredChunks(rows, attempt)]), w, j, d, attempt,
        Stored(rows)))
    ensures
      var records := RecordsFor(p.embed, s.documents[d].knowledgeBase, rows);
      Leads(p, s, events + [AttemptSteps(w, EmbedChunks)] + [AttemptSteps(w, DeleteVectors)]
              + Repeated(AttemptSteps(w, UpsertBatch), |Batches(records, p.batchSize)|),
        AllSent(p, s, w, j, d, attempt, rows, records))
  {
    var records := RecordsFor(p.embed, s.documents[d].knowledgeBase, rows);
    var stored := InProgress(p, s, w, j, 50).(chunks := s.chunks[d := StoredChunks(rows, attempt)]);
    ThenEmbeds(p, s, events, At(stored, w, j, d, attempt, Stored(rows)), w, j, d, attempt, rows);
    AtTwice(stored, w, j, d, attempt, Stored(rows), Embedded(records));
    var embedded := events + [AttemptSteps(w, EmbedChunks)];
    ThenDeletes(p, s, embedded, At(stored, w, j, d, attempt, Embedded(records)), w, j, d, attempt, records);
    var deleted := stored.(index := WithoutDocument(s.index, d));
    AtTwice(deleted, w, j, d, attempt, Embedded(records), Upserting(records, 0));
    UpsertsFinish(p, s, embedded + [AttemptSteps(w, DeleteVectors)],
      At(deleted, w, j, d, attempt, Upserting(records, 0)), w, j, d, attempt, records, 0);
    assert records[0..] == records;
    AtTwice(deleted.(index := Refilled(s.index, d, records)), w, j, d, attempt, Upserting(records, 0),
      Upserting(records, |records|));
  }

  lemma {:induction false} SameNumberOfBatches<A, B>(a: seq<A>, b: seq<B>, size: nat)
    requires |a| == |b| && size >= 1
    ensures |Batches(a, size)| == |Batches(b, size)|
    decreases |a|
  {
    if |a| > size {
      SameNumberOfBatches(a[size..], b[size..], size);
    }
  }

  /** What the completed attempt leaves: the job and its document completed, the chunks of its own attempt, for the
      document exactly their records in the index, an idle worker, and everything else as it was. */
  ghost predicate IsCompletion(p: Pipeline, s: World, w: WorkerId, j: JobId, s': World)
    requires j in s.jobs && s.jobs[j].document in s.documents
  {
    var d, attempt := s.jobs[j].document, s.jobs[j].attemptCount + 1;
    var rows := RowsOf(p, d, p.texts(d, s.documents[d].uploaded));
    && s'.now == s.now && s'.documents == s.documents && s'.rebuilds == s.rebuilds
    && s'.chunks == s.chunks[d := StoredChunks(rows, attempt)] && s'.workers == s.workers[w := Idle]
    && s'.index == Refilled(s.index, d, RecordsFor(p.embed, s.documents[d].knowledgeBase, rows))
    && s'.jobs.Keys == s.jobs.Keys && (forall i :: i in s.jobs && i != j ==> s'.jobs[i] == s.jobs[i])
    && s'.jobs[j].status == Completed && s'.jobs[j].documentStatus == Completed
    && s'.jobs[j].attemptCount == attempt && s'.jobs[j].progress == 100
  }

  lemma {:induction false} ThenCommits(p: Pipeline, s: World, events: seq<Event>, w: WorkerId, j: JobId)
    requires p.Valid() && j in s.jobs && s.jobs[j].document in s.documents && w in s.workers
    requires
      var d, attempt := s.jobs[j].document, s.jobs[j].attemptCount + 1;
      var rows := RowsOf(p, d, p.texts(d, s.documents[d].uploaded));
      Leads(p, s, events,
        AllSent(p, s, w, j, d, attempt, rows, RecordsFor(p.embed, s.documents[d].knowledgeBase, rows)))
    ensures Legal(p, s, events + [AttemptSteps(w, CommitSuccess)])
    ensures IsCompletion(p, s, w, j, After(p, s, events + [AttemptSteps(w, CommitSuccess)]))
  {
    var sent := After(p, s, events);
    Then(p, s, events, sent, AttemptSteps(w, CommitSuccess));
    WhatAGuardedStepDoes(p, sent, w, CommitSuccess);
    assert sent.workers[w := Idle] == s.workers[w := Idle];
  }

  /** An attempt that nobody disturbs completes, whatever the world it starts in: claim, read, store the chunks, embed,
      delete, one upsert per batch and the commit are a legal run. */
  lemma {:induction false} UndisturbedAttempt(p: Pipeline, s: World, w: WorkerId, j: JobId)
    requires p.Valid() && Enabled(p, s, JobClaimed(w, j)) && s.jobs[j].document in s.documents
    requires p.texts(s.jobs[j].document, s.documents[s.jobs[j].document].uploaded) != []
    ensures
      var d := s.jobs[j].document;
      var bytes := s.documents[d].uploaded;
      var events := [JobClaimed(w, j), AttemptSteps(w, ReadSource(bytes)), AttemptSteps(w, StoreChunks)]
        + [AttemptSteps(w, EmbedChunks)] + [AttemptSteps(w, DeleteVectors)]
        + Repeated(AttemptSteps(w, UpsertBatch), |Batches(p.texts(d, bytes), p.batchSize)|)
        + [AttemptSteps(w, CommitSuccess)];
      Legal(p, s, events) && IsCompletion(p, s, w, j, After(p, s, events))
  {
    var d, attempt := s.jobs[j].document, s.jobs[j].attemptCount + 1;
    var texts := p.texts(d, s.documents[d].uploaded);
    var rows := RowsOf(p, d, texts);
    var start := [JobClaimed(w, j), AttemptSteps(w, ReadSource(s.documents[d].uploaded)), AttemptSteps(w, StoreChunks)];
    AttemptStores(p, s, w, j);
    AttemptIndexes(p, s, start, w, j, d, attempt, rows);
    var records := RecordsFor(p.embed, s.documents[d].knowledgeBase, rows);
    SameNumberOfBatches(records, texts, p.batchSize);
    ThenCommits(p, s, start + [AttemptSteps(w, EmbedChunks)] + [AttemptSteps(w, DeleteVectors)]
      + Repeated(AttemptSteps(w, UpsertBatch), |Batches(texts, p.batchSize)|), w, j);
  }
}
