/** The ingestion protocol: workers, users, recovery and index rebuilds interleaving over one database and one index. */
module Ingestion {
  import opened CodePoints
  import opened Identifiers
  import opened Jobs
  import opened Options
  import opened Records
  import opened VectorStore

  type Bytes = seq<int>

  /** What the deployment fixes: digests, the parse-normalise-chunk pipeline, the embedder and the settings. */
  datatype Pipeline = Pipeline(
    sha256: Bytes -> Digest,
    texts: (DocumentId, Bytes) -> seq<Text>,
    textSha256: Text -> Digest,
    embed: Text -> Embedding,
    batchSize: nat,
    lease: Time,
    retryDelay: Time)
  {
    ghost predicate Valid() {
      && batchSize >= 1 && lease > 0 && retryDelay >= 0
         // Bytes that pass the digest check are cut like the uploaded bytes.
      && forall d, a, b :: sha256(a) == sha256(b) ==> texts(d, a) == texts(d, b)
    }
  }

  datatype Document = Document(knowledgeBase: KnowledgeBaseId, uploaded: Bytes)

  /** The rows of `document_chunks` for one document; `writer` is history: the attempt that wrote them. */
  datatype StoredChunks = StoredChunks(rows: seq<DurableChunk>, writer: nat)

  /** How far an attempt, or a rebuild, has come with its document. */
  datatype Phase =
    | Reading
    | Parsed(texts: seq<Text>)
    | Stored(rows: seq<DurableChunk>)
    | Embedded(records: seq<VectorRecord>)
    | Upserting(records: seq<VectorRecord>, done: nat)
    | Raising

  /** One worker process. It remembers its job and document; `attempt` is history: the code has no such token. */
  datatype Worker = Idle | Running(job: JobId, document: DocumentId, attempt: nat, phase: Phase)

  type RebuildId = nat

  datatype Rebuild = Rebuild(document: DocumentId, phase: Phase)

  datatype World = World(
    now: Time,
    documents: map<DocumentId, Document>,
    jobs: map<JobId, Job>,
    chunks: map<DocumentId, StoredChunks>,
    index: Index,
    workers: map<WorkerId, Worker>,
    rebuilds: map<RebuildId, Rebuild>)

  const START := World(0, map[], map[], map[], map[], map[], map[])

  // ---------------------------------------------------------------- what the pipeline derives

  function DurableChunks(p: Pipeline, d: DocumentId, texts: seq<Text>): seq<DurableChunk> {
    seq(|texts|, i requires 0 <= i < |texts| => DurableChunk(ChunkId(d, i, p.textSha256(texts[i])), texts[i]))
  }

  /** The chunks of a document, whichever attempt computes them. */
  function ChunksOf(p: Pipeline, d: DocumentId, document: Document): seq<DurableChunk> {
    DurableChunks(p, d, p.texts(d, document.uploaded))
  }

  /** The vector records of a document, whichever writer computes them. */
  function Derived(p: Pipeline, d: DocumentId, document: Document): seq<VectorRecord> {
    RecordsFor(p.embed, document.knowledgeBase, ChunksOf(p, d, document))
  }

  // ---------------------------------------------------------------- one step of an attempt

  /** A transaction, a pure computation or one index request; `Tear` is an upsert that failed half way. */
  datatype Step =
    | RenewLease
    | ReadSource(bytes: Bytes)
    | StoreChunks
    | EmbedChunks
    | DeleteVectors
    | UpsertBatch
    | TearBatch(written: nat)
    | CommitSuccess
    | CommitFailure(failure: Failure)
    | Abandon

  function BatchEnd(p: Pipeline, done: nat, total: nat): nat {
    if done + p.batchSize <= total then done + p.batchSize else total
  }

  predicate Allows(p: Pipeline, d: DocumentId, document: Document, phase: Phase, step: Step) {
    match step
    case ReadSource(bytes) => phase.Reading? && p.sha256(bytes) == p.sha256(document.uploaded)
      && p.texts(d, bytes) != []
    case StoreChunks => phase.Parsed?
    case EmbedChunks => phase.Stored?
    case DeleteVectors => phase.Embedded?
    case UpsertBatch => phase.Upserting? && phase.done < |phase.records|
    case TearBatch(written) => phase.Upserting?
      && phase.done + written <= BatchEnd(p, phase.done, |phase.records|) <= |phase.records|
    case CommitSuccess => phase.Upserting? && phase.done == |phase.records|
    case _ => true
  }

  /** The stage after the step, for an attempt that goes on. */
  function PhaseAfter(p: Pipeline, d: DocumentId, document: Document, phase: Phase, step: Step): Phase
    requires Allows(p, d, document, phase, step)
  {
    match step
    case ReadSource(bytes) => Parsed(p.texts(d, bytes))
    case StoreChunks => Stored(DurableChunks(p, d, phase.texts))
    case EmbedChunks => Embedded(RecordsFor(p.embed, document.knowledgeBase, phase.rows))
    case DeleteVectors => Upserting(phase.records, 0)
    case UpsertBatch => Upserting(phase.records, BatchEnd(p, phase.done, |phase.records|))
    case TearBatch(written) => Raising
    case _ => phase
  }

  /** The records the step sends to the index. */
  function Written(p: Pipeline, d: DocumentId, document: Document, phase: Phase, step: Step): seq<VectorRecord>
    requires Allows(p, d, document, phase, step)
  {
    match step
    case UpsertBatch => phase.records[phase.done..BatchEnd(p, phase.done, |phase.records|)]
    case TearBatch(written) => phase.records[phase.done..phase.done + written]
    case _ => []
  }

  /** No transaction guards the index. */
  function IndexAfter(p: Pipeline, index: Index, d: DocumentId, document: Document, phase: Phase, step: Step): Index
    requires Allows(p, d, document, phase, step)
  {
    Upserted(if step.DeleteVectors? then WithoutDocument(index, d) else index, Written(p, d, document, phase, step))
  }

  /** The row after the step; without the lease no step changes it. */
  function RowAfter(p: Pipeline, now: Time, job: Job, owned: bool, step: Step): Job {
    if !owned then job
    else
      match step
      case RenewLease => Renewed(job, now, p.lease)
      case StoreChunks => ChunksReplaced(job, now, p.lease)
      case CommitSuccess => Succeeded(job, now)
      case CommitFailure(failure) => Ended(job, now, p.retryDelay, failure)
      case _ => job
  }

  /** The attempt is over for its worker: it committed, gave up, or found its lease lost when storing chunks. */
  predicate Leaves(owned: bool, step: Step) {
    step.CommitSuccess? || step.CommitFailure? || step.Abandon? || (step.StoreChunks? && !owned)
  }

  // ---------------------------------------------------------------- the steps of the world

  datatype Event =
    | ClockTicks(to: Time)
    | DocumentUploaded(job: JobId, document: DocumentId, knowledgeBase: KnowledgeBaseId, bytes: Bytes)
    | WorkerStarts(worker: WorkerId)
    | JobClaimed(worker: WorkerId, job: JobId)
    | AttemptSteps(worker: WorkerId, step: Step)
    | LeaseRecovered(job: JobId)
    | JobRetried(job: JobId)
    | RebuildStarts(rebuild: RebuildId, job: JobId)
    | RebuildSteps(rebuild: RebuildId, step: Step)

  predicate IsRunning(s: World, w: WorkerId) {
    w in s.workers && s.workers[w].Running? && s.workers[w].job in s.jobs && s.workers[w].document in s.documents
  }

  /** The ownership guard, as this worker's transactions see it. */
  predicate HasLease(s: World, w: WorkerId)
    requires IsRunning(s, w)
  {
    Owned(s.jobs[s.workers[w].job], w, s.now)
  }

  predicate Enabled(p: Pipeline, s: World, e: Event) {
    match e
    case ClockTicks(to) => s.now <= to
    case DocumentUploaded(job, document, knowledgeBase, bytes) => job !in s.jobs && document !in s.documents
    case WorkerStarts(worker) => worker !in s.workers
    case JobClaimed(worker, job) =>
      // Any due job: a claim passes over rows that another transaction has locked.
      worker in s.workers && s.workers[worker].Idle? && job in s.jobs && Eligible(s.jobs[job], s.now)
    case AttemptSteps(worker, step) =>
      && IsRunning(s, worker)
      && Allows(p, s.workers[worker].document, s.documents[s.workers[worker].document], s.workers[worker].phase, step)
    case LeaseRecovered(job) => job in s.jobs && Expired(s.jobs[job], s.now)
    case JobRetried(job) => job in s.jobs
    case RebuildStarts(rebuild, job) =>
      && rebuild !in s.rebuilds && job in s.jobs && s.jobs[job].documentStatus == Completed
      && s.jobs[job].document in s.chunks && s.chunks[s.jobs[job].document].rows != []
    case RebuildSteps(rebuild, step) =>
      && rebuild in s.rebuilds && s.rebuilds[rebuild].document in s.documents
      && (step.EmbedChunks? || step.DeleteVectors? || step.UpsertBatch? || step.TearBatch?)
      && Allows(p, s.rebuilds[rebuild].document, s.documents[s.rebuilds[rebuild].document],
        s.rebuilds[rebuild].phase, step)
  }

  function AttemptApplied(p: Pipeline, s: World, w: WorkerId, step: Step): World
    requires Enabled(p, s, AttemptSteps(w, step))
  {
    var Running(j, d, attempt, phase) := s.workers[w];
    var owned := HasLease(s, w);
    s.(jobs := s.jobs[j := RowAfter(p, s.now, s.jobs[j], owned, step)],
       chunks := if step.StoreChunks? && owned
                 then s.chunks[d := StoredChunks(DurableChunks(p, d, phase.texts), attempt)] else s.chunks,
       index := IndexAfter(p, s.index, d, s.documents[d], phase, step),
       workers := s.workers[w := if Leaves(owned, step) then Idle
                                 else Running(j, d, attempt, PhaseAfter(p, d, s.documents[d], phase, step))])
  }

  function RebuildApplied(p: Pipeline, s: World, r: RebuildId, step: Step): World
    requires Enabled(p, s, RebuildSteps(r, step))
  {
    var Rebuild(d, phase) := s.rebuilds[r];
    s.(index := IndexAfter(p, s.index, d, s.documents[d], phase, step),
       rebuilds := s.rebuilds[r := Rebuild(d, PhaseAfter(p, d, s.documents[d], phase, step))])
  }

  function Apply(p: Pipeline, s: World, e: Event): World
    requires Enabled(p, s, e)
  {
    match e
    case ClockTicks(to) => s.(now := to)
    case DocumentUploaded(job, document, knowledgeBase, bytes) =>
      s.(documents := s.documents[document := Document(knowledgeBase, bytes)],
        jobs := s.jobs[job := NewJob(document, s.now)])
    case WorkerStarts(worker) => s.(workers := s.workers[worker := Idle])
    case JobClaimed(worker, job) =>
      s.(jobs := s.jobs[job := Claimed(s.jobs[job], worker, s.now, p.lease)],
         workers := s.workers[worker := Running(job, s.jobs[job].document, s.jobs[job].attemptCount + 1, Reading)])
    case AttemptSteps(worker, step) => AttemptApplied(p, s, worker, step)
    case LeaseRecovered(job) => s.(jobs := s.jobs[job := Recovered(s.jobs[job], s.now, p.retryDelay)])
    case JobRetried(job) => s.(jobs := s.jobs[job := Retried(s.jobs[job])])
    case RebuildStarts(rebuild, job) =>
      var d := s.jobs[job].document;
      s.(rebuilds := s.rebuilds[rebuild := Rebuild(d, Stored(s.chunks[d].rows))])
    case RebuildSteps(rebuild, step) => RebuildApplied(p, s, rebuild, step)
  }

  predicate Legal(p: Pipeline, s: World, events: seq<Event>)
    decreases |events|, 0
  {
    events == [] ||
    (Legal(p, s, events[..|events| - 1]) && Enabled(p, After(p, s, events[..|events| - 1]), events[|events| - 1]))
  }

  function After(p: Pipeline, s: World, events: seq<Event>): World
    requires Legal(p, s, events)
    decreases |events|, 1
  {
    if events == [] then s else Apply(p, After(p, s, events[..|events| - 1]), events[|events| - 1])
  }

  // ---------------------------------------------------------------- the invariant

  ghost predicate RowOk(now: Time, job: Job) {
    && job.documentStatus == job.status
    && (job.status == Processing <==> job.claimedBy.Some?)
    && (job.status == Processing <==> job.claimedAt.Some?)
    && (job.status == Processing <==> job.leaseExpiresAt.Some?)
    && (job.status == Processing ==> job.claimedAt.value <= now && job.claimedAt.value < job.leaseExpiresAt.value)
    && (job.nextRetryAt.Some? ==> job.status == Pending)
    && (job.status == Processing || job.status == Completed ==> job.attemptCount > 0)
    && job.createdAt <= now && job.progress <= 100
    && job.attemptCount <= job.maxAttempts
  }

  ghost predicate JobOk(s: World, j: JobId)
    requires j in s.jobs
  {
    && RowOk(s.now, s.jobs[j]) && s.jobs[j].document in s.documents
       // The chunks present were written by the completing attempt.
    && (s.jobs[j].status == Completed ==>
          s.jobs[j].document in s.chunks && s.chunks[s.jobs[j].document].writer == s.jobs[j].attemptCount)
  }

  predicate ShareDocument(s: World, i: JobId, j: JobId) {
    i in s.jobs && j in s.jobs && s.jobs[i].document == s.jobs[j].document
  }

  ghost predicate OneJobPerDocument(s: World) {
    forall i, j {:trigger ShareDocument(s, i, j)} :: ShareDocument(s, i, j) ==> i == j
  }

  /** What a document's writer holds is what the document derives. */
  ghost predicate PhaseOk(p: Pipeline, d: DocumentId, document: Document, phase: Phase) {
    match phase
    case Reading => true
    case Parsed(texts) => texts == p.texts(d, document.uploaded) && texts != []
    case Stored(rows) => rows == ChunksOf(p, d, document)
    case Embedded(records) => records == Derived(p, d, document)
    case Upserting(records, done) => records == Derived(p, d, document) && done <= |records|
    case Raising => true
  }

  /** Past the chunk transaction. */
  predicate HasStored(phase: Phase) {
    phase.Stored? || phase.Embedded? || phase.Upserting?
  }

  /** The fence: a running worker that is still the claimant runs the current attempt, and chunks it has stored
      are there, written by its attempt or a later one. */
  ghost predicate WorkerOk(p: Pipeline, s: World, w: WorkerId)
    requires w in s.workers
  {
    s.workers[w].Running? ==>
      var Running(j, d, attempt, phase) := s.workers[w];
      && j in s.jobs && s.jobs[j].document == d && d in s.documents
      && 1 <= attempt <= s.jobs[j].attemptCount
      && (s.jobs[j].claimedBy == Some(w) ==> s.jobs[j].attemptCount == attempt)
      && PhaseOk(p, d, s.documents[d], phase)
      && (HasStored(phase) ==> d in s.chunks && attempt <= s.chunks[d].writer)
  }

  ghost predicate WriterOk(s: World, d: DocumentId, j: JobId)
    requires d in s.chunks
  {
    j in s.jobs && s.jobs[j].document == d ==> 1 <= s.chunks[d].writer <= s.jobs[j].attemptCount
  }

  ghost predicate ChunksOk(p: Pipeline, s: World, d: DocumentId)
    requires d in s.chunks
  {
    && d in s.documents && s.chunks[d].rows == ChunksOf(p, d, s.documents[d]) && s.chunks[d].rows != []
    && forall j {:trigger WriterOk(s, d, j)} :: WriterOk(s, d, j)
  }

  /** An index entry is one of the records that the durable chunks of its document derive. */
  ghost predicate EntryOk(p: Pipeline, s: World, id: VectorId)
    requires id in s.index
  {
    var d := s.index[id].document;
    d in s.chunks && d in s.documents && s.index[id] in Derived(p, d, s.documents[d]) && s.index[id].vectorId == id
  }

  ghost predicate RebuildOk(p: Pipeline, s: World, r: RebuildId)
    requires r in s.rebuilds
  {
    var Rebuild(d, phase) := s.rebuilds[r];
    d in s.chunks && d in s.documents && PhaseOk(p, d, s.documents[d], phase)
  }

  ghost predicate Inv(p: Pipeline, s: World) {
    && (forall j {:trigger JobOk(s, j)} :: j in s.jobs ==> JobOk(s, j))
    && OneJobPerDocument(s)
    && (forall w {:trigger WorkerOk(p, s, w)} :: w in s.workers ==> WorkerOk(p, s, w))
    && (forall d {:trigger ChunksOk(p, s, d)} :: d in s.chunks ==> ChunksOk(p, s, d))
    && (forall id {:trigger EntryOk(p, s, id)} :: id in s.index ==> EntryOk(p, s, id))
    && (forall r {:trigger RebuildOk(p, s, r)} :: r in s.rebuilds ==> RebuildOk(p, s, r))
  }

  // ---------------------------------------------------------------- what no step undoes

  ghost predicate JobGrows(s: World, s': World, j: JobId) {
    j in s.jobs ==>
      && j in s'.jobs && s'.jobs[j].document == s.jobs[j].document && s'.jobs[j].createdAt == s.jobs[j].createdAt
      && s'.jobs[j].maxAttempts == s.jobs[j].maxAttempts && s.jobs[j].attemptCount <= s'.jobs[j].attemptCount
      && (s.jobs[j].status == Completed ==> s'.jobs[j] == s.jobs[j])
  }

  ghost predicate DocumentGrows(s: World, s': World, d: DocumentId) {
    && (d in s.documents ==> d in s'.documents && s'.documents[d] == s.documents[d])
    && (d in s.chunks ==> d in s'.chunks && s.chunks[d].writer <= s'.chunks[d].writer)
  }

  ghost predicate Grows(s: World, s': World) {
    && s.now <= s'.now
    && (forall j {:trigger JobGrows(s, s', j)} :: JobGrows(s, s', j))
    && (forall d {:trigger DocumentGrows(s, s', d)} :: DocumentGrows(s, s', d))
  }

  lemma {:induction false} GrowsIsTransitive(a: World, b: World, c: World)
    requires Grows(a, b) && Grows(b, c)
    ensures Grows(a, c)
  {
    forall j
      ensures JobGrows(a, c, j)
    {
      assert JobGrows(a, b, j) && JobGrows(b, c, j);
    }
    forall d
      ensures DocumentGrows(a, c, d)
    {
      assert DocumentGrows(a, b, d) && DocumentGrows(b, c, d);
    }
  }

  lemma {:induction false} StepGrows(p: Pipeline, s: World, e: Event)
    requires p.Valid() && Inv(p, s) && Enabled(p, s, e)
    ensures Grows(s, Apply(p, s, e))
  {
    var s' := Apply(p, s, e);
    if e.AttemptSteps? {
      assert WorkerOk(p, s, e.worker);
      var Running(j, d, attempt, phase) := s.workers[e.worker];
      assert d in s.chunks ==> ChunksOk(p, s, d);
      assert d in s.chunks ==> WriterOk(s, d, j);
    }
    forall j
      ensures JobGrows(s, s', j)
    {
      assert j in s.jobs ==> JobOk(s, j);
    }
    forall d
      ensures DocumentGrows(s, s', d)
    {
    }
  }

  // ---------------------------------------------------------------- every step keeps the invariant

  lemma {:induction false} RowStaysOk(p: Pipeline, now: Time, job: Job, w: WorkerId, step: Step)
    requires p.Valid() && RowOk(now, job)
    ensures RowOk(now, RowAfter(p, now, job, Owned(job, w, now), step))
  {
  }

  lemma {:induction false} AttemptKeepsJobs(p: Pipeline, s: World, w: WorkerId, step: Step, j: JobId)
    requires p.Valid() && Inv(p, s) && Enabled(p, s, AttemptSteps(w, step)) && j in s.jobs
    ensures j in AttemptApplied(p, s, w, step).jobs && JobOk(AttemptApplied(p, s, w, step), j)
  {
    assert JobOk(s, j);
    assert WorkerOk(p, s, w);
    RowStaysOk(p, s.now, s.jobs[j], w, step);
    assert ShareDocument(s, j, s.workers[w].job) ==> j == s.workers[w].job;
    var d := s.workers[w].document;
    assert d in s.chunks ==> ChunksOk(p, s, d) && WriterOk(s, d, s.workers[w].job);
  }

  lemma {:induction false} StepKeepsJobs(p: Pipeline, s: World, e: Event, j: JobId)
    requires p.Valid() && Inv(p, s) && Enabled(p, s, e) && j in Apply(p, s, e).jobs
    ensures JobOk(Apply(p, s, e), j)
  {
    assert j in s.jobs ==> JobOk(s, j);
    if e.AttemptSteps? {
      AttemptKeepsJobs(p, s, e.worker, e.step, j);
    }
  }

  lemma {:induction false} StepKeepsDistinctDocuments(p: Pipeline, s: World, e: Event)
    requires p.Valid() && Inv(p, s) && Enabled(p, s, e)
    ensures OneJobPerDocument(Apply(p, s, e))
  {
    var s' := Apply(p, s, e);
    StepGrows(p, s, e);
    forall i, j | ShareDocument(s', i, j)
      ensures i == j
    {
      assert JobGrows(s, s', i) && JobGrows(s, s', j);
      assert i in s.jobs ==> JobOk(s, i);
      assert j in s.jobs ==> JobOk(s, j);
      assert ShareDocument(s, i, j) ==> i == j;
    }
  }

  lemma {:induction false} PhaseStaysOk(p: Pipeline, d: DocumentId, document: Document, phase: Phase, step: Step)
    requires p.Valid() && PhaseOk(p, d, document, phase) && Allows(p, d, document, phase, step)
    ensures PhaseOk(p, d, document, PhaseAfter(p, d, document, phase, step))
  {
  }

  lemma {:induction false} AttemptKeepsWorker(p: Pipeline, s: World, w: WorkerId, step: Step)
    requires p.Valid() && Inv(p, s) && Enabled(p, s, AttemptSteps(w, step))
    ensures w in AttemptApplied(p, s, w, step).workers && WorkerOk(p, AttemptApplied(p, s, w, step), w)
  {
    assert WorkerOk(p, s, w);
    PhaseStaysOk(p, s.workers[w].document, s.documents[s.workers[w].document], s.workers[w].phase, step);
  }

  lemma {:induction false} StepKeepsWorkers(p: Pipeline, s: World, e: Event, w: WorkerId)
    requires p.Valid() && Inv(p, s) && Enabled(p, s, e) && w in Apply(p, s, e).workers
    ensures WorkerOk(p, Apply(p, s, e), w)
  {
    var s' := Apply(p, s, e);
    if e.AttemptSteps? && e.worker == w {
      AttemptKeepsWorker(p, s, w, e.step);
      return;
    }
    StepGrows(p, s, e);
    if e.JobClaimed? {
      assert JobOk(s, e.job);
    }
    if w in s.workers && s.workers[w].Running? {
      assert WorkerOk(p, s, w);
      assert JobGrows(s, s', s.workers[w].job) && DocumentGrows(s, s', s.workers[w].document);
    }
  }

  lemma {:induction false} StepKeepsChunks(p: Pipeline, s: World, e: Event, d: DocumentId)
    requires p.Valid() && Inv(p, s) && Enabled(p, s, e) && d in Apply(p, s, e).chunks
    ensures ChunksOk(p, Apply(p, s, e), d)
  {
    var s' := Apply(p, s, e);
    StepGrows(p, s, e);
    assert DocumentGrows(s, s', d);
    assert d in s.chunks ==> ChunksOk(p, s, d);
    if e.AttemptSteps? {
      assert WorkerOk(p, s, e.worker);
    }
    forall j
      ensures WriterOk(s', d, j)
    {
      assert JobGrows(s, s', j);
      assert d in s.chunks ==> WriterOk(s, d, j);
      if e.AttemptSteps? {
        assert ShareDocument(s, j, s.workers[e.worker].job) ==> j == s.workers[e.worker].job;
      }
    }
  }

  lemma {:induction false} WrittenIsDerived(p: Pipeline, d: DocumentId, document: Document, phase: Phase,
                                            step: Step, i: nat)
    requires PhaseOk(p, d, document, phase) && Allows(p, d, document, phase, step)
    requires i < |Written(p, d, document, phase, step)|
    ensures HasStored(phase) && Written(p, d, document, phase, step)[i] in Derived(p, d, document)
  {
    assert Written(p, d, document, phase, step)[i] == phase.records[phase.done + i];
  }

  lemma {:induction false} DerivedNamesItsDocument(p: Pipeline, d: DocumentId, document: Document, record: VectorRecord)
    requires record in Derived(p, d, document)
    ensures record.document == d
  {
  }

  /** One writer's step leaves only derived records, its own document's or what was there. */
  lemma {:induction false} EntriesStayOk(p: Pipeline, s: World, s': World, d: DocumentId, phase: Phase, step: Step,
                                         id: VectorId)
    requires id in s.index ==> EntryOk(p, s, id)
    requires Grows(s, s') && d in s.documents && Allows(p, d, s.documents[d], phase, step)
    requires PhaseOk(p, d, s.documents[d], phase) && (HasStored(phase) ==> d in s.chunks)
    requires s'.index == IndexAfter(p, s.index, d, s.documents[d], phase, step) && id in s'.index
    ensures EntryOk(p, s', id)
  {
    var kept := if step.DeleteVectors? then WithoutDocument(s.index, d) else s.index;
    var written := Written(p, d, s.documents[d], phase, step);
    UpsertedSources(kept, written, id);
    if id in kept && s'.index[id] == kept[id] {
      assert DocumentGrows(s, s', s.index[id].document);
    } else {
      var i :| 0 <= i < |written| && written[i].vectorId == id && s'.index[id] == written[i];
      WrittenIsDerived(p, d, s.documents[d], phase, step, i);
      DerivedNamesItsDocument(p, d, s.documents[d], written[i]);
      assert DocumentGrows(s, s', d);
    }
  }

  lemma {:induction false} StepKeepsEntries(p: Pipeline, s: World, e: Event, id: VectorId)
    requires p.Valid() && Inv(p, s) && Enabled(p, s, e) && id in Apply(p, s, e).index
    ensures EntryOk(p, Apply(p, s, e), id)
  {
    var s' := Apply(p, s, e);
    StepGrows(p, s, e);
    assert id in s.index ==> EntryOk(p, s, id);
    if e.AttemptSteps? {
      assert WorkerOk(p, s, e.worker);
      EntriesStayOk(p, s, s', s.workers[e.worker].document, s.workers[e.worker].phase, e.step, id);
    } else if e.RebuildSteps? {
      assert RebuildOk(p, s, e.rebuild);
      EntriesStayOk(p, s, s', s.rebuilds[e.rebuild].document, s.rebuilds[e.rebuild].phase, e.step, id);
    } else {
      assert EntryOk(p, s, id);
      assert DocumentGrows(s, s', s.index[id].document);
    }
  }

  lemma {:induction false} StepKeepsRebuilds(p: Pipeline, s: World, e: Event, r: RebuildId)
    requires p.Valid() && Inv(p, s) && Enabled(p, s, e) && r in Apply(p, s, e).rebuilds
    ensures RebuildOk(p, Apply(p, s, e), r)
  {
    var s' := Apply(p, s, e);
    StepGrows(p, s, e);
    assert DocumentGrows(s, s', s'.rebuilds[r].document);
    if r in s.rebuilds {
      assert RebuildOk(p, s, r);
      if e.RebuildSteps? && e.rebuild == r {
        PhaseStaysOk(p, s.rebuilds[r].document, s.documents[s.rebuilds[r].document], s.rebuilds[r].phase, e.step);
      }
    } else {
      assert ChunksOk(p, s, s'.rebuilds[r].document);
    }
  }

  lemma {:induction false} StepKeepsInv(p: Pipeline, s: World, e: Event)
    requires p.Valid() && Inv(p, s) && Enabled(p, s, e)
    ensures Inv(p, Apply(p, s, e))
  {
    var s' := Apply(p, s, e);
    forall j | j in s'.jobs
      ensures JobOk(s', j)
    {
      StepKeepsJobs(p, s, e, j);
    }
    StepKeepsDistinctDocuments(p, s, e);
    forall w | w in s'.workers
      ensures WorkerOk(p, s', w)
    {
      StepKeepsWorkers(p, s, e, w);
    }
    forall d | d in s'.chunks
      ensures ChunksOk(p, s', d)
    {
      StepKeepsChunks(p, s, e, d);
    }
    forall id | id in s'.index
      ensures EntryOk(p, s', id)
    {
      StepKeepsEntries(p, s, e, id);
    }
    forall r | r in s'.rebuilds
      ensures RebuildOk(p, s', r)
    {
      StepKeepsRebuilds(p, s, e, r);
    }
  }

  /** In every state of every run. */
  lemma {:induction false} RunKeepsInv(p: Pipeline, s: World, events: seq<Event>)
    requires p.Valid() && Inv(p, s) && Legal(p, s, events)
    ensures Inv(p, After(p, s, events)) && Grows(s, After(p, s, events))
  {
    if events == [] {
      GrowsIsReflexive(s);
    } else {
      var start := events[..|events| - 1];
      RunKeepsInv(p, s, start);
      var before := After(p, s, start);
      StepKeepsInv(p, before, events[|events| - 1]);
      StepGrows(p, before, events[|events| - 1]);
      GrowsIsTransitive(s, before, After(p, s, events));
    }
  }

  lemma {:induction false} GrowsIsReflexive(s: World)
    ensures Grows(s, s)
  {
    forall j
      ensures JobGrows(s, s, j)
    {
    }
    forall d
      ensures DocumentGrows(s, s, d)
    {
    }
  }

  lemma {:induction false} StartIsOk(p: Pipeline)
    ensures Inv(p, START)
  {
  }
}
