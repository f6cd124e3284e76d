/** Document uploads: a file store and two tables changed step by step, with failures raised at any step. */
module Intake {
  import opened Identifiers

  type JobId = nat
  type UploadId = nat

  /** The server-made key: the knowledge base and a document id drawn for the upload. */
  datatype StorageKey = StorageKey(knowledgeBase: KnowledgeBaseId, document: DocumentId)

  datatype Row = Row(knowledgeBase: KnowledgeBaseId, digest: Digest)

  /** Where an upload stands in `upload_document`; from `Stored` to `Resolving` the cleanup flag is set. */
  datatype Stage =
    | Storing
    | Stored
    | Validated
    | DroppingDuplicate(existing: DocumentId)
    | DuplicateDropped(existing: DocumentId)
    | Inserting
    | Conflicted
    | Resolving
    | Cleaning
    | Returned(document: DocumentId, duplicate: bool)
    | Raised

  datatype Upload = Upload(knowledgeBase: KnowledgeBaseId, document: DocumentId, digest: Digest, stage: Stage)

  datatype World = World(
    files: set<StorageKey>,
    documents: map<DocumentId, Row>,
    jobs: map<JobId, DocumentId>,
    uploads: map<UploadId, Upload>)

  const START := World({}, map[], map[], map[])

  function KeyOf(upload: Upload): StorageKey {
    StorageKey(upload.knowledgeBase, upload.document)
  }

  function DocumentKeys(s: World): set<StorageKey> {
    set d | d in s.documents :: StorageKey(s.documents[d].knowledgeBase, d)
  }

  predicate HasDigest(s: World, d: DocumentId, upload: Upload) {
    d in s.documents && s.documents[d] == Row(upload.knowledgeBase, upload.digest)
  }

  predicate Clash(s: World, upload: Upload) {
    exists d <- s.documents :: HasDigest(s, d, upload)
  }

  // ---------------------------------------------------------------- the steps

  /** A step of one upload. `Interrupt` is any exception or cancellation; a store or a deletion that raises may
      still have taken effect. */
  datatype Step =
    | Store
    | StoreRaises(published: bool)
    | Accept
    | FindDuplicate(existing: DocumentId)
    | FindNone
    | DropFile
    | DropRaises(removed: bool)
    | CommitDuplicate
    | Insert(job: JobId)
    | Conflict
    | Resolve(existing: DocumentId)
    | Interrupt
    | Clean
    | CleanRaises(removed: bool)

  datatype Event =
    | UploadBegins(upload: UploadId, knowledgeBase: KnowledgeBaseId, document: DocumentId, digest: Digest)
    | UploadSteps(upload: UploadId, step: Step)

  predicate OwnsCleanup(stage: Stage) {
    !(stage.Storing? || stage.Cleaning? || stage.Returned? || stage.Raised?)
  }

  predicate InFlight(stage: Stage) {
    !stage.Returned? && !stage.Raised?
  }

  predicate UnusedDocument(s: World, d: DocumentId) {
    d !in s.documents && forall u <- s.uploads :: s.uploads[u].document != d
  }

  predicate Allows(s: World, upload: Upload, step: Step) {
    match step
    case Store => upload.stage == Storing
    case StoreRaises(published) => upload.stage == Storing
    case Accept => upload.stage == Stored
    case FindDuplicate(existing) => upload.stage == Validated && HasDigest(s, existing, upload)
    case FindNone => upload.stage == Validated && !Clash(s, upload)
    case DropFile => upload.stage.DroppingDuplicate? || upload.stage == Conflicted
    case DropRaises(removed) => upload.stage.DroppingDuplicate? || upload.stage == Conflicted
    case CommitDuplicate => upload.stage.DuplicateDropped?
    case Insert(job) => upload.stage == Inserting && job !in s.jobs && !Clash(s, upload)
    case Conflict => upload.stage == Inserting
    case Resolve(existing) => upload.stage == Resolving && HasDigest(s, existing, upload)
    case Interrupt => OwnsCleanup(upload.stage)
    case Clean => upload.stage == Cleaning
    case CleanRaises(removed) => upload.stage == Cleaning
  }

  function StageAfter(upload: Upload, step: Step): Stage {
    match step
    case Store => Stored
    case StoreRaises(published) => Raised
    case Accept => Validated
    case FindDuplicate(existing) => DroppingDuplicate(existing)
    case FindNone => Inserting
    case DropFile => if upload.stage.DroppingDuplicate? then DuplicateDropped(upload.stage.existing) else Resolving
    case DropRaises(removed) => Cleaning
    case CommitDuplicate => if upload.stage.DuplicateDropped? then Returned(upload.stage.existing, true) else Raised
    case Insert(job) => Returned(upload.document, false)
    case Conflict => Conflicted
    case Resolve(existing) => Returned(existing, true)
    case Interrupt => Cleaning
    case Clean => Raised
    case CleanRaises(removed) => Raised
  }

  function FilesAfter(files: set<StorageKey>, key: StorageKey, step: Step): set<StorageKey> {
    match step
    case Store => files + {key}
    case StoreRaises(published) => if published then files + {key} else files
    case DropFile => files - {key}
    case DropRaises(removed) => if removed then files - {key} else files
    case Clean => files - {key}
    case CleanRaises(removed) => if removed then files - {key} else files
    case _ => files
  }

  predicate Enabled(s: World, e: Event) {
    match e
    case UploadBegins(u, kb, d, digest) => u !in s.uploads && UnusedDocument(s, d)
    case UploadSteps(u, step) => u in s.uploads && Allows(s, s.uploads[u], step)
  }

  function Apply(s: World, e: Event): World
    requires Enabled(s, e)
  {
    match e
    case UploadBegins(u, kb, d, digest) => s.(uploads := s.uploads[u := Upload(kb, d, digest, Storing)])
    case UploadSteps(u, step) =>
      var upload := s.uploads[u];
      World(FilesAfter(s.files, KeyOf(upload), step),
            if step.Insert? then s.documents[upload.document := Row(upload.knowledgeBase, upload.digest)]
              else s.documents,
            if step.Insert? then s.jobs[step.job := upload.document] else s.jobs,
            s.uploads[u := upload.(stage := StageAfter(upload, step))])
  }

  predicate Legal(s: World, events: seq<Event>)
    decreases |events|, 0
  {
    events == [] || (Legal(s, events[..|events| - 1])
      && Enabled(After(s, events[..|events| - 1]), events[|events| - 1]))
  }

  function After(s: World, events: seq<Event>): World
    requires Legal(s, events)
    decreases |events|, 1
  {
    if events == [] then s else Apply(After(s, events[..|events| - 1]), events[|events| - 1])
  }

  /** A file the step abandons: the store raised after publishing it, or its last deletion raised and left it. */
  function Abandons(s: World, e: Event): set<StorageKey>
    requires Enabled(s, e)
  {
    match e
    case UploadSteps(u, StoreRaises(true)) => {KeyOf(s.uploads[u])}
    case UploadSteps(u, CleanRaises(false)) => {KeyOf(s.uploads[u])} * s.files
    case _ => {}
  }

  function Abandoned(s: World, events: seq<Event>): set<StorageKey>
    requires Legal(s, events)
  {
    if events == [] then {}
    else
      var start := events[..|events| - 1];
      Abandoned(s, start) + Abandons(After(s, start), events[|events| - 1])
  }

  // ---------------------------------------------------------------- the invariant

  /** Where the upload's file must be. */
  ghost predicate UploadOk(s: World, abandoned: set<StorageKey>, u: UploadId)
    requires u in s.uploads
  {
    var upload := s.uploads[u];
    var key := KeyOf(upload);
    && (upload.document in s.documents <==> upload.stage == Returned(upload.document, false))
    && (key in abandoned ==> upload.stage == Raised)
    && match upload.stage
       case Storing => key !in s.files
       case Stored => key in s.files
       case Validated => key in s.files
       case DroppingDuplicate(existing) => key in s.files && HasDigest(s, existing, upload)
       case DuplicateDropped(existing) => key !in s.files && HasDigest(s, existing, upload)
       case Inserting => key in s.files
       case Conflicted => key in s.files
       case Resolving => key !in s.files
       case Cleaning => true
       case Returned(document, duplicate) =>
         HasDigest(s, document, upload) && (if duplicate then key !in s.files else document == upload.document)
       case Raised => key in s.files ==> key in abandoned
  }

  ghost predicate SameDocument(s: World, u: UploadId, v: UploadId) {
    u in s.uploads && v in s.uploads && s.uploads[u].document == s.uploads[v].document
  }

  /** Every stored file was an upload's. */
  ghost predicate FileOk(s: World, key: StorageKey) {
    exists u :: Owner(s, u, key)
  }

  ghost predicate Owner(s: World, u: UploadId, key: StorageKey) {
    u in s.uploads && KeyOf(s.uploads[u]) == key
  }

  ghost predicate DocumentOk(s: World, d: DocumentId)
    requires d in s.documents
  {
    var key := StorageKey(s.documents[d].knowledgeBase, d);
    key in s.files && (exists u :: Owner(s, u, key)) && exists j :: IsJobOf(s, j, d)
  }

  predicate IsJobOf(s: World, j: JobId, d: DocumentId) {
    j in s.jobs && s.jobs[j] == d
  }

  predicate Twins(s: World, c: DocumentId, d: DocumentId) {
    c in s.documents && d in s.documents && s.documents[c] == s.documents[d]
  }

  predicate SharedJob(s: World, i: JobId, j: JobId) {
    i in s.jobs && j in s.jobs && s.jobs[i] == s.jobs[j]
  }

  ghost predicate Inv(s: World, abandoned: set<StorageKey>) {
    && (forall u {:trigger UploadOk(s, abandoned, u)} :: u in s.uploads ==> UploadOk(s, abandoned, u))
    && (forall u, v {:trigger SameDocument(s, u, v)} :: SameDocument(s, u, v) ==> u == v)
    && (forall key {:trigger FileOk(s, key)} :: key in s.files ==> FileOk(s, key))
    && (forall d {:trigger DocumentOk(s, d)} :: d in s.documents ==> DocumentOk(s, d))
    && (forall c, d {:trigger Twins(s, c, d)} :: Twins(s, c, d) ==> c == d)
    && (forall i, j {:trigger SharedJob(s, i, j)} :: SharedJob(s, i, j) ==> i == j)
    && (forall j {:trigger s.jobs[j]} :: j in s.jobs ==> s.jobs[j] in s.documents)
    && abandoned <= s.files
  }

  // ---------------------------------------------------------------- every step keeps it

  lemma {:induction false} StepKeepsUploads(s: World, abandoned: set<StorageKey>, e: Event, u: UploadId)
    requires Inv(s, abandoned) && Enabled(s, e) && u in Apply(s, e).uploads
    ensures UploadOk(Apply(s, e), abandoned + Abandons(s, e), u)
  {
    assert u in s.uploads ==> UploadOk(s, abandoned, u);
    match e
    case UploadBegins(v, kb, d, digest) =>
      var key := StorageKey(kb, d);
      assert key in s.files ==> FileOk(s, key);
    case UploadSteps(v, step) =>
      assert UploadOk(s, abandoned, v);
      assert u in s.uploads && SameDocument(s, u, v) ==> u == v;
  }

  lemma {:induction false} StepKeepsFiles(s: World, abandoned: set<StorageKey>, e: Event, key: StorageKey)
    requires Inv(s, abandoned) && Enabled(s, e) && key in Apply(s, e).files
    ensures FileOk(Apply(s, e), key)
  {
    var s' := Apply(s, e);
    if key in s.files {
      assert FileOk(s, key);
      var u :| Owner(s, u, key);
      assert Owner(s', u, key);
    } else {
      assert Owner(s', e.upload, key);
    }
  }

  lemma {:induction false} StepKeepsDocuments(s: World, abandoned: set<StorageKey>, e: Event, d: DocumentId)
    requires Inv(s, abandoned) && Enabled(s, e) && d in Apply(s, e).documents
    ensures DocumentOk(Apply(s, e), d)
  {
    var s' := Apply(s, e);
    if d in s.documents {
      assert DocumentOk(s, d);
      var key := StorageKey(s.documents[d].knowledgeBase, d);
      var j :| IsJobOf(s, j, d);
      assert IsJobOf(s', j, d);
      var u :| Owner(s, u, key);
      assert Owner(s', u, key);
      if e.UploadSteps? {
        assert UploadOk(s, abandoned, e.upload);
      }
    } else {
      assert UploadOk(s, abandoned, e.upload);
      assert IsJobOf(s', e.step.job, d);
      assert Owner(s', e.upload, KeyOf(s.uploads[e.upload]));
    }
  }

  lemma {:induction false} StepKeepsDistinct(s: World, abandoned: set<StorageKey>, e: Event)
    requires Inv(s, abandoned) && Enabled(s, e)
    ensures forall u, v {:trigger SameDocument(Apply(s, e), u, v)} :: SameDocument(Apply(s, e), u, v) ==> u == v
    ensures forall c, d {:trigger Twins(Apply(s, e), c, d)} :: Twins(Apply(s, e), c, d) ==> c == d
  {
    var s' := Apply(s, e);
    forall u, v | SameDocument(s', u, v)
      ensures u == v
    {
      assert SameDocument(s, u, v) ==> u == v;
    }
    forall c, d | Twins(s', c, d)
      ensures c == d
    {
      assert Twins(s, c, d) ==> c == d;
      if e.UploadSteps? && e.step.Insert? {
        var upload := s.uploads[e.upload];
        assert c in s.documents ==> !HasDigest(s, c, upload);
        assert d in s.documents ==> !HasDigest(s, d, upload);
      }
    }
  }

  lemma {:induction false} StepKeepsJobs(s: World, abandoned: set<StorageKey>, e: Event)
    requires Inv(s, abandoned) && Enabled(s, e)
    ensures forall i, j {:trigger SharedJob(Apply(s, e), i, j)} :: SharedJob(Apply(s, e), i, j) ==> i == j
    ensures forall j {:trigger Apply(s, e).jobs[j]} :: j in Apply(s, e).jobs ==>
      Apply(s, e).jobs[j] in Apply(s, e).documents
  {
    var s' := Apply(s, e);
    assert e.UploadSteps? ==> UploadOk(s, abandoned, e.upload);
    forall i, j | SharedJob(s', i, j)
      ensures i == j
    {
      assert SharedJob(s, i, j) ==> i == j;
      assert i in s.jobs ==> s.jobs[i] in s.documents;
      assert j in s.jobs ==> s.jobs[j] in s.documents;
    }
    forall j | j in s'.jobs
      ensures s'.jobs[j] in s'.documents
    {
      assert j in s.jobs ==> s.jobs[j] in s.documents;
    }
  }

  lemma {:induction false} StepKeepsInv(s: World, abandoned: set<StorageKey>, e: Event)
    requires Inv(s, abandoned) && Enabled(s, e)
    ensures Inv(Apply(s, e), abandoned + Abandons(s, e))
  {
    var s' := Apply(s, e);
    forall u | u in s'.uploads
      ensures UploadOk(s', abandoned + Abandons(s, e), u)
    {
      StepKeepsUploads(s, abandoned, e, u);
    }
    forall key | key in s'.files
      ensures FileOk(s', key)
    {
      StepKeepsFiles(s, abandoned, e, key);
    }
    forall d | d in s'.documents
      ensures DocumentOk(s', d)
    {
      StepKeepsDocuments(s, abandoned, e, d);
    }
    StepKeepsDistinct(s, abandoned, e);
    StepKeepsJobs(s, abandoned, e);
    if e.UploadSteps? {
      assert UploadOk(s, abandoned, e.upload);
    }
  }

  lemma {:induction false} RunKeepsInv(events: seq<Event>)
    requires Legal(START, events)
    ensures Inv(After(START, events), Abandoned(START, events))
  {
    if events != [] {
      RunKeepsInv(events[..|events| - 1]);
      StepKeepsInv(After(START, events[..|events| - 1]), Abandoned(START, events[..|events| - 1]),
        events[|events| - 1]);
    }
  }

  // ---------------------------------------------------------------- what the design promises

  ghost predicate Quiet(s: World) {
    forall u <- s.uploads :: !InFlight(s.uploads[u].stage)
  }

  /** With no upload in flight the stored files are the documents' keys and the abandoned ones, and these never
      coincide; so files and documents correspond exactly when no file was abandoned. */
  lemma {:induction false} FilesAreDocuments(events: seq<Event>)
    requires Legal(START, events) && Quiet(After(START, events))
    ensures
      var s := After(START, events);
      && s.files == DocumentKeys(s) + Abandoned(START, events)
      && DocumentKeys(s) !! Abandoned(START, events)
      && (s.files == DocumentKeys(s) <==> Abandoned(START, events) == {})
  {
    var s, abandoned := After(START, events), Abandoned(START, events);
    RunKeepsInv(events);
    forall key | key in DocumentKeys(s)
      ensures key in s.files && key !in abandoned
    {
      var d :| d in s.documents && StorageKey(s.documents[d].knowledgeBase, d) == key;
      assert DocumentOk(s, d);
      var u :| Owner(s, u, key);
      assert UploadOk(s, abandoned, u);
    }
    forall key | key in s.files
      ensures key in DocumentKeys(s) || key in abandoned
    {
      assert FileOk(s, key);
      var u :| Owner(s, u, key);
      assert UploadOk(s, abandoned, u);
      assert !InFlight(s.uploads[u].stage);
    }
  }

  /** No store raised after publishing its file and no final deletion raised and left one. */
  predicate CleanEvent(e: Event) {
    e.UploadSteps? ==> !(e.step.StoreRaises? && e.step.published) && !(e.step.CleanRaises? && !e.step.removed)
  }

  /** Failures at every other step, cancellations and retried deletions included, abandon nothing. */
  lemma {:induction false} OnlyFailedCleanupAbandons(events: seq<Event>)
    requires Legal(START, events) && forall i :: 0 <= i < |events| ==> CleanEvent(events[i])
    ensures Abandoned(START, events) == {}
  {
    if events != [] {
      var start := events[..|events| - 1];
      assert forall i :: 0 <= i < |start| ==> start[i] == events[i];
      OnlyFailedCleanupAbandons(start);
      assert CleanEvent(events[|events| - 1]);
    }
  }

  /** In every state, in flight or not: one document for a digest in a knowledge base, one job for a document, a file
      for every document, and an upload that returned, as new or as duplicate, returned a document with its digest. */
  lemma {:induction false} UploadsConserve(events: seq<Event>, d: DocumentId, c: DocumentId, u: UploadId)
    requires Legal(START, events)
    ensures
      var s := After(START, events);
      && (Twins(s, c, d) ==> c == d)
      && (d in s.documents ==> StorageKey(s.documents[d].knowledgeBase, d) in s.files)
      && (d in s.documents ==> exists j :: IsJobOf(s, j, d) && forall i :: IsJobOf(s, i, d) ==> i == j)
      && (u in s.uploads && s.uploads[u].stage.Returned? ==>
            && HasDigest(s, s.uploads[u].stage.document, s.uploads[u])
            && (s.uploads[u].stage.duplicate <==> s.uploads[u].stage.document != s.uploads[u].document))
  {
    var s, abandoned := After(START, events), Abandoned(START, events);
    RunKeepsInv(events);
    assert Twins(s, c, d) ==> c == d;
    if d in s.documents {
      assert DocumentOk(s, d);
      var j :| IsJobOf(s, j, d);
      forall i | IsJobOf(s, i, d)
        ensures i == j
      {
        assert SharedJob(s, i, j) ==> i == j;
      }
    }
    if u in s.uploads {
      assert UploadOk(s, abandoned, u);
    }
  }

  // ---------------------------------------------------------------- both ways of abandoning a file

  lemma {:induction false} Then(events: seq<Event>, s: World, e: Event)
    requires Legal(START, events) && After(START, events) == s && Enabled(s, e)
    ensures Legal(START, events + [e]) && After(START, events + [e]) == Apply(s, e)
    ensures Abandoned(START, events + [e]) == Abandoned(START, events) + Abandons(s, e)
  {
    assert (events + [e])[..|events + [e]| - 1] == events;
  }

  /** The only upload of a run, at a stage, with the given files. */
  function OneUpload(files: set<StorageKey>, stage: Stage): World {
    World(files, map[], map[], map[0 := Upload(0, 0, 7, stage)])
  }

  const KEY := StorageKey(0, 0)
  const BEGINS := [UploadBegins(0, 0, 0, 7)]

  lemma {:induction false} Begun()
    ensures Legal(START, BEGINS) && After(START, BEGINS) == OneUpload({}, Storing) && Abandoned(START, BEGINS) == {}
  {
    assert Legal(START, []) && After(START, []) == START;
    Then([], START, UploadBegins(0, 0, 0, 7));
    assert [] + BEGINS == BEGINS;
  }

  /** The store is cancelled while the finished file is being moved into place: the file stays, no row is made. */
  lemma {:induction false} StoreRaisesAfterPublishing()
    ensures
      var events := BEGINS + [UploadSteps(0, StoreRaises(true))];
      && Legal(START, events) && Quiet(After(START, events))
      && After(START, events).files == {KEY} == Abandoned(START, events) && DocumentKeys(After(START, events)) == {}
  {
    Begun();
    Then(BEGINS, OneUpload({}, Storing), UploadSteps(0, StoreRaises(true)));
  }

  /** The content is rejected and the deletion that should remove the file raises without removing it. */
  lemma {:induction false} FinalDeletionRaises()
    ensures
      var events := BEGINS + [UploadSteps(0, Store)] + [UploadSteps(0, Interrupt)] +
        [UploadSteps(0, CleanRaises(false))];
      && Legal(START, events) && Quiet(After(START, events))
      && After(START, events).files == {KEY} == Abandoned(START, events) && DocumentKeys(After(START, events)) == {}
  {
    Begun();
    var stored := BEGINS + [UploadSteps(0, Store)];
    Then(BEGINS, OneUpload({}, Storing), UploadSteps(0, Store));
    Then(stored, OneUpload({KEY}, Stored), UploadSteps(0, Interrupt));
    Then(stored + [UploadSteps(0, Interrupt)], OneUpload({KEY}, Cleaning), UploadSteps(0, CleanRaises(false)));
  }
}
