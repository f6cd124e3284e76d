/** `upload_document` as the service runs it, with other uploads stepping between its own steps. */
module IntakeService {
  import opened Identifiers
  import opened Intake
  import opened Options

  /** What goes wrong during one upload; a deletion or a store that raises says whether it took effect. */
  datatype Script = Script(
    storeRaises: Option<bool>,
    contentRejected: bool,
    transactionRaises: bool,
    dropRaises: Option<bool>,
    commitRaises: bool,
    integrityError: bool,
    insertRaises: bool,
    resolveRaises: bool,
    cleanRaises: Option<bool>)

  datatype Reply = Error | Result(document: DocumentId, duplicate: bool)

  /** The steps that others take when this upload pauses in a given state. */
  type Others = World -> seq<Event>

  /** A step of another upload, which does not draw this upload's job id. */
  predicate Foreign(e: Event, u: UploadId, job: JobId) {
    e.UploadSteps? ==> e.upload != u && (e.step.Insert? ==> e.step.job != job)
  }

  ghost predicate AreOthers(others: Others, u: UploadId, job: JobId) {
    forall s :: Legal(s, others(s)) && forall e <- others(s) :: Foreign(e, u, job)
  }

  ghost predicate Alone(others: Others) {
    forall s :: others(s) == []
  }

  // ---------------------------------------------------------------- what others leave alone

  /** Others keep this upload's stage, its file and its job id, and never take a document away. */
  ghost predicate LeftAlone(s: World, s': World, u: UploadId, job: JobId)
    requires u in s.uploads
  {
    && u in s'.uploads && s'.uploads[u] == s.uploads[u] && job !in s'.jobs
    && (KeyOf(s.uploads[u]) in s'.files <==> KeyOf(s.uploads[u]) in s.files)
    && forall d :: d in s.documents ==> d in s'.documents && s'.documents[d] == s.documents[d]
  }

  lemma {:induction false} ForeignStep(s: World, abandoned: set<StorageKey>, e: Event, u: UploadId, job: JobId)
    requires Inv(s, abandoned) && Enabled(s, e) && Foreign(e, u, job) && u in s.uploads && job !in s.jobs
    ensures LeftAlone(s, Apply(s, e), u, job)
  {
    if e.UploadSteps? {
      assert SameDocument(s, u, e.upload) ==> u == e.upload;
      assert UploadOk(s, abandoned, e.upload);
    }
  }

  lemma {:induction false} ForeignRun(s: World, abandoned: set<StorageKey>, events: seq<Event>, u: UploadId, job: JobId)
    requires Inv(s, abandoned) && Legal(s, events) && u in s.uploads && job !in s.jobs
    requires forall e <- events :: Foreign(e, u, job)
    ensures LeftAlone(s, After(s, events), u, job)
    ensures Inv(After(s, events), abandoned + Abandoned(s, events))
  {
    if events == [] {
      assert abandoned + Abandoned(s, []) == abandoned;
    } else {
      var start, e := events[..|events| - 1], events[|events| - 1];
      ForeignRun(s, abandoned, start, u, job);
      var before := After(s, start);
      ForeignStep(before, abandoned + Abandoned(s, start), e, u, job);
      StepKeepsInv(before, abandoned + Abandoned(s, start), e);
      assert abandoned + Abandoned(s, events) == abandoned + Abandoned(s, start) + Abandons(before, e);
    }
  }

  lemma {:induction false} JoinRuns(history: seq<Event>, s: World, events: seq<Event>)
    requires Legal(START, history) && After(START, history) == s && Legal(s, events)
    ensures Legal(START, history + events) && After(START, history + events) == After(s, events)
  {
    if events == [] {
      assert history + events == history;
    } else {
      var start := events[..|events| - 1];
      JoinRuns(history, s, start);
      Then(history + start, After(s, start), events[|events| - 1]);
      assert history + events == history + start + [events[|events| - 1]];
    }
  }

  // ---------------------------------------------------------------- outcomes

  /** Some document of the knowledge base has the digest. */
  predicate Held(documents: map<DocumentId, Row>, kb: KnowledgeBaseId, digest: Digest) {
    exists d <- documents :: documents[d] == Row(kb, digest)
  }

  /** Nothing is wrong with the transaction and nobody else has the digest when the row is inserted. */
  predicate IsNew(script: Script, heldAtInsert: bool) {
    !script.transactionRaises && !heldAtInsert && !script.insertRaises && !script.integrityError
  }

  /** When the digest was held by another document: at the check, at the insert, at the lookup after a refusal. */
  datatype Holding = Holding(atCheck: bool, atInsert: bool, atResolve: bool)

  /** The existing document is found by the check, or after the constraint has refused the row. */
  predicate IsDuplicate(script: Script, held: Holding) {
    && !script.transactionRaises && script.dropRaises == None
    && if held.atCheck then !script.commitRaises
       else !script.insertRaises && (script.integrityError || held.atInsert) && held.atResolve && !script.resolveRaises
  }

  /** The three moments in order, `before` and `after` the upload; once held, always held. */
  predicate InOrder(before: bool, held: Holding, after: bool) {
    (before ==> held.atCheck) && (held.atCheck ==> held.atInsert) && (held.atInsert ==> held.atResolve)
      && (held.atResolve ==> after)
  }

  class KnowledgeIntake {
    var files: set<StorageKey>
    var documents: map<DocumentId, Row>
    var jobs: map<JobId, DocumentId>
    /** Where every upload stands. */
    var uploads: map<UploadId, Upload>
    /** The steps taken since the service started. */
    ghost var history: seq<Event>

    function State(): World
      reads this
    {
      World(files, documents, jobs, uploads)
    }

    ghost predicate Valid()
      reads this
    {
      Legal(START, history) && After(START, history) == State()
    }

    ghost predicate At(u: UploadId, kb: KnowledgeBaseId, d: DocumentId, digest: Digest, stage: Stage)
      reads this
    {
      u in uploads && uploads[u] == Upload(kb, d, digest, stage)
    }

    constructor ()
      ensures Valid() && State() == START && history == []
    {
      files, documents, jobs := {}, map[], map[];
      uploads, history := map[], [];
    }

    /** Notes the step that the assignments just before it have carried out. */
    method Note(ghost before: World, u: UploadId, step: Step)
      requires Legal(START, history) && After(START, history) == before
      requires Enabled(before, UploadSteps(u, step)) && uploads == before.uploads
      requires var s := Apply(before, UploadSteps(u, step));
        files == s.files && documents == s.documents && jobs == s.jobs
      modifies this`uploads, this`history
      ensures Valid() && history == old(history) + [UploadSteps(u, step)]
      ensures uploads == before.uploads[u := before.uploads[u].(stage := StageAfter(before.uploads[u], step))]
    {
      Then(history, before, UploadSteps(u, step));
      history := history + [UploadSteps(u, step)];
      uploads := uploads[u := uploads[u].(stage := StageAfter(uploads[u], step))];
    }

    /** Between two steps of this upload others take theirs, any number of them. */
    method Pause(others: Others, u: UploadId, ghost job: JobId)
      requires Valid() && u in uploads && job !in jobs && AreOthers(others, u, job)
      modifies this
      ensures Valid() && old(history) <= history
      ensures LeftAlone(old(State()), State(), u, job)
      ensures Alone(others) ==> State() == old(State())
    {
      var events := others(State());
      RunKeepsInv(history);
      ForeignRun(State(), Abandoned(START, history), events, u, job);
      JoinRuns(history, State(), events);
      var s := After(State(), events);
      history := history + events;
      files, documents, jobs, uploads := s.files, s.documents, s.jobs, s.uploads;
    }

    method StoreUpload(u: UploadId, kb: KnowledgeBaseId, d: DocumentId, ghost digest: Digest, raises: Option<bool>)
      returns (stored: bool)
      requires Valid() && At(u, kb, d, digest, Storing)
      modifies this`files, this`uploads, this`history
      ensures Valid() && old(history) <= history && stored == raises.None?
      ensures files == if raises == Some(false) then old(files) else old(files) + {StorageKey(kb, d)}
      ensures At(u, kb, d, digest, if stored then Stored else Raised)
    {
      ghost var before := State();
      if raises == None || raises == Some(true) {
        files := files + {StorageKey(kb, d)};
      }
      stored := raises == None;
      Note(before, u, if stored then Store else StoreRaises(raises.value));
    }

    method ValidateContent(u: UploadId, ghost kb: KnowledgeBaseId, ghost d: DocumentId, ghost digest: Digest,
                           rejected: bool)
      requires Valid() && At(u, kb, d, digest, Stored)
      modifies this`uploads, this`history
      ensures Valid() && old(history) <= history
      ensures At(u, kb, d, digest, if rejected then Cleaning else Validated)
    {
      Note(State(), u, if rejected then Interrupt else Accept);
    }

    /** Looks for the document with this digest in the knowledge base. */
    method FindByDigest(kb: KnowledgeBaseId, digest: Digest) returns (found: Option<DocumentId>)
      ensures found.Some? ==> found.value in documents && documents[found.value] == Row(kb, digest)
      ensures found.Some? <==> Held(documents, kb, digest)
    {
      if d :| d in documents && documents[d] == Row(kb, digest) {
        return Some(d);
      }
      found := None;
    }

    /** The duplicate check of the upload transaction. */
    method CheckDuplicate(u: UploadId, kb: KnowledgeBaseId, ghost d: DocumentId, digest: Digest, raises: bool)
      returns (duplicate: Option<DocumentId>)
      requires Valid() && At(u, kb, d, digest, Validated)
      modifies this`uploads, this`history
      ensures Valid() && old(history) <= history
      ensures At(u, kb, d, digest,
                 if raises then Cleaning
                 else if duplicate.Some? then DroppingDuplicate(duplicate.value) else Inserting)
      ensures duplicate.Some? <==> !raises && Held(documents, kb, digest)
    {
      duplicate := None;
      if raises {
        Note(State(), u, Interrupt);
        return;
      }
      duplicate := FindByDigest(kb, digest);
      Note(State(), u, if duplicate.Some? then FindDuplicate(duplicate.value) else FindNone);
    }

    /** An idempotent deletion of the upload's file; true when it did not raise. */
    method DropFile(u: UploadId, kb: KnowledgeBaseId, d: DocumentId, ghost digest: Digest, ghost stage: Stage,
                    raises: Option<bool>)
      returns (dropped: bool)
      requires Valid() && At(u, kb, d, digest, stage) && (stage.DroppingDuplicate? || stage == Conflicted)
      modifies this`files, this`uploads, this`history
      ensures Valid() && old(history) <= history && dropped == raises.None?
      ensures files - {StorageKey(kb, d)} == old(files) - {StorageKey(kb, d)}
        && (dropped ==> StorageKey(kb, d) !in files)
      ensures At(u, kb, d, digest,
                 if !dropped then Cleaning
                 else if stage == Conflicted then Resolving else DuplicateDropped(stage.existing))
    {
      ghost var before := State();
      if raises == None || raises == Some(true) {
        files := files - {StorageKey(kb, d)};
      }
      dropped := raises == None;
      Note(before, u, if dropped then Intake.DropFile else DropRaises(raises.value));
    }

    method CommitDuplicate(u: UploadId, ghost kb: KnowledgeBaseId, ghost d: DocumentId, ghost digest: Digest,
                           existing: DocumentId, raises: bool)
      returns (reply: Reply)
      requires Valid() && At(u, kb, d, digest, DuplicateDropped(existing))
      modifies this`uploads, this`history
      ensures Valid() && old(history) <= history
      ensures reply == if raises then Error else Result(existing, true)
      ensures At(u, kb, d, digest, if raises then Cleaning else Returned(existing, true))
    {
      Note(State(), u, if raises then Interrupt else Intake.CommitDuplicate);
      reply := if raises then Error else Result(existing, true);
    }

    /** The two inserts and their commit; the unique constraint refuses a second row for the digest. */
    method InsertRows(u: UploadId, kb: KnowledgeBaseId, d: DocumentId, digest: Digest, job: JobId,
                      integrityError: bool, raises: bool)
      returns (conflict: bool)
      requires Valid() && At(u, kb, d, digest, Inserting) && job !in jobs
      modifies this`documents, this`jobs, this`uploads, this`history
      ensures Valid() && old(history) <= history && (raises ==> !conflict)
      ensures At(u, kb, d, digest, if raises then Cleaning else if conflict then Conflicted else Returned(d, false))
      ensures conflict <==> !raises && (integrityError || Held(old(documents), kb, digest))
      ensures documents == if raises || conflict then old(documents) else old(documents)[d := Row(kb, digest)]
      ensures jobs == if raises || conflict then old(jobs) else old(jobs)[job := d]
    {
      ghost var before := State();
      conflict := false;
      if raises {
        Note(before, u, Interrupt);
        return;
      }
      var clash := FindByDigest(kb, digest);
      if integrityError || clash.Some? {
        Note(before, u, Conflict);
        return true;
      }
      documents := documents[d := Row(kb, digest)];
      jobs := jobs[job := d];
      Note(before, u, Insert(job));
    }

    method ResolveConcurrentDuplicate(u: UploadId, kb: KnowledgeBaseId, ghost d: DocumentId, digest: Digest,
                                      raises: bool)
      returns (reply: Reply)
      requires Valid() && At(u, kb, d, digest, Resolving)
      modifies this`uploads, this`history
      ensures Valid() && old(history) <= history && (reply.Result? ==> reply.duplicate)
      ensures At(u, kb, d, digest, if reply.Error? then Cleaning else Returned(reply.document, true))
      ensures reply.Result? <==> !raises && Held(documents, kb, digest)
    {
      var found := FindByDigest(kb, digest);
      if raises || found.None? {
        Note(State(), u, Interrupt);
        return Error;
      }
      Note(State(), u, Resolve(found.value));
      reply := Result(found.value, true);
    }

    /** The `finally` block, reached with the cleanup flag still set. */
    method CleanUp(u: UploadId, kb: KnowledgeBaseId, d: DocumentId, ghost digest: Digest, raises: Option<bool>)
      requires Valid() && At(u, kb, d, digest, Cleaning)
      modifies this`files, this`uploads, this`history
      ensures Valid() && old(history) <= history && At(u, kb, d, digest, Raised)
      ensures files - {StorageKey(kb, d)} == old(files) - {StorageKey(kb, d)}
      ensures raises != Some(false) ==> StorageKey(kb, d) !in files
    {
      ghost var before := State();
      if raises == None || raises == Some(true) {
        files := files - {StorageKey(kb, d)};
      }
      Note(before, u, if raises.None? then Clean else CleanRaises(raises.value));
    }

    /** Both duplicate paths: the file goes, then the existing document is returned. */
    method DropAsDuplicate(u: UploadId, kb: KnowledgeBaseId, d: DocumentId, digest: Digest, stage: Stage,
                           dropRaises: Option<bool>, raises: bool, others: Others, ghost job: JobId)
      returns (reply: Reply, ghost held: bool)
      requires Valid() && At(u, kb, d, digest, stage) && (stage.DroppingDuplicate? || stage == Conflicted)
      requires job !in jobs && AreOthers(others, u, job)
      modifies this
      ensures Valid() && old(history) <= history
      ensures At(u, kb, d, digest, if reply.Error? then Cleaning else Returned(reply.document, true))
      ensures reply.Result? ==> reply.duplicate && StorageKey(kb, d) !in files
      ensures job !in jobs
      ensures reply.Result? <==> dropRaises == None && !raises && (stage == Conflicted ==> held)
      ensures (old(Held(documents, kb, digest)) ==> held) && (held ==> Held(documents, kb, digest))
      ensures LeftDocuments(old(documents), documents)
      ensures Alone(others) ==>
        && documents == old(documents) && jobs == old(jobs)
        && files - {StorageKey(kb, d)} == old(files) - {StorageKey(kb, d)}
    {
      reply, held := Error, Held(documents, kb, digest);
      var dropped := DropFile(u, kb, d, digest, stage, dropRaises);
      if !dropped {
        return;
      }
      Pause(others, u, job);
      held := Held(documents, kb, digest);
      if stage.DroppingDuplicate? {
        reply := CommitDuplicate(u, kb, d, digest, stage.existing, raises);
      } else {
        reply := ResolveConcurrentDuplicate(u, kb, d, digest, raises);
      }
    }

    /** The second half of the transaction: the insert, and what follows when the constraint refuses it. */
    method InsertOrResolve(u: UploadId, kb: KnowledgeBaseId, d: DocumentId, digest: Digest, job: JobId, script: Script,
                           others: Others)
      returns (reply: Reply, ghost atInsert: bool, ghost atResolve: bool)
      requires Valid() && At(u, kb, d, digest, Inserting) && job !in jobs && AreOthers(others, u, job)
      requires StorageKey(kb, d) in files
      modifies this
      ensures Valid() && old(history) <= history
      ensures At(u, kb, d, digest, if reply.Error? then Cleaning else Returned(reply.document, reply.duplicate))
      ensures reply.Error? || reply.duplicate ==> job !in jobs
      ensures reply.Result? && !reply.duplicate <==> !script.insertRaises && !script.integrityError && !atInsert
      ensures reply.Result? && reply.duplicate <==>
        !script.insertRaises && (script.integrityError || atInsert) &&
        script.dropRaises == None && !script.resolveRaises && atResolve
      ensures (old(Held(documents, kb, digest)) ==> atInsert) && (atInsert ==> atResolve)
      ensures atResolve ==> Held(documents, kb, digest)
      ensures reply.Result? ==> (StorageKey(kb, d) in files <==> !reply.duplicate)
      ensures Alone(others) ==>
        && documents == (if reply == Result(d, false) then old(documents)[d := Row(kb, digest)] else old(documents))
        && jobs == (if reply == Result(d, false) then old(jobs)[job := d] else old(jobs))
        && files - {StorageKey(kb, d)} == old(files) - {StorageKey(kb, d)}
    {
      atInsert := Held(documents, kb, digest);
      atResolve := atInsert;
      reply := Error;
      var conflict := InsertRows(u, kb, d, digest, job, script.integrityError, script.insertRaises);
      if script.insertRaises {
        return;
      }
      if !conflict {
        assert documents[d] == Row(kb, digest);
        reply := Result(d, false);
        return;
      }
      Pause(others, u, job);
      reply, atResolve := DropAsDuplicate(u, kb, d, digest, Conflicted, script.dropRaises, script.resolveRaises,
                                          others, job);
    }

    method PersistUpload(u: UploadId, kb: KnowledgeBaseId, d: DocumentId, digest: Digest, job: JobId, script: Script,
                         others: Others)
      returns (reply: Reply, ghost held: Holding)
      requires Valid() && At(u, kb, d, digest, Validated) && job !in jobs && AreOthers(others, u, job)
      requires StorageKey(kb, d) in files && d !in documents
      modifies this
      ensures Valid() && old(history) <= history
      ensures At(u, kb, d, digest, if reply.Error? then Cleaning else Returned(reply.document, reply.duplicate))
      ensures reply.Error? || reply.duplicate ==> job !in jobs
      ensures reply.Result? && !reply.duplicate <==> IsNew(script, held.atInsert)
      ensures reply.Result? && reply.duplicate <==> IsDuplicate(script, held)
      ensures InOrder(old(Held(documents, kb, digest)), held, Held(documents, kb, digest))
      ensures reply.Result? ==> (StorageKey(kb, d) in files <==> !reply.duplicate)
      ensures Alone(others) ==>
        && documents == (if reply == Result(d, false) then old(documents)[d := Row(kb, digest)] else old(documents))
        && jobs == (if reply == Result(d, false) then old(jobs)[job := d] else old(jobs))
        && files - {StorageKey(kb, d)} == old(files) - {StorageKey(kb, d)}
    {
      ghost var atCheck := Held(documents, kb, digest);
      held := Holding(atCheck, atCheck, atCheck);
      var duplicate := CheckDuplicate(u, kb, d, digest, script.transactionRaises);
      if script.transactionRaises {
        return Error, held;
      }
      Pause(others, u, job);
      ghost var resolved;
      if duplicate.Some? {
        reply, resolved := DropAsDuplicate(u, kb, d, digest, DroppingDuplicate(duplicate.value), script.dropRaises,
                                           script.commitRaises, others, job);
        return;
      }
      ghost var atInsert;
      reply, atInsert, resolved := InsertOrResolve(u, kb, d, digest, job, script, others);
      held := Holding(atCheck, atInsert, resolved);
    }

    ghost method Begin(u: UploadId, kb: KnowledgeBaseId, d: DocumentId, digest: Digest)
      requires Valid() && u !in uploads && UnusedDocument(State(), d)
      modifies this`history
      ensures Legal(START, history)
        && After(START, history) == State().(uploads := uploads[u := Upload(kb, d, digest, Storing)])
      ensures old(history) <= history
    {
      Then(history, State(), UploadBegins(u, kb, d, digest));
      history := history + [UploadBegins(u, kb, d, digest)];
    }

    lemma {:induction false} FileIsThere(u: UploadId, kb: KnowledgeBaseId, d: DocumentId, digest: Digest)
      requires Valid() && At(u, kb, d, digest, Validated)
      ensures StorageKey(kb, d) in files && d !in documents
    {
      RunKeepsInv(history);
      assert UploadOk(State(), Abandoned(START, history), u);
    }

    /** Storing the file and looking at its content. */
    method ReceiveUpload(u: UploadId, kb: KnowledgeBaseId, d: DocumentId, digest: Digest, ghost job: JobId,
                         script: Script,
                         others: Others)
      returns (stored: bool)
      requires Valid() && u !in uploads && UnusedDocument(State(), d) && job !in jobs && AreOthers(others, u, job)
      modifies this
      ensures Valid() && old(history) <= history && stored == script.storeRaises.None? && job !in jobs
      ensures At(u, kb, d, digest, if !stored then Raised else if script.contentRejected then Cleaning else Validated)
      ensures stored && !script.contentRejected ==> StorageKey(kb, d) in files && d !in documents
      ensures LeftDocuments(old(documents), documents)
      ensures Alone(others) ==>
        && documents == old(documents) && jobs == old(jobs)
        && files - {StorageKey(kb, d)} == old(files) - {StorageKey(kb, d)}
    {
      Begin(u, kb, d, digest);
      uploads := uploads[u := Upload(kb, d, digest, Storing)];
      Pause(others, u, job);
      stored := StoreUpload(u, kb, d, digest, script.storeRaises);
      if !stored {
        return;
      }
      Pause(others, u, job);
      ValidateContent(u, kb, d, digest, script.contentRejected);
      if !script.contentRejected {
        FileIsThere(u, kb, d, digest);
      }
    }

    /** The whole upload, with others stepping whenever it pauses, is a run of the interleaved model that ends this
        upload: what is proved of all runs holds of the service's state. */
    method UploadDocument(u: UploadId, kb: KnowledgeBaseId, d: DocumentId, digest: Digest, job: JobId, script: Script,
                          others: Others)
      returns (reply: Reply, ghost held: Holding)
      requires Valid() && u !in uploads && UnusedDocument(State(), d) && job !in jobs && AreOthers(others, u, job)
      modifies this
      ensures Valid() && old(history) <= history
      ensures At(u, kb, d, digest, if reply.Error? then Raised else Returned(reply.document, reply.duplicate))
      ensures
        var accepted := script.storeRaises == None && !script.contentRejected;
        && (reply.Result? && !reply.duplicate <==> accepted && IsNew(script, held.atInsert))
        && (reply.Result? && reply.duplicate <==> accepted && IsDuplicate(script, held))
      ensures InOrder(old(Held(documents, kb, digest)), held, Held(documents, kb, digest))
      ensures reply.Result? ==> (StorageKey(kb, d) in files <==> !reply.duplicate)
      ensures reply.Error? && script.storeRaises == None && script.cleanRaises != Some(false) ==>
        StorageKey(kb, d) !in files
      ensures Alone(others) ==>
        && documents == (if reply == Result(d, false) then old(documents)[d := Row(kb, digest)] else old(documents))
        && jobs == (if reply == Result(d, false) then old(jobs)[job := d] else old(jobs))
        && files - {StorageKey(kb, d)} == old(files) - {StorageKey(kb, d)}
    {
      ghost var now := Held(documents, kb, digest);
      held := Holding(now, now, now);
      var stored := ReceiveUpload(u, kb, d, digest, job, script, others);
      now := Held(documents, kb, digest);
      held := Holding(now, now, now);
      if !stored {
        return Error, held;
      }
      var cleanupOwned := true;
      reply := Error;
      if !script.contentRejected {
        reply, held := PersistUpload(u, kb, d, digest, job, script, others);
        cleanupOwned := reply.Error?;
      }
      if cleanupOwned {
        Pause(others, u, job);
        CleanUp(u, kb, d, digest, script.cleanRaises);
      }
    }
  }

  ghost predicate LeftDocuments(before: map<DocumentId, Row>, after: map<DocumentId, Row>) {
    forall d :: d in before ==> d in after && after[d] == before[d]
  }
}
