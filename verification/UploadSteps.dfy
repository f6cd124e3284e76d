/** What each step of an upload needs and does, spelled out. */
module UploadSteps {
  import opened Identifiers
  import opened Intake

  /** Exactly when a step may happen. A duplicate is a row of the same knowledge base with the same digest; an exception
      may come at any time between the store and the end. */
  lemma {:induction false} WhatAStepNeeds(s: World, u: UploadId, step: Step)
    ensures Enabled(s, UploadSteps(u, step)) <==>
      && u in s.uploads
      && var Upload(knowledgeBase, document, digest, stage) := s.uploads[u];
         var row := Row(knowledgeBase, digest);
         match step
         case Store => stage == Storing
         case StoreRaises(published) => stage == Storing
         case Accept => stage == Stored
         case FindDuplicate(d) => stage == Validated && d in s.documents && s.documents[d] == row
         case FindNone => stage == Validated && forall d :: d in s.documents ==> s.documents[d] != row
         case DropFile => stage.DroppingDuplicate? || stage == Conflicted
         case DropRaises(removed) => stage.DroppingDuplicate? || stage == Conflicted
         case CommitDuplicate => stage.DuplicateDropped?
         case Insert(j) => stage == Inserting && j !in s.jobs && forall d :: d in s.documents ==> s.documents[d] != row
         case Conflict => stage == Inserting
         case Resolve(d) => stage == Resolving && d in s.documents && s.documents[d] == row
         case Interrupt =>
           || stage in {Stored, Validated, Inserting, Conflicted, Resolving}
           || stage.DroppingDuplicate? || stage.DuplicateDropped?
         case Clean => stage == Cleaning
         case CleanRaises(removed) => stage == Cleaning
  {
    assert u in s.uploads ==> (Clash(s, s.uploads[u]) <==> exists d <- s.documents :: HasDigest(s, d, s.uploads[u]));
  }

  lemma {:induction false} HowAnUploadBegins(s: World, u: UploadId, knowledgeBase: KnowledgeBaseId, d: DocumentId,
                                             digest: Digest)
    ensures Enabled(s, UploadBegins(u, knowledgeBase, d, digest)) <==>
      && u !in s.uploads && d !in s.documents && forall v :: v in s.uploads ==> s.uploads[v].document != d
    ensures Enabled(s, UploadBegins(u, knowledgeBase, d, digest)) ==>
      Apply(s, UploadBegins(u, knowledgeBase, d, digest)) ==
        s.(uploads := s.uploads[u := Upload(knowledgeBase, d, digest, Storing)])
  {
  }

  /** The stage after each step, and what becomes of the upload's own file and rows; nothing else changes. */
  lemma {:induction false} WhatAStepDoes(s: World, u: UploadId, step: Step)
    requires Enabled(s, UploadSteps(u, step))
    ensures
      var upload := s.uploads[u];
      var key := StorageKey(upload.knowledgeBase, upload.document);
      var s' := Apply(s, UploadSteps(u, step));
      match step
      case Store => s' == s.(files := s.files + {key}, uploads := s.uploads[u := upload.(stage := Stored)])
      case StoreRaises(published) =>
        s' == s.(files := if published then s.files + {key} else s.files,
                 uploads := s.uploads[u := upload.(stage := Raised)])
      case Accept => s' == s.(uploads := s.uploads[u := upload.(stage := Validated)])
      case FindDuplicate(d) => s' == s.(uploads := s.uploads[u := upload.(stage := DroppingDuplicate(d))])
      case FindNone => s' == s.(uploads := s.uploads[u := upload.(stage := Inserting)])
      case DropFile =>
        && s'.files == s.files - {key} && s'.documents == s.documents && s'.jobs == s.jobs
        && (upload.stage == Conflicted ==> s'.uploads == s.uploads[u := upload.(stage := Resolving)])
        && (upload.stage.DroppingDuplicate? ==>
              s'.uploads == s.uploads[u := upload.(stage := DuplicateDropped(upload.stage.existing))])
      case DropRaises(removed) =>
        s' == s.(files := if removed then s.files - {key} else s.files,
                 uploads := s.uploads[u := upload.(stage := Cleaning)])
      case CommitDuplicate =>
        && upload.stage.DuplicateDropped?
        && s' == s.(uploads := s.uploads[u := upload.(stage := Returned(upload.stage.existing, true))])
      case Insert(j) =>
        s' == s.(documents := s.documents[upload.document := Row(upload.knowledgeBase, upload.digest)],
                 jobs := s.jobs[j := upload.document],
                 uploads := s.uploads[u := upload.(stage := Returned(upload.document, false))])
      case Conflict => s' == s.(uploads := s.uploads[u := upload.(stage := Conflicted)])
      case Resolve(d) => s' == s.(uploads := s.uploads[u := upload.(stage := Returned(d, true))])
      case Interrupt => s' == s.(uploads := s.uploads[u := upload.(stage := Cleaning)])
      case Clean => s' == s.(files := s.files - {key}, uploads := s.uploads[u := upload.(stage := Raised)])
      case CleanRaises(removed) =>
        s' == s.(files := if removed then s.files - {key} else s.files,
                 uploads := s.uploads[u := upload.(stage := Raised)])
  {
  }
}
