/** The turns of a knowledge base's documents in one rebuild, up to the first turn that raises. */
module RebuildListing {
  import opened Identifiers
  import opened Jobs
  import opened Options
  import opened Rebuild
  import opened Records
  import opened VectorStore

  /** A listed document with its status at listing time. */
  datatype Listed = Listed(document: DocumentId, status: Status)

  /** What a rebuild of a knowledge base meets: each turn sees the database and the faults of its time. */
  datatype Course = Course(settings: Settings, listing: seq<Listed>, databases: nat -> Database, maxChunks: nat,
    faults: nat -> Faults)
  {
    ghost predicate Valid() {
      && (forall i, j :: 0 <= i < j < |listing| ==> listing[i].document != listing[j].document)
      && forall k :: ValidDatabase(databases(k))
    }
  }

  const REBUILD_NOT_READY := "REBUILD_NOT_READY"

  /** The code under which the loop reports a refused document. */
  function RefusalCode(exception: Exception): string {
    if exception == LimitExceeded then "REBUILDLIMITERROR" else "REBUILDNOTREADYERROR"
  }

  function Reported(d: DocumentId, code: string): Reply {
    Returned(RebuildResult(1, 0, 0, [RebuildFailure(d, code)]))
  }

  /** What turn `k` reports, or what it raises. */
  function TurnReply(c: Course, k: nat): Reply
    requires k < |c.listing|
  {
    var Listed(d, status) := c.listing[k];
    if status != Completed then Reported(d, REBUILD_NOT_READY)
    else
      var reply := Plan(c.settings, c.databases(k), d, c.maxChunks, c.faults(k)).1;
      if reply.Raised? && reply.exception in {NotReady, LimitExceeded} then
        Reported(d, RefusalCode(reply.exception))
      else reply
  }

  /** The records that turn `k` leaves for its document, nothing if it leaves the index alone. */
  function TurnRecords(c: Course, k: nat): Option<seq<VectorRecord>>
    requires k < |c.listing|
  {
    if c.listing[k].status != Completed then None
    else Plan(c.settings, c.databases(k), c.listing[k].document, c.maxChunks, c.faults(k)).0
  }

  /** What turn `k`, finished or not, makes of an index. */
  function Turn(c: Course, index: Index, k: nat): Index
    requires k < |c.listing|
  {
    if c.listing[k].status != Completed then index
    else Rebuilt(c.settings, index, c.databases(k), c.listing[k].document, c.maxChunks, c.faults(k)).0
  }

  function Raising(c: Course): nat -> bool {
    (k: nat) => k < |c.listing| && TurnReply(c, k).Raised?
  }

  /** The first turn that raises, or the number of turns. */
  function FirstRaising(c: Course): (n: nat) {
    First(Raising(c), 0, |c.listing|)
  }

  ghost predicate AllReturn(c: Course, n: nat)
    requires n <= |c.listing|
  {
    forall k :: 0 <= k < n ==> TurnReply(c, k).Returned?
  }

  lemma {:induction false} FirstRaisingIs(c: Course, n: nat)
    requires n <= |c.listing| && AllReturn(c, n) && (n < |c.listing| ==> TurnReply(c, n).Raised?)
    ensures FirstRaising(c) == n
  {
    FirstIs(Raising(c), 0, |c.listing|, n);
  }

  ghost predicate NothingRaises(faults: Faults) {
    && faults.load.None? && !faults.delete.Raises?
    && forall k :: !faults.embed(k).Raises? && !faults.upsert(k).Raises?
  }

  /** Only an interruption ends the loop early: a refused document or a failing request does not. */
  lemma {:induction false} OnlyInterruptionsRaise(c: Course, k: nat)
    requires c.Valid() && k < |c.listing|
    ensures TurnReply(c, k).Raised? ==> TurnReply(c, k).exception.Interrupted? && c.listing[k].status == Completed
    ensures NothingRaises(c.faults(k)) ==> TurnReply(c, k).Returned?
  {
    var s, d, faults := c.settings, c.listing[k].document, c.faults(k);
    PlanIsExact(s, c.databases(k), d, c.maxChunks, faults);
    if NothingRaises(faults) && Load(c.databases(k), d, c.maxChunks).LoadedRows? {
      EmbeddingDoesNotRaise(s, faults.embed, Batches(Load(c.databases(k), d, c.maxChunks).rows, s.batchSize), 0);
    }
  }

  lemma {:induction false} EmbeddingDoesNotRaise(s: Settings, embed: nat -> Request<()>,
                                                 batches: seq<seq<DurableChunk>>, from: nat)
    requires from <= |batches| && forall k :: !embed(k).Raises?
    ensures !EmbeddingOf(s, embed, batches, from).Raises?
    decreases |batches| - from
  {
    if from < |batches| {
      EmbeddingDoesNotRaise(s, embed, batches, from + 1);
    }
  }

  // ---------------------------------------------------------------- the report

  function Plus(a: RebuildResult, b: RebuildResult): RebuildResult {
    RebuildResult(a.documentsSeen + b.documentsSeen, a.documentsIndexed + b.documentsIndexed,
                  a.chunksIndexed + b.chunksIndexed, a.failures + b.failures)
  }

  function Report(c: Course, n: nat): RebuildResult
    requires n <= |c.listing| && AllReturn(c, n)
  {
    if n == 0 then RebuildResult(0, 0, 0, []) else Plus(Report(c, n - 1), TurnReply(c, n - 1).result)
  }

  /** Every document whose turn is over is either indexed or reported as one failure. */
  lemma {:induction false} EveryDocumentIsReported(c: Course, n: nat)
    requires c.Valid() && n <= |c.listing| && AllReturn(c, n)
    ensures Report(c, n).documentsSeen == n == Report(c, n).documentsIndexed + |Report(c, n).failures|
  {
    if n > 0 {
      EveryDocumentIsReported(c, n - 1);
      var k := n - 1;
      PlanIsExact(c.settings, c.databases(k), c.listing[k].document, c.maxChunks, c.faults(k));
    }
  }

  // ---------------------------------------------------------------- the index

  ghost predicate TurnTaken(c: Course, before: Index, now: Index, k: nat)
    requires k < |c.listing|
  {
    OfDocument(now, c.listing[k].document) == OfDocument(Turn(c, before, k), c.listing[k].document)
  }

  ghost predicate Untouched(c: Course, before: Index, now: Index, n: nat, d: DocumentId)
    requires n <= |c.listing|
  {
    (forall k :: 0 <= k < n ==> c.listing[k].document != d) ==> OfDocument(now, d) == OfDocument(before, d)
  }

  /** The first `n` documents are as their own rebuilds leave them, the other documents as before. */
  ghost predicate TurnsTaken(c: Course, before: Index, now: Index, n: nat)
    requires n <= |c.listing|
  {
    && KeyedIndex(now)
    && (forall k {:trigger TurnTaken(c, before, now, k)} :: 0 <= k < n ==> TurnTaken(c, before, now, k))
    && (forall d {:trigger Untouched(c, before, now, n, d)} :: Untouched(c, before, now, n, d))
  }

  lemma {:induction false} TurnIsLocal(c: Course, index: Index, k: nat, other: DocumentId)
    requires c.Valid() && k < |c.listing| && KeyedIndex(index) && other != c.listing[k].document
    ensures OfDocument(Turn(c, index, k), other) == OfDocument(index, other)
  {
    RebuiltIsExact(c.settings, index, c.databases(k), c.listing[k].document, c.maxChunks, c.faults(k), other);
  }

  lemma {:induction false} OwnTurn(c: Course, before: Index, now: Index, k: nat)
    requires c.Valid() && k < |c.listing| && KeyedIndex(before) && KeyedIndex(now)
    requires OfDocument(now, c.listing[k].document) == OfDocument(before, c.listing[k].document)
    ensures KeyedIndex(Turn(c, now, k)) && TurnTaken(c, before, Turn(c, now, k), k)
  {
    var d := c.listing[k].document;
    RebuiltIsLocal(c.settings, now, before, c.databases(k), d, c.maxChunks, c.faults(k));
    RebuiltIsExact(c.settings, now, c.databases(k), d, c.maxChunks, c.faults(k), d);
  }

  /** An index that differs from `now` in the document of turn `n` only. */
  ghost predicate DiffersInTurn(c: Course, now: Index, next: Index, n: nat)
    requires n < |c.listing|
  {
    KeyedIndex(next) && forall d :: d != c.listing[n].document ==> OfDocument(next, d) == OfDocument(now, d)
  }

  lemma {:induction false} OneMoreTurn(c: Course, before: Index, now: Index, next: Index, n: nat)
    requires c.Valid() && n < |c.listing| && TurnsTaken(c, before, now, n)
    requires DiffersInTurn(c, now, next, n) && TurnTaken(c, before, next, n)
    ensures TurnsTaken(c, before, next, n + 1)
  {
    forall k | 0 <= k < n
      ensures TurnTaken(c, before, next, k)
    {
      assert TurnTaken(c, before, now, k);
    }
    var m := n + 1;
    forall d {:trigger Untouched(c, before, next, m, d)}
      ensures Untouched(c, before, next, m, d)
    {
      assert Untouched(c, before, now, n, d);
    }
  }

  lemma {:induction false} TurnNext(c: Course, before: Index, now: Index, n: nat)
    requires c.Valid() && n < |c.listing| && KeyedIndex(before) && TurnsTaken(c, before, now, n)
    ensures TurnsTaken(c, before, Turn(c, now, n), n + 1)
  {
    assert Untouched(c, before, now, n, c.listing[n].document);
    OwnTurn(c, before, now, n);
    forall d | d != c.listing[n].document
      ensures OfDocument(Turn(c, now, n), d) == OfDocument(now, d)
    {
      TurnIsLocal(c, now, n, d);
    }
    OneMoreTurn(c, before, now, Turn(c, now, n), n);
  }

  /** The index is unchanged exactly when every turn taken, the raising one included, has not deleted or found in the
      index just the records it leaves. */
  lemma {:induction false} IndexUnchangedIff(c: Course, before: Index, now: Index, n: nat)
    requires c.Valid() && n <= |c.listing| && KeyedIndex(before) && TurnsTaken(c, before, now, n)
    ensures now == before <==>
      forall k :: 0 <= k < n ==>
        (TurnRecords(c, k).Some? ==> OfDocument(before, c.listing[k].document) == AsIndex(TurnRecords(c, k).value))
  {
    forall k | 0 <= k < n
      ensures OfDocument(now, c.listing[k].document) == OfDocument(before, c.listing[k].document) <==>
        (TurnRecords(c, k).Some? ==> OfDocument(before, c.listing[k].document) == AsIndex(TurnRecords(c, k).value))
    {
      assert TurnTaken(c, before, now, k);
      var d := c.listing[k].document;
      RebuiltIsExact(c.settings, before, c.databases(k), d, c.maxChunks, c.faults(k), d);
    }
    if forall k :: 0 <= k < n ==> OfDocument(now, c.listing[k].document) == OfDocument(before, c.listing[k].document) {
      forall d
        ensures OfDocument(now, d) == OfDocument(before, d)
      {
        assert Untouched(c, before, now, n, d);
      }
      SameDocumentsSameIndex(now, before);
    }
  }

  /** `n` turns are over: the documents are as their own rebuilds leave them, the result sums up what these report,
      and each of these documents is either indexed or one of the failures. */
  ghost predicate Progress(c: Course, before: Index, now: Index, n: nat, result: RebuildResult)
    requires n <= |c.listing|
  {
    && AllReturn(c, n) && TurnsTaken(c, before, now, n) && result == Report(c, n)
    && result.documentsSeen == n == result.documentsIndexed + |result.failures|
  }

  lemma {:induction false} NoProgress(c: Course, index: Index)
    requires KeyedIndex(index)
    ensures Progress(c, index, index, 0, RebuildResult(0, 0, 0, []))
  {
  }

  lemma {:induction false} ProgressNext(c: Course, before: Index, now: Index, n: nat, result: RebuildResult)
    requires c.Valid() && n < |c.listing| && KeyedIndex(before) && Progress(c, before, now, n, result)
    requires TurnReply(c, n).Returned?
    ensures Progress(c, before, Turn(c, now, n), n + 1, Plus(result, TurnReply(c, n).result))
    ensures TurnReply(c, n).result.documentsSeen == 1
  {
    TurnNext(c, before, now, n);
    EveryDocumentIsReported(c, n + 1);
    PlanIsExact(c.settings, c.databases(n), c.listing[n].document, c.maxChunks, c.faults(n));
  }

  /** How the loop ends: it returns exactly when no turn raises, and otherwise raises what the first raising turn does.
      Then the documents before that turn are as their own rebuilds left them, the document of that turn is untouched
      or holds a first part of its records, and all others are untouched. */
  ghost predicate Outcome(c: Course, before: Index, now: Index, reply: Reply) {
    var n := FirstRaising(c);
    match reply
    case Returned(result) => n == |c.listing| && Progress(c, before, now, n, result)
    case Raised(exception) => n < |c.listing| && reply == TurnReply(c, n) && TurnsTaken(c, before, now, n + 1)
  }

  lemma {:induction false} EndsInTurn(c: Course, before: Index, now: Index, n: nat, reply: Reply)
    requires n < |c.listing| && FirstRaising(c) == n && TurnsTaken(c, before, now, n + 1)
    requires reply == TurnReply(c, n) && reply.Raised?
    ensures Outcome(c, before, now, reply)
  {
  }

  lemma {:induction false} RaisingEnds(c: Course, before: Index, now: Index, n: nat, result: RebuildResult)
    requires c.Valid() && n < |c.listing| && KeyedIndex(before) && Progress(c, before, now, n, result)
    requires TurnReply(c, n).Raised?
    ensures Outcome(c, before, Turn(c, now, n), TurnReply(c, n))
  {
    FirstRaisingIs(c, n);
    TurnNext(c, before, now, n);
    EndsInTurn(c, before, Turn(c, now, n), n, TurnReply(c, n));
  }

  /** The turn's document is as before or holds a first part of its records. */
  ghost predicate FirstPartOrAsBefore(c: Course, before: Index, now: Index, k: nat)
    requires k < |c.listing|
  {
    var d := c.listing[k].document;
    || OfDocument(now, d) == OfDocument(before, d)
    || (TurnRecords(c, k).Some? && OfDocument(now, d) == AsIndex(TurnRecords(c, k).value)
        && Load(c.databases(k), d, c.maxChunks).LoadedRows?
        && TurnRecords(c, k).value <= Whole(c.settings, c.databases(k), d, c.maxChunks))
  }

  /** What a rebuild that raises in turn `n` leaves behind. */
  lemma {:induction false} WhatRaisingLeaves(c: Course, before: Index, now: Index, reply: Reply)
    requires c.Valid() && KeyedIndex(before) && Outcome(c, before, now, reply) && reply.Raised?
    ensures var n := FirstRaising(c);
      && n < |c.listing| && reply.exception.Interrupted? && KeyedIndex(now)
      && (forall k :: 0 <= k <= n ==> FirstPartOrAsBefore(c, before, now, k))
      && forall d :: (forall k :: 0 <= k <= n ==> c.listing[k].document != d) ==>
           OfDocument(now, d) == OfDocument(before, d)
  {
    var n := FirstRaising(c);
    OnlyInterruptionsRaise(c, n);
    forall k | 0 <= k <= n
      ensures FirstPartOrAsBefore(c, before, now, k)
    {
      assert TurnTaken(c, before, now, k);
      var d := c.listing[k].document;
      RebuiltIsExact(c.settings, before, c.databases(k), d, c.maxChunks, c.faults(k), d);
    }
    var m := n + 1;
    forall d | forall k :: 0 <= k <= n ==> c.listing[k].document != d
      ensures OfDocument(now, d) == OfDocument(before, d)
    {
      assert Untouched(c, before, now, m, d);
    }
  }

  // ---------------------------------------------------------------- what the report says

  /** A document that is not completed, or cannot be loaded, is reported under its code and counts no chunks. */
  lemma {:induction false} RefusedTurns(c: Course, k: nat)
    requires k < |c.listing| && c.faults(k).load.None?
    ensures
      var Listed(d, status) := c.listing[k];
      var loaded := Load(c.databases(k), d, c.maxChunks);
      && (status != Completed ==>
            TurnReply(c, k) == Returned(RebuildResult(1, 0, 0, [RebuildFailure(d, "REBUILD_NOT_READY")])))
      && (status == Completed && loaded == Refused(NotReady) ==>
            TurnReply(c, k) == Returned(RebuildResult(1, 0, 0, [RebuildFailure(d, "REBUILDNOTREADYERROR")])))
      && (status == Completed && loaded == Refused(LimitExceeded) ==>
            TurnReply(c, k) == Returned(RebuildResult(1, 0, 0, [RebuildFailure(d, "REBUILDLIMITERROR")])))
  {
  }

  /** Otherwise a turn tells what its document's rebuild tells. */
  lemma {:induction false} LoadedTurns(c: Course, k: nat)
    requires c.Valid() && k < |c.listing| && c.listing[k].status == Completed
    requires c.faults(k).load.None? && Load(c.databases(k), c.listing[k].document, c.maxChunks).LoadedRows?
    ensures TurnReply(c, k) == Plan(c.settings, c.databases(k), c.listing[k].document, c.maxChunks, c.faults(k)).1
  {
    PlanIsExact(c.settings, c.databases(k), c.listing[k].document, c.maxChunks, c.faults(k));
  }

  /** The chunks that turns report, added up. */
  function ChunksOver(c: Course, n: nat): nat
    requires n <= |c.listing| && AllReturn(c, n)
  {
    if n == 0 then 0 else ChunksOver(c, n - 1) + TurnReply(c, n - 1).result.chunksIndexed
  }

  /** What each turn before `n` reports as failed. */
  ghost function FailuresOf(c: Course, n: nat): seq<seq<RebuildFailure>>
    requires n <= |c.listing| && AllReturn(c, n)
  {
    if n == 0 then [] else FailuresOf(c, n - 1) + [TurnReply(c, n - 1).result.failures]
  }

  lemma {:induction false} JoinedSnoc<T>(told: seq<seq<T>>, last: seq<T>)
    ensures Joined(told + [last]) == Joined(told) + last
  {
    assert (told + [last])[..|told|] == told;
  }

  lemma {:induction false} ReportNext(c: Course, n: nat)
    requires n < |c.listing| && AllReturn(c, n + 1)
    ensures Report(c, n + 1).failures == Report(c, n).failures + TurnReply(c, n).result.failures
  {
  }

  /** The report has the failures of the turns, in listing order; none is lost or comes twice. */
  lemma {:induction false} FailuresAreJoined(c: Course, n: nat)
    requires n <= |c.listing| && AllReturn(c, n)
    ensures Report(c, n).failures == Joined(FailuresOf(c, n))
  {
    if n > 0 {
      FailuresAreJoined(c, n - 1);
      ReportNext(c, n - 1);
      JoinedSnoc(FailuresOf(c, n - 1), TurnReply(c, n - 1).result.failures);
    }
  }

  lemma {:induction false} FailuresAt(c: Course, n: nat, k: nat)
    requires k < n <= |c.listing| && AllReturn(c, n)
    ensures |FailuresOf(c, n)| == n && FailuresOf(c, n)[k] == TurnReply(c, k).result.failures
  {
    if k < n - 1 {
      FailuresAt(c, n - 1, k);
    } else if n > 1 {
      FailuresAt(c, n - 1, 0);
    }
  }

  /** The chunks are added up. */
  lemma {:induction false} ChunksAreAdded(c: Course, n: nat)
    requires n <= |c.listing| && AllReturn(c, n)
    ensures Report(c, n).chunksIndexed == ChunksOver(c, n)
  {
    if n > 0 {
      ChunksAreAdded(c, n - 1);
    }
  }

  lemma {:induction false} OneFailureAtMost(c: Course, k: nat)
    requires c.Valid() && k < |c.listing| && TurnReply(c, k).Returned?
    ensures |TurnReply(c, k).result.failures| <= 1
  {
    PlanIsExact(c.settings, c.databases(k), c.listing[k].document, c.maxChunks, c.faults(k));
  }
}
