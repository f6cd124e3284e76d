/** Canonical candidate batches and the order-restoring authoritative loader. */
module Candidates {
  import opened Fusion
  import opened Options
  import Orders
  import opened Sequences

  const FINAL_VALIDATION_BATCH_SIZE := 64
  const MAX_FINAL_CANDIDATES := 192

  datatype BatchResult = LimitExceeded | Batches(batches: seq<seq<Uuid>>)

  ghost predicate Ascending(ids: seq<Uuid>) {
    forall i, j :: 0 <= i < j < |ids| ==> ids[i] < ids[j]
  }

  function InsertId(ids: seq<Uuid>, id: Uuid): seq<Uuid> {
    if ids == [] || id < ids[0] then [id] + ids
    else if id == ids[0] then ids
    else [ids[0]] + InsertId(ids[1..], id)
  }

  /** `sorted(set(ids))`. */
  function SortedDistinct(ids: seq<Uuid>): seq<Uuid> {
    if ids == [] then [] else InsertId(SortedDistinct(ids[1..]), ids[0])
  }

  function InBatches(ordered: seq<Uuid>): seq<seq<Uuid>> {
    if ordered == [] then []
    else if |ordered| <= FINAL_VALIDATION_BATCH_SIZE then [ordered]
    else [ordered[..FINAL_VALIDATION_BATCH_SIZE]] + InBatches(ordered[FINAL_VALIDATION_BATCH_SIZE..])
  }

  function CanonicalCandidateBatches(ids: seq<Uuid>): BatchResult {
    var ordered := SortedDistinct(ids);
    if |ordered| > MAX_FINAL_CANDIDATES then LimitExceeded else Batches(InBatches(ordered))
  }

  function Flattened(batches: seq<seq<Uuid>>): seq<Uuid> {
    if batches == [] then [] else batches[0] + Flattened(batches[1..])
  }

  // ---------------------------------------------------------------- the ids alone decide the batches

  lemma {:induction false} InsertIdSorts(ids: seq<Uuid>, id: Uuid)
    requires Ascending(ids)
    ensures Ascending(InsertId(ids, id))
    ensures forall x :: x in InsertId(ids, id) <==> x in ids || x == id
    decreases |ids|
  {
    if ids != [] && id > ids[0] {
      InsertIdSorts(ids[1..], id);
      var rest := InsertId(ids[1..], id);
      assert ids == [ids[0]] + ids[1..];
      forall i | 0 <= i < |rest|
        ensures ids[0] < rest[i]
      {
        assert rest[i] in rest;
      }
    }
  }

  lemma {:induction false} SortedDistinctIs(ids: seq<Uuid>)
    ensures Ascending(SortedDistinct(ids))
    ensures forall x :: x in SortedDistinct(ids) <==> x in ids
  {
    if ids != [] {
      SortedDistinctIs(ids[1..]);
      InsertIdSorts(SortedDistinct(ids[1..]), ids[0]);
    }
  }

  lemma {:induction false} AscendingTail(ids: seq<Uuid>, x: Uuid)
    requires Ascending(ids) && ids != []
    ensures x in ids[1..] <==> x in ids && x != ids[0]
  {
    if x in ids && x != ids[0] {
      var i :| 0 <= i < |ids| && ids[i] == x;
      assert ids[1..][i - 1] == x;
    }
  }

  lemma {:induction false} AscendingIsUnique(a: seq<Uuid>, b: seq<Uuid>)
    requires Ascending(a) && Ascending(b) && forall x :: x in a <==> x in b
    ensures a == b
  {
    Orders.OrderedIsUnique((x: Uuid, y: Uuid) => x < y, a, b);
  }

  lemma {:induction false} FlattenBatches(ordered: seq<Uuid>)
    ensures Flattened(InBatches(ordered)) == ordered
    ensures forall batch <- InBatches(ordered) :: 0 < |batch| <= 64
    ensures forall b :: 0 <= b < |InBatches(ordered)| - 1 ==> |InBatches(ordered)[b]| == 64
    ensures |InBatches(ordered)| == (|ordered| + FINAL_VALIDATION_BATCH_SIZE - 1) / FINAL_VALIDATION_BATCH_SIZE
    decreases |ordered|
  {
    if |ordered| > FINAL_VALIDATION_BATCH_SIZE {
      var head, rest := ordered[..FINAL_VALIDATION_BATCH_SIZE], ordered[FINAL_VALIDATION_BATCH_SIZE..];
      FlattenBatches(rest);
      assert ([head] + InBatches(rest))[1..] == InBatches(rest);
    } else if ordered != [] {
      assert Flattened([ordered]) == ordered + Flattened([ordered][1..]);
    }
  }

  /** Batches depend only on the set of ids; within the limit there are at most three, none is empty or
      too long, and together they are the sorted distinct ids. */
  lemma {:induction false} BatchesAreCanonical(ids: seq<Uuid>, others: seq<Uuid>)
    ensures (forall x :: x in ids <==> x in others) ==>
      CanonicalCandidateBatches(ids) == CanonicalCandidateBatches(others)
    ensures var r := CanonicalCandidateBatches(ids);
            match r
            case LimitExceeded => |SortedDistinct(ids)| > 192
            case Batches(batches) =>
              && |batches| <= 3
              && |SortedDistinct(ids)| <= 192 && (forall batch <- batches :: 0 < |batch| <= 64)
              && (forall b :: 0 <= b < |batches| - 1 ==> |batches[b]| == 64)
              && Ascending(Flattened(batches))
              && (forall x :: x in Flattened(batches) <==> x in ids)
              && CanonicalCandidateBatches(Flattened(batches)) == r
  {
    SortedDistinctIs(ids);
    SortedDistinctIs(others);
    if forall x :: x in ids <==> x in others {
      AscendingIsUnique(SortedDistinct(ids), SortedDistinct(others));
    }
    FlattenBatches(SortedDistinct(ids));
    SortedDistinctIs(SortedDistinct(ids));
    AscendingIsUnique(SortedDistinct(SortedDistinct(ids)), SortedDistinct(ids));
  }

  lemma {:induction false} AscendingSize(ids: seq<Uuid>, members: set<Uuid>)
    requires Ascending(ids) && forall x :: x in ids <==> x in members
    ensures |ids| == |members|
    decreases |ids|
  {
    if ids == [] {
      assert members == {};
    } else {
      assert ids[0] in members;
      forall x
        ensures x in ids[1..] <==> x in members - {ids[0]}
      {
        AscendingTail(ids, x);
      }
      AscendingSize(ids[1..], members - {ids[0]});
    }
  }

  // ---------------------------------------------------------------- loading

  datatype LoadResult =
    | TooMany
    | NotCanonical
    | DatabaseFailed
    | NotAuthenticated
    | TargetNotFound
    | Loaded(records: seq<Record>)

  /** The row of the authorization statement. */
  datatype Authorization = Authorization(repeatableRead: bool, readOnly: bool, authenticated: bool, accessible: bool)

  /** What becomes of the statements of the load transaction; without an authorization row the database failed. */
  datatype Access = Access(authorization: Option<Authorization>, queryFails: nat -> bool, commitFails: bool)

  datatype AccessStatus = Serves | Fails | Unauthenticated | Inaccessible

  /** Authorization comes before every query, and authentication before access. */
  function Status(access: Access, batchCount: nat): AccessStatus {
    if access.authorization.None? then Fails
    else
      var Authorization(repeatableRead, readOnly, authenticated, accessible) := access.authorization.value;
      if !repeatableRead || !readOnly then Fails
      else if !authenticated then Unauthenticated
      else if !accessible then Inaccessible
      else if access.commitFails || exists b :: 0 <= b < batchCount && access.queryFails(b) then Fails
      else Serves
  }

  /** The eligible rows of one database snapshot, by chunk id. */
  ghost predicate Snapshot(rows: map<Uuid, Record>) {
    forall id :: id in rows ==> rows[id].chunkId == id
  }

  /** The rows of one batch, in whatever order the database returns them. */
  ghost predicate Arrival(batch: seq<Uuid>, arrived: seq<Record>, rows: map<Uuid, Record>) {
    forall x :: x in arrived <==> x.chunkId in batch && x.chunkId in rows && rows[x.chunkId] == x
  }

  /** The loaded records in candidate order, missing candidates skipped. */
  function InOrder(ids: seq<Uuid>, rows: map<Uuid, Record>): seq<Record> {
    if ids == [] then []
    else InOrder(ids[..|ids| - 1], rows) + if ids[|ids| - 1] in rows then [rows[ids[|ids| - 1]]] else []
  }

  lemma {:induction false} FlattenSnoc(batches: seq<seq<Uuid>>, i: nat)
    requires i < |batches|
    ensures Flattened(batches[..i + 1]) == Flattened(batches[..i]) + batches[i]
  {
    if i == 0 {
      assert batches[..1] == [batches[0]];
      assert Flattened([batches[0]]) == batches[0] + Flattened([batches[0]][1..]);
    } else {
      assert batches[..i + 1][1..] == batches[1..][..i];
      assert batches[..i][1..] == batches[1..][..i - 1];
      FlattenSnoc(batches[1..], i - 1);
    }
  }

  /** The rows of one batch join the dictionary. */
  method LoadBatch(batches: seq<seq<Uuid>>, b: nat, loaded: map<Uuid, Record>, rowsOf: seq<Uuid> -> seq<Record>,
                   ghost rows: map<Uuid, Record>)
    returns (more: map<Uuid, Record>)
    requires b < |batches| && Snapshot(rows) && forall batch :: Arrival(batch, rowsOf(batch), rows)
    requires LoadedFrom(Flattened(batches[..b]), rows, loaded)
    ensures LoadedFrom(Flattened(batches[..b + 1]), rows, more)
  {
    var arrived := rowsOf(batches[b]);
    more := loaded;
    for i := 0 to |arrived|
      invariant forall id :: id in more <==> id in loaded || exists k :: 0 <= k < i && arrived[k].chunkId == id
      invariant forall id :: id in more ==> id in rows && more[id] == rows[id]
    {
      assert arrived[i] in arrived;
      more := more[arrived[i].chunkId := arrived[i]];
    }
    FlattenSnoc(batches, b);
    ArrivalCovers(batches[b], arrived, rows);
  }

  lemma {:induction false} InOrderNext(ids: seq<Uuid>, rows: map<Uuid, Record>, loaded: map<Uuid, Record>, i: nat)
    requires i < |ids| && LoadedFrom(ids, rows, loaded)
    ensures ids[i] in loaded <==> ids[i] in rows
    ensures InOrder(ids[..i + 1], rows) == InOrder(ids[..i], rows) + if ids[i] in loaded then [loaded[ids[i]]] else []
  {
    Snoc(ids, i + 1);
    assert ids[i] in ids;
  }

  /** The loaded records in candidate order. */
  method InCandidateOrder(orderedIds: seq<Uuid>, loaded: map<Uuid, Record>, ghost rows: map<Uuid, Record>)
    returns (records: seq<Record>)
    requires LoadedFrom(orderedIds, rows, loaded)
    ensures records == InOrder(orderedIds, rows)
  {
    records := [];
    for i := 0 to |orderedIds|
      invariant records == InOrder(orderedIds[..i], rows)
    {
      InOrderNext(orderedIds, rows, loaded, i);
      if orderedIds[i] in loaded {
        records := records + [loaded[orderedIds[i]]];
      }
    }
    assert orderedIds[..|orderedIds|] == orderedIds;
  }

  method LoadAuthoritativeRecords(batches: seq<seq<Uuid>>, access: Access, rowsOf: seq<Uuid> -> seq<Record>,
                                  ghost rows: map<Uuid, Record>)
    returns (r: LoadResult)
    requires Snapshot(rows) && forall batch :: Arrival(batch, rowsOf(batch), rows)
    ensures r == TooMany <==> CanonicalCandidateBatches(Flattened(batches)) == LimitExceeded
    ensures r != TooMany && r != NotCanonical <==> CanonicalCandidateBatches(Flattened(batches)) == Batches(batches)
    ensures r != TooMany && r != NotCanonical ==>
      && (r == DatabaseFailed <==> Status(access, |batches|) == Fails)
      && (r == NotAuthenticated <==> Status(access, |batches|) == Unauthenticated)
      && (r == TargetNotFound <==> Status(access, |batches|) == Inaccessible)
    ensures r.Loaded? ==> r.records == InOrder(Flattened(batches), rows)
    // Nobody is served without being authenticated and given access in a read-only repeatable-read transaction.
    ensures r.Loaded? ==>
      && access.authorization.Some? && !access.commitFails
      && access.authorization.value == Authorization(true, true, true, true)
      && forall b :: 0 <= b < |batches| ==> !access.queryFails(b)
    ensures r == NotAuthenticated ==> access.authorization.Some? && !access.authorization.value.authenticated
    ensures r == TargetNotFound ==>
      access.authorization.Some? && access.authorization.value == Authorization(true, true, true, false)
    ensures r == DatabaseFailed ==>
      || access.authorization.None? || access.commitFails || (exists b :: 0 <= b < |batches| && access.queryFails(b))
      || !access.authorization.value.repeatableRead || !access.authorization.value.readOnly
  {
    var canonical := CanonicalCandidateBatches(Flattened(batches));
    if canonical == LimitExceeded {
      return TooMany;
    }
    if canonical != Batches(batches) {
      return NotCanonical;
    }
    if access.authorization.None? {
      return DatabaseFailed;
    }
    var authorization := access.authorization.value;
    if !authorization.repeatableRead || !authorization.readOnly {
      return DatabaseFailed;
    }
    if !authorization.authenticated {
      return NotAuthenticated;
    }
    if !authorization.accessible {
      return TargetNotFound;
    }
    var loaded: map<Uuid, Record> := map[];
    for b := 0 to |batches|
      invariant LoadedFrom(Flattened(batches[..b]), rows, loaded)
      invariant forall k :: 0 <= k < b ==> !access.queryFails(k)
    {
      if access.queryFails(b) {
        return DatabaseFailed;
      }
      loaded := LoadBatch(batches, b, loaded, rowsOf, rows);
    }
    if access.commitFails {
      return DatabaseFailed;
    }
    assert batches[..|batches|] == batches;
    var records := InCandidateOrder(Flattened(batches), loaded, rows);
    r := Loaded(records);
  }

  ghost predicate LoadedFrom(ids: seq<Uuid>, rows: map<Uuid, Record>, loaded: map<Uuid, Record>) {
    && (forall id :: id in loaded <==> id in ids && id in rows)
    && (forall id :: id in loaded ==> loaded[id] == rows[id])
  }

  lemma {:induction false} ArrivalCovers(batch: seq<Uuid>, arrived: seq<Record>, rows: map<Uuid, Record>)
    requires Snapshot(rows) && Arrival(batch, arrived, rows)
    ensures forall id :: (exists k :: 0 <= k < |arrived| && arrived[k].chunkId == id) <==> id in batch && id in rows
  {
    forall id | id in batch && id in rows
      ensures exists k :: 0 <= k < |arrived| && arrived[k].chunkId == id
    {
      assert rows[id] in arrived;
      var k :| 0 <= k < |arrived| && arrived[k] == rows[id];
    }
    forall k | 0 <= k < |arrived|
      ensures arrived[k].chunkId in batch && arrived[k].chunkId in rows
    {
      assert arrived[k] in arrived;
    }
  }

  lemma {:induction false} InOrderMembers(ids: seq<Uuid>, rows: map<Uuid, Record>)
    requires Snapshot(rows) && Ascending(ids)
    ensures var records := InOrder(ids, rows);
            && (forall x :: x in records <==> x.chunkId in ids && x.chunkId in rows && rows[x.chunkId] == x)
            && (forall i, j :: 0 <= i < j < |records| ==> records[i].chunkId < records[j].chunkId)
  {
    if ids != [] {
      var before, last := ids[..|ids| - 1], ids[|ids| - 1];
      InOrderMembers(before, rows);
      assert forall id :: id in ids <==> id in before || id == last;
      var records := InOrder(before, rows);
      forall i | 0 <= i < |records|
        ensures records[i].chunkId < last
      {
        assert records[i] in records;
        var k :| 0 <= k < |before| && before[k] == records[i].chunkId;
      }
    }
  }
}
