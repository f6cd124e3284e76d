/** Reciprocal rank fusion of authoritative records with its complete tie order. */
module Fusion {
  import opened Fractions
  import opened Options
  import Orders

  /** UUIDs compare as 128-bit integers. */
  type Uuid = nat

  const RRF_K := 60
  const MAX_PROVIDER_CANDIDATES := 128
  const MAX_REQUESTED := 50

  datatype Record = Record(chunkId: Uuid, content: int)

  type Rank = Option<nat>

  /** A record with its source ranks, before sorting. */
  datatype Scored = Scored(record: Record, keyword: Rank, dense: Rank) {
    predicate Valid() {
      keyword.Some? || dense.Some?
    }
  }

  datatype FusedRecord = FusedRecord(record: Record, keyword: Rank, dense: Rank, numerator: int, denominator: int,
    fusedRank: nat)

  datatype FusionResult = InvalidCount | Unavailable | Fused(records: seq<FusedRecord>)

  // ---------------------------------------------------------------- scores

  lemma {:induction false} UnitIsLowest(n: nat)
    requires n > 0
    ensures Lowest(Fraction(1, n)) && Lowest(Fraction(0, 1))
  {
    assert Gcd(1, 0) == 1;
    assert Gcd(0, 1) == Gcd(1, 0);
    if n > 1 {
      assert Gcd(n, 1) == Gcd(1, n % 1) == 1;
    }
  }

  function AddRank(score: Fraction, rank: Rank): (sum: Fraction)
    requires Lowest(score)
    ensures Lowest(sum)
  {
    match rank
    case None => score
    case Some(r) => UnitIsLowest(RRF_K + r); Add(score, Fraction(1, RRF_K + r))
  }

  function RrfScore(keyword: Rank, dense: Rank): (score: Fraction)
    requires keyword.Some? || dense.Some?
    ensures Lowest(score)
  {
    UnitIsLowest(1);
    AddRank(AddRank(Fraction(0, 1), keyword), dense)
  }

  /** What one source contributes: `1 / (60 + rank)`, or nothing when the chunk is absent there. */
  ghost function Term(rank: Rank): real {
    match rank
    case None => 0.0
    case Some(r) => 1.0 / (60 + r) as real
  }

  lemma {:induction false} AddRankIsExact(score: Fraction, rank: Rank)
    requires Lowest(score)
    ensures Value(AddRank(score, rank)) == Value(score) + Term(rank)
  {
    if rank.Some? {
      UnitIsLowest(RRF_K + rank.value);
      AddIsExact(score, Fraction(1, RRF_K + rank.value));
    }
  }

  lemma {:induction false} ScoreIsExact(keyword: Rank, dense: Rank)
    requires keyword.Some? || dense.Some?
    ensures Value(RrfScore(keyword, dense)) == Term(keyword) + Term(dense)
  {
    UnitIsLowest(1);
    AddRankIsExact(Fraction(0, 1), keyword);
    AddRankIsExact(AddRank(Fraction(0, 1), keyword), dense);
  }

  // ---------------------------------------------------------------- the five-part order

  function OrAbsent(rank: Rank): nat {
    if rank.Some? then rank.value else MAX_PROVIDER_CANDIDATES + 1
  }

  function BestRank(item: Scored): nat
    requires item.Valid()
  {
    if item.keyword.None? then item.dense.value
    else if item.dense.None? || item.keyword.value < item.dense.value then item.keyword.value
    else item.dense.value
  }

  function ScoreOf(item: Scored): Fraction
    requires item.Valid()
  {
    RrfScore(item.keyword, item.dense)
  }

  /** Tuple comparison of `(-score, min rank, keyword rank, dense rank, chunk id)`: the first unequal part decides. */
  predicate Before(a: Scored, b: Scored)
    requires a.Valid() && b.Valid()
  {
    if ScoreOf(a) != ScoreOf(b) then Less(ScoreOf(b), ScoreOf(a))
    else if BestRank(a) != BestRank(b) then BestRank(a) < BestRank(b)
    else if OrAbsent(a.keyword) != OrAbsent(b.keyword) then OrAbsent(a.keyword) < OrAbsent(b.keyword)
    else if OrAbsent(a.dense) != OrAbsent(b.dense) then OrAbsent(a.dense) < OrAbsent(b.dense)
    else a.record.chunkId < b.record.chunkId
  }

  datatype Key = Key(score: real, best: nat, keyword: nat, dense: nat, chunkId: Uuid)

  ghost function KeyOf(item: Scored): Key
    requires item.Valid()
  {
    Key(Term(item.keyword) + Term(item.dense), BestRank(item), OrAbsent(item.keyword), OrAbsent(item.dense),
      item.record.chunkId)
  }

  /** The same order on real scores. */
  ghost predicate KeyLess(a: Key, b: Key) {
    || a.score > b.score
    || (a.score == b.score && (
      || a.best < b.best
      || (a.best == b.best && (
        || a.keyword < b.keyword
        || (a.keyword == b.keyword && (a.dense < b.dense || (a.dense == b.dense && a.chunkId < b.chunkId)))))))
  }

  /** Comparing reduced fractions agrees with comparing `1/(60+k) + 1/(60+d)`. */
  lemma {:induction false} FractionsOrderAsReals(a: Scored, b: Scored)
    requires a.Valid() && b.Valid()
    ensures Before(a, b) <==> KeyLess(KeyOf(a), KeyOf(b))
  {
    var s, t := ScoreOf(a), ScoreOf(b);
    ScoreIsExact(a.keyword, a.dense);
    ScoreIsExact(b.keyword, b.dense);
    LessIsLess(t, s);
    if Value(s) == Value(t) {
      LowestIsUnique(t, s);
    }
  }

  /** A strict order, total on distinct chunk ids. */
  lemma {:induction false} BeforeIsStrictTotalOrder(a: Scored, b: Scored, c: Scored)
    requires a.Valid() && b.Valid() && c.Valid()
    ensures !Before(a, a)
    ensures Before(a, b) ==> !Before(b, a)
    ensures Before(a, b) && Before(b, c) ==> Before(a, c)
    ensures a.record.chunkId != b.record.chunkId ==> Before(a, b) || Before(b, a)
  {
    FractionsOrderAsReals(a, a);
    FractionsOrderAsReals(a, b);
    FractionsOrderAsReals(b, a);
    FractionsOrderAsReals(b, c);
    FractionsOrderAsReals(a, c);
  }

  /** `r` is at least as good as `s`; absent is infinitely bad. */
  predicate NoWorse(r: Rank, s: Rank) {
    s.None? || (r.Some? && r.value <= s.value)
  }

  lemma {:induction false} TermFalls(r: Rank, s: Rank)
    requires NoWorse(r, s)
    ensures Term(r) >= Term(s)
    ensures r != s ==> Term(r) > Term(s)
  {
    if r.Some? {
      var x := (60 + r.value) as real;
      assert x * (1.0 / x) == 1.0;
      if s.Some? && r != s {
        var y := (60 + s.value) as real;
        assert x < y;
        Reciprocal(x, y);
      }
    }
  }

  lemma {:induction false} Reciprocal(x: real, y: real)
    requires 0.0 < x < y
    ensures 1.0 / y < 1.0 / x
  {
    assert 1.0 / x - 1.0 / y == (y - x) / (x * y);
  }

  /** A chunk no worse in both ranks and better in one always precedes. */
  lemma {:induction false} DominatingChunkPrecedes(a: Scored, b: Scored)
    requires a.Valid() && b.Valid() && NoWorse(a.keyword, b.keyword) && NoWorse(a.dense, b.dense)
    requires a.keyword != b.keyword || a.dense != b.dense
    ensures Before(a, b)
  {
    TermFalls(a.keyword, b.keyword);
    TermFalls(a.dense, b.dense);
    FractionsOrderAsReals(a, b);
  }

  // ---------------------------------------------------------------- sorting

  ghost predicate AllValid(items: seq<Scored>) {
    forall i :: 0 <= i < |items| ==> items[i].Valid()
  }

  /** The sort order, as a relation on all items. */
  predicate Precedes(a: Scored, b: Scored) {
    a.Valid() && b.Valid() && Before(a, b)
  }

  ghost predicate Ordered(items: seq<Scored>) {
    Orders.Ordered(Precedes, items)
  }

  /** `scored.sort(key=...)`. */
  function Sorted(items: seq<Scored>): (sorted: seq<Scored>)
    ensures forall x :: x in sorted <==> x in items
    ensures |sorted| == |items|
  {
    Orders.Sorted(Precedes, items)
  }

  ghost predicate DistinctChunks(items: seq<Scored>) {
    forall i, j :: 0 <= i < j < |items| ==> items[i].record.chunkId != items[j].record.chunkId
  }

  lemma {:induction false} PrecedesIsAnOrder()
    ensures Orders.Asymmetric(Precedes) && Orders.Transitive(Precedes)
  {
    forall x: Scored, y: Scored | Precedes(x, y)
      ensures !Precedes(y, x)
    {
      BeforeIsStrictTotalOrder(x, y, y);
    }
    forall x: Scored, y: Scored, z: Scored | Precedes(x, y) && Precedes(y, z)
      ensures Precedes(x, z)
    {
      BeforeIsStrictTotalOrder(x, y, z);
    }
  }

  lemma {:induction false} SortedIsOrdered(items: seq<Scored>)
    requires AllValid(items) && DistinctChunks(items)
    ensures AllValid(Sorted(items)) && Ordered(Sorted(items))
  {
    PrecedesIsAnOrder();
    forall i, j | 0 <= i < j < |items|
      ensures Precedes(items[i], items[j]) || Precedes(items[j], items[i])
    {
      BeforeIsStrictTotalOrder(items[i], items[j], items[j]);
    }
    Orders.SortedIsOrdered(Precedes, items);
    forall i | 0 <= i < |items|
      ensures Sorted(items)[i].Valid()
    {
      assert Sorted(items)[i] in Sorted(items);
    }
  }

  /** Any correct sort gives this result. */
  lemma {:induction false} OrderedIsUnique(s: seq<Scored>, t: seq<Scored>)
    requires Ordered(s) && Ordered(t) && forall x :: x in s <==> x in t
    ensures s == t
  {
    PrecedesIsAnOrder();
    Orders.OrderedIsUnique(Precedes, s, t);
  }

  // ---------------------------------------------------------------- fusion

  function Lookup(ranks: map<Uuid, nat>, id: Uuid): Rank {
    if id in ranks then Some(ranks[id]) else None
  }

  function WithRanks(record: Record, keyword: map<Uuid, nat>, dense: map<Uuid, nat>): Scored {
    Scored(record, Lookup(keyword, record.chunkId), Lookup(dense, record.chunkId))
  }

  function AllWithRanks(records: seq<Record>, keyword: map<Uuid, nat>, dense: map<Uuid, nat>): seq<Scored> {
    seq(|records|, i requires 0 <= i < |records| => WithRanks(records[i], keyword, dense))
  }

  /** Every record is ranked by some source and no chunk comes twice. */
  ghost predicate Fusible(records: seq<Record>, keyword: map<Uuid, nat>, dense: map<Uuid, nat>) {
    && (forall i :: 0 <= i < |records| ==> records[i].chunkId in keyword || records[i].chunkId in dense)
    && (forall i, j :: 0 <= i < j < |records| ==> records[i].chunkId != records[j].chunkId)
  }

  function FusedOf(item: Scored, rank: nat): FusedRecord
    requires item.Valid()
  {
    FusedRecord(item.record, item.keyword, item.dense, ScoreOf(item).num, ScoreOf(item).den, rank)
  }

  function Smaller(a: nat, b: nat): nat {
    if a < b then a else b
  }

  /** The first `count` items, ranked from one. */
  function Numbered(items: seq<Scored>, count: nat): (fused: seq<FusedRecord>)
    requires forall x <- items :: x.Valid()
    ensures |fused| == Smaller(count, |items|)
    ensures forall i :: 0 <= i < |fused| ==> fused[i] == FusedOf(items[i], i + 1)
  {
    seq(Smaller(count, |items|), i requires 0 <= i < |items| => FusedOf(items[i], i + 1))
  }

  lemma {:induction false} RankedAreValid(records: seq<Record>, keyword: map<Uuid, nat>, dense: map<Uuid, nat>)
    requires Fusible(records, keyword, dense)
    ensures AllValid(AllWithRanks(records, keyword, dense)) && DistinctChunks(AllWithRanks(records, keyword, dense))
  {
  }

  /** The fused result of fusible records. */
  ghost function Fusion(records: seq<Record>, keyword: map<Uuid, nat>, dense: map<Uuid, nat>,
                        count: nat): seq<FusedRecord>
    requires Fusible(records, keyword, dense)
  {
    RankedAreValid(records, keyword, dense);
    Numbered(Sorted(AllWithRanks(records, keyword, dense)), count)
  }

  method FuseAuthoritativeRecords(records: seq<Record>, keyword: map<Uuid, nat>, dense: map<Uuid, nat>,
                                  requestedCount: int)
    returns (r: FusionResult)
    ensures r == InvalidCount <==> !(1 <= requestedCount <= 50)
    ensures 1 <= requestedCount <= 50 ==>
      r == if Fusible(records, keyword, dense) then
        Fused(Fusion(records, keyword, dense, requestedCount)) else Unavailable
  {
    if !(1 <= requestedCount <= MAX_REQUESTED) {
      return InvalidCount;
    }
    var byChunk: map<Uuid, Record> := map[];
    for i := 0 to |records|
      invariant Fusible(records[..i], keyword, dense)
      invariant forall id :: id in byChunk <==> exists k :: 0 <= k < i && records[k].chunkId == id
      invariant forall k :: 0 <= k < i ==> byChunk[records[k].chunkId] == records[k]
    {
      var chunkId := records[i].chunkId;
      if chunkId in byChunk || (chunkId !in keyword && chunkId !in dense) {
        assert forall k :: 0 <= k < i ==> records[..i][k] == records[k];
        return Unavailable;
      }
      byChunk := byChunk[chunkId := records[i]];
    }
    assert records[..|records|] == records;
    // The dictionary is read back in insertion order.
    var scored: seq<Scored> := [];
    for i := 0 to |records|
      invariant |scored| == i && forall k :: 0 <= k < i ==> scored[k] == WithRanks(records[k], keyword, dense)
    {
      var record := byChunk[records[i].chunkId];
      scored := scored + [Scored(record, Lookup(keyword, record.chunkId), Lookup(dense, record.chunkId))];
    }
    assert scored == AllWithRanks(records, keyword, dense);
    RankedAreValid(records, keyword, dense);
    r := Fused(Numbered(Sorted(scored), requestedCount));
  }

  /** Fused ranks are 1..m in the tie order, and a smaller request gives a prefix of a larger one. */
  lemma {:induction false} RanksAndPrefixes(records: seq<Record>, keyword: map<Uuid, nat>, dense: map<Uuid, nat>,
                                            small: nat, large: nat)
    requires Fusible(records, keyword, dense) && small <= large
    ensures var fused := Fusion(records, keyword, dense, large);
            && |fused| == Smaller(large, |records|)
            && (forall i :: 0 <= i < |fused| ==> fused[i].fusedRank == i + 1)
            && Fusion(records, keyword, dense, small) == fused[..Smaller(small, |records|)]
  {
    RankedAreValid(records, keyword, dense);
  }

  /** Records in any order of arrival fuse to the same result. */
  lemma {:induction false} FusionIgnoresArrivalOrder(a: seq<Record>, b: seq<Record>, keyword: map<Uuid, nat>,
                                                     dense: map<Uuid, nat>, count: nat)
    requires Fusible(a, keyword, dense) && Fusible(b, keyword, dense) && forall x :: x in a <==> x in b
    ensures Fusion(a, keyword, dense, count) == Fusion(b, keyword, dense, count)
  {
    var s, t := AllWithRanks(a, keyword, dense), AllWithRanks(b, keyword, dense);
    RankedAreValid(a, keyword, dense);
    RankedAreValid(b, keyword, dense);
    SortedIsOrdered(s);
    SortedIsOrdered(t);
    forall x: Scored
      ensures x in s <==> x in t
    {
      RankedMembers(a, keyword, dense, x);
      RankedMembers(b, keyword, dense, x);
    }
    OrderedIsUnique(Sorted(s), Sorted(t));
  }

  lemma {:induction false} RankedMembers(records: seq<Record>, keyword: map<Uuid, nat>, dense: map<Uuid, nat>,
                                         x: Scored)
    ensures x in AllWithRanks(records, keyword, dense) <==>
      x.record in records && x == WithRanks(x.record, keyword, dense)
  {
    var s := AllWithRanks(records, keyword, dense);
    if x.record in records && x == WithRanks(x.record, keyword, dense) {
      var i :| 0 <= i < |records| && records[i] == x.record;
      assert s[i] == x;
    }
  }

  function Surviving(items: seq<Scored>, keep: set<Uuid>): seq<Scored> {
    Orders.Filtered(items, (x: Scored) => x.record.chunkId in keep)
  }

  lemma {:induction false} SurvivingIsOrdered(items: seq<Scored>, keep: set<Uuid>)
    requires AllValid(items) && Ordered(items)
    ensures AllValid(Surviving(items, keep)) && Ordered(Surviving(items, keep))
    ensures forall x :: x in Surviving(items, keep) <==> x in items && x.record.chunkId in keep
  {
    var kept := (x: Scored) => x.record.chunkId in keep;
    Orders.FilteredIsOrdered(Precedes, items, kept);
    Orders.FilteredMembers(items, kept);
    assert forall i :: 0 <= i < |Surviving(items, keep)| ==> Surviving(items, keep)[i] in Surviving(items, keep);
  }

  /** Dropping stale or ineligible records leaves the survivors in the same relative order. */
  lemma {:induction false} DroppingKeepsOrder(all: seq<Record>, left: seq<Record>, keep: set<Uuid>,
                                              keyword: map<Uuid, nat>, dense: map<Uuid, nat>)
    requires Fusible(all, keyword, dense) && Fusible(left, keyword, dense)
    requires forall x :: x in left <==> x in all && x.chunkId in keep
    ensures forall x <- AllWithRanks(left, keyword, dense) + AllWithRanks(all, keyword, dense) :: x.Valid()
    ensures Sorted(AllWithRanks(left, keyword, dense)) == Surviving(Sorted(AllWithRanks(all, keyword, dense)), keep)
  {
    var s, t := AllWithRanks(all, keyword, dense), AllWithRanks(left, keyword, dense);
    RankedAreValid(all, keyword, dense);
    RankedAreValid(left, keyword, dense);
    SortedIsOrdered(s);
    SortedIsOrdered(t);
    SurvivingIsOrdered(Sorted(s), keep);
    forall x: Scored
      ensures x in t <==> x in s && x.record.chunkId in keep
    {
      RankedMembers(all, keyword, dense, x);
      RankedMembers(left, keyword, dense, x);
    }
    OrderedIsUnique(Sorted(t), Surviving(Sorted(s), keep));
  }

  // ---------------------------------------------------------------- the same, on fused records

  /** Fused records without their rank numbers. */
  function Unnumbered(fused: seq<FusedRecord>): seq<FusedRecord> {
    seq(|fused|, i requires 0 <= i < |fused| => fused[i].(fusedRank := 0))
  }

  function KeptRecords(fused: seq<FusedRecord>, keep: set<Uuid>): seq<FusedRecord> {
    Orders.Filtered(fused, (x: FusedRecord) => x.record.chunkId in keep)
  }

  function Plain(items: seq<Scored>): seq<FusedRecord>
    requires forall x <- items :: x.Valid()
  {
    seq(|items|, i requires 0 <= i < |items| => FusedOf(items[i], 0))
  }

  lemma {:induction false} PlainCons(head: Scored, rest: seq<Scored>)
    requires head.Valid() && forall x <- rest :: x.Valid()
    ensures forall x <- [head] + rest :: x.Valid()
    ensures Plain([head] + rest) == [FusedOf(head, 0)] + Plain(rest)
    ensures FusedOf(head, 0).record == head.record
  {
  }

  lemma {:induction false} KeptCons(head: FusedRecord, rest: seq<FusedRecord>, keep: set<Uuid>)
    ensures KeptRecords([head] + rest, keep) ==
      (if head.record.chunkId in keep then [head] else []) + KeptRecords(rest, keep)
  {
    assert ([head] + rest)[1..] == rest;
  }

  lemma {:induction false} PlainKept(items: seq<Scored>, keep: set<Uuid>)
    requires forall x <- items :: x.Valid()
    ensures forall x <- Surviving(items, keep) :: x.Valid()
    ensures KeptRecords(Plain(items), keep) == Plain(Surviving(items, keep))
  {
    if items != [] {
      var head, rest := items[0], items[1..];
      PlainKept(rest, keep);
      PlainCons(head, rest);
      PlainCons(head, Surviving(rest, keep));
      assert items == [head] + rest;
      KeptCons(FusedOf(head, 0), Plain(rest), keep);
    }
  }

  /** Without truncation, fusing what is left of the records gives the survivors of the whole result, renumbered. */
  lemma {:induction false} FusingWhatIsLeft(all: seq<Record>, left: seq<Record>, keep: set<Uuid>,
                                            keyword: map<Uuid, nat>,
                                            dense: map<Uuid, nat>, count: nat)
    requires Fusible(all, keyword, dense) && Fusible(left, keyword, dense) && |all| <= count && |left| <= count
    requires forall x :: x in left <==> x in all && x.chunkId in keep
    ensures Unnumbered(Fusion(left, keyword, dense, count)) ==
      KeptRecords(Unnumbered(Fusion(all, keyword, dense, count)), keep)
  {
    DroppingKeepsOrder(all, left, keep, keyword, dense);
    RankedAreValid(all, keyword, dense);
    RankedAreValid(left, keyword, dense);
    var s, t := Sorted(AllWithRanks(all, keyword, dense)), Sorted(AllWithRanks(left, keyword, dense));
    assert Unnumbered(Numbered(s, count)) == Plain(s) && Unnumbered(Numbered(t, count)) == Plain(t);
    PlainKept(s, keep);
  }
}
