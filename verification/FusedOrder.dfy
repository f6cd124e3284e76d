/** The order and the content of fused records, on ranks and scores alone. */
module FusedOrder {
  import opened Fractions
  import opened Fusion
  import opened Options

  /** The exact score, `1 / (60 + rank)` for each source that ranks the chunk. */
  ghost function Score(keyword: Rank, dense: Rank): real {
    (if keyword.Some? then 1.0 / (60 + keyword.value) as real else 0.0)
      + (if dense.Some? then 1.0 / (60 + dense.value) as real else 0.0)
  }

  predicate HasRank(item: Scored, rank: nat) {
    item.keyword == Some(rank) || item.dense == Some(rank)
  }

  /** Some rank of the one is smaller than every rank of the other. */
  ghost predicate BetterRanked(a: Scored, b: Scored) {
    exists r :: HasRank(a, r) && forall q :: HasRank(b, q) ==> r < q
  }

  /** Between two sources' ranks the smaller one goes first. An absent rank stands behind 128, the last that a provider
      can give. */
  predicate EarlierRank(a: Rank, b: Rank) {
    match (a, b)
    case (Some(x), Some(y)) => x < y
    case (Some(x), None) => x <= 128
    case (None, Some(y)) => 129 < y
    case (None, None) => false
  }

  /** The higher score goes first; at equal scores the better least rank; then the earlier keyword rank; then the
      earlier dense rank; then the smaller chunk id. */
  ghost predicate GoesFirst(a: Scored, b: Scored) {
    var s, t := Score(a.keyword, a.dense), Score(b.keyword, b.dense);
    || s > t
    || (s == t && (
      || BetterRanked(a, b)
      || (!BetterRanked(b, a) && (
        || EarlierRank(a.keyword, b.keyword)
        || (!EarlierRank(b.keyword, a.keyword) && (
          || EarlierRank(a.dense, b.dense)
          || (!EarlierRank(b.dense, a.dense) && a.record.chunkId < b.record.chunkId)))))))
  }

  lemma {:induction false} BestIsBest(a: Scored, b: Scored)
    requires a.Valid() && b.Valid()
    ensures BetterRanked(a, b) <==> BestRank(a) < BestRank(b)
  {
    assert HasRank(a, BestRank(a)) && HasRank(b, BestRank(b));
  }

  lemma {:induction false} AbsentStandsBehind(a: Rank, b: Rank)
    ensures EarlierRank(a, b) <==> OrAbsent(a) < OrAbsent(b)
  {
  }

  lemma {:induction false} ScoreIsTerms(item: Scored)
    ensures Score(item.keyword, item.dense) == Term(item.keyword) + Term(item.dense)
  {
  }

  /** The sort key means this order. */
  lemma {:induction false} OrderOnRanks(a: Scored, b: Scored)
    requires a.Valid() && b.Valid()
    ensures Before(a, b) <==> GoesFirst(a, b)
  {
    FractionsOrderAsReals(a, b);
    ScoreIsTerms(a);
    ScoreIsTerms(b);
    BestIsBest(a, b);
    BestIsBest(b, a);
    AbsentStandsBehind(a.keyword, b.keyword);
    AbsentStandsBehind(b.keyword, a.keyword);
    AbsentStandsBehind(a.dense, b.dense);
    AbsentStandsBehind(b.dense, a.dense);
  }

  /** At equal scores and least ranks a chunk with a keyword rank goes before one without. */
  lemma {:induction false} KeywordGoesFirst(a: Scored, b: Scored)
    requires a.Valid() && b.Valid() && Score(a.keyword, a.dense) == Score(b.keyword, b.dense)
    requires !BetterRanked(a, b) && !BetterRanked(b, a)
    requires a.keyword.Some? && a.keyword.value <= 128 && b.keyword.None?
    ensures Before(a, b)
  {
    OrderOnRanks(a, b);
  }

  // ---------------------------------------------------------------- the fused records

  function ItemOf(fused: FusedRecord): Scored {
    Scored(fused.record, fused.keyword, fused.dense)
  }

  /** The record carries its own ranks and its exact score as a fraction. */
  ghost predicate CarriesItsScore(fused: FusedRecord, keyword: map<Uuid, nat>, dense: map<Uuid, nat>) {
    var id := fused.record.chunkId;
    && fused.keyword == (if id in keyword then Some(keyword[id]) else None)
    && fused.dense == (if id in dense then Some(dense[id]) else None)
    && fused.denominator > 0
    && fused.numerator as real / fused.denominator as real == Score(fused.keyword, fused.dense)
    && forall d :: d > 1 && Divides(d, fused.numerator) ==> !Divides(d, fused.denominator)
  }

  ghost predicate ItemComesAfter(fused: FusedRecord, record: Record, keyword: map<Uuid, nat>, dense: map<Uuid, nat>) {
    var id := record.chunkId;
    GoesFirst(ItemOf(fused), Scored(record, if id in keyword then Some(keyword[id]) else None,
                                    if id in dense then Some(dense[id]) else None))
  }

  /** The first `count` of the records in the order, each with its rank in it; all others stand behind. */
  ghost predicate IsFusion(records: seq<Record>, keyword: map<Uuid, nat>, dense: map<Uuid, nat>, count: nat,
                           fused: seq<FusedRecord>) {
    && |fused| == (if count < |records| then count else |records|)
    && (forall i :: 0 <= i < |fused| ==>
          fused[i].record in records && fused[i].fusedRank == i + 1 && CarriesItsScore(fused[i], keyword, dense))
    && (forall i, j :: 0 <= i < j < |fused| ==> GoesFirst(ItemOf(fused[i]), ItemOf(fused[j])))
    && forall record <- records :: (exists i :: 0 <= i < |fused| && fused[i].record == record)
         || forall i :: 0 <= i < |fused| ==> ItemComesAfter(fused[i], record, keyword, dense)
  }

  lemma {:induction false} MultipleIsNotOne(k: int, d: int)
    requires d > 1
    ensures k * d != 1
  {
    if k <= 0 {
      assert k * d <= 0;
    } else {
      assert k * d >= d;
    }
  }

  lemma {:induction false} NoCommonDivisor(f: Fraction, d: int)
    requires Lowest(f) && d > 1 && Divides(d, f.num)
    ensures !Divides(d, f.den)
  {
    var x, y := Bezout(f.num, f.den);
    var p :| f.num == p * d;
    if q :| f.den == q * d {
      assert x * (p * d) + y * (q * d) == (x * p + y * q) * d;
      MultipleIsNotOne(x * p + y * q, d);
    }
  }

  lemma {:induction false} FusedCarriesItsScore(item: Scored, rank: nat, keyword: map<Uuid, nat>,
                                                dense: map<Uuid, nat>)
    requires item.Valid() && item == WithRanks(item.record, keyword, dense)
    ensures CarriesItsScore(FusedOf(item, rank), keyword, dense) && ItemOf(FusedOf(item, rank)) == item
  {
    var f := ScoreOf(item);
    ScoreIsExact(item.keyword, item.dense);
    forall d | d > 1 && Divides(d, f.num)
      ensures !Divides(d, f.den)
    {
      NoCommonDivisor(f, d);
    }
  }

  lemma {:induction false} OrderedGoFirst(items: seq<Scored>, i: nat, j: nat)
    requires AllValid(items) && Ordered(items) && i < j < |items|
    ensures GoesFirst(items[i], items[j])
  {
    OrderOnRanks(items[i], items[j]);
  }

  lemma {:induction false} OthersComeAfter(records: seq<Record>, keyword: map<Uuid, nat>, dense: map<Uuid, nat>,
                                           count: nat, record: Record)
    requires Fusible(records, keyword, dense) && record in records
    ensures
      var fused := Fusion.Fusion(records, keyword, dense, count);
      || (exists i :: 0 <= i < |fused| && fused[i].record == record)
      || forall i :: 0 <= i < |fused| ==> ItemComesAfter(fused[i], record, keyword, dense)
  {
    RankedAreValid(records, keyword, dense);
    var items := AllWithRanks(records, keyword, dense);
    SortedIsOrdered(items);
    var sorted := Sorted(items);
    var fused := Fusion.Fusion(records, keyword, dense, count);
    var item := WithRanks(record, keyword, dense);
    RankedMembers(records, keyword, dense, item);
    var k :| 0 <= k < |sorted| && sorted[k] == item;
    if k < |fused| {
      assert fused[k].record == record;
    } else {
      forall i | 0 <= i < |fused|
        ensures ItemComesAfter(fused[i], record, keyword, dense)
      {
        OrderedGoFirst(sorted, i, k);
      }
    }
  }

  /** What fusion returns, without naming how it sorts or scores. */
  lemma {:induction false} FusionIsRight(records: seq<Record>, keyword: map<Uuid, nat>, dense: map<Uuid, nat>,
                                         count: nat)
    requires Fusible(records, keyword, dense)
    ensures IsFusion(records, keyword, dense, count, Fusion.Fusion(records, keyword, dense, count))
  {
    RankedAreValid(records, keyword, dense);
    var items := AllWithRanks(records, keyword, dense);
    SortedIsOrdered(items);
    var sorted := Sorted(items);
    var fused := Fusion.Fusion(records, keyword, dense, count);
    forall i | 0 <= i < |fused|
      ensures fused[i].record in records && fused[i].fusedRank == i + 1 && CarriesItsScore(fused[i], keyword, dense)
      ensures ItemOf(fused[i]) == sorted[i]
    {
      assert sorted[i] in sorted;
      RankedMembers(records, keyword, dense, sorted[i]);
      FusedCarriesItsScore(sorted[i], i + 1, keyword, dense);
    }
    forall i, j | 0 <= i < j < |fused|
      ensures GoesFirst(ItemOf(fused[i]), ItemOf(fused[j]))
    {
      OrderedGoFirst(sorted, i, j);
    }
    forall record <- records
      ensures (exists i :: 0 <= i < |fused| && fused[i].record == record)
           || forall i :: 0 <= i < |fused| ==> ItemComesAfter(fused[i], record, keyword, dense)
    {
      OthersComeAfter(records, keyword, dense, count, record);
    }
  }

  /** Of two chunks exactly one goes first. */
  lemma {:induction false} GoesFirstIsStrict(a: Scored, b: Scored)
    requires a.Valid() && b.Valid()
    ensures GoesFirst(a, b) ==> !GoesFirst(b, a) && a != b
    ensures a.record.chunkId != b.record.chunkId ==> GoesFirst(a, b) || GoesFirst(b, a)
  {
    OrderOnRanks(a, b);
    OrderOnRanks(b, a);
    BeforeIsStrictTotalOrder(a, b, b);
  }
}
