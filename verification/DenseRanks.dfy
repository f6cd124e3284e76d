/** Absolute dense ranks of provider candidates, with rejected positions kept as gaps. */
module DenseRanks {
  import opened Options
  import opened Fusion
  import Orders

  const MAX_CANDIDATE_ID_BYTES := 128

  /** A provider identifier: not text, text without a UTF-8 encoding because of a lone surrogate, or text with its
      UTF-8 length and, when canonical, its chunk id. */
  datatype VectorId = NotText | Unencodable | TextId(utf8Bytes: nat, chunkId: Option<Uuid>)

  datatype ProviderScore = Absent | Finite | Unusable

  datatype Candidate = NotATriple | Candidate(vectorId: VectorId, score: ProviderScore, position: int)

  /** `EncodingError` is the exception of the failing encoder, which no handler turns into a provider error. */
  datatype DenseResult = ProviderError | EncodingError | Ranked(positionCount: nat, ranked: seq<(Uuid, nat)>)

  /** The candidate survives the local checks and names this chunk. */
  predicate Accepts(c: Candidate, id: Uuid) {
    c.Candidate? && c.score != Unusable && c.vectorId.TextId? && c.vectorId.chunkId == Some(id)
  }

  predicate InRange(c: Candidate, positionCount: int) {
    c.Candidate? && 0 <= c.position < positionCount
  }

  predicate ShortEnough(id: VectorId) {
    id.NotText? || (id.TextId? && id.utf8Bytes <= 128)
  }

  /** Checks that reject the whole provider answer. */
  predicate WellFormed(c: Candidate, positionCount: int) {
    InRange(c, positionCount) && ShortEnough(c.vectorId)
  }

  ghost predicate DistinctPositions(candidates: seq<Candidate>) {
    forall i, j :: 0 <= i < j < |candidates| && candidates[i].Candidate? && candidates[j].Candidate? ==>
      candidates[i].position != candidates[j].position
  }

  ghost predicate Acceptable(candidates: seq<Candidate>, positionCount: int) {
    && 0 <= positionCount <= 128 && |candidates| == positionCount
    && (forall c <- candidates :: WellFormed(c, positionCount))
    && DistinctPositions(candidates)
  }

  /** The first candidate that some check rejects is this one, and only because its identifier has no encoding. */
  ghost predicate UnencodableFirst(candidates: seq<Candidate>, positionCount: int, i: nat) {
    && i < |candidates| && (forall k :: 0 <= k < i ==> WellFormed(candidates[k], positionCount))
    && DistinctPositions(candidates[..i + 1])
    && InRange(candidates[i], positionCount) && candidates[i].vectorId.Unencodable?
  }

  ghost predicate MeetsUnencodable(candidates: seq<Candidate>, positionCount: int) {
    && 0 <= positionCount <= 128 && |candidates| == positionCount
    && exists i: nat :: UnencodableFirst(candidates, positionCount, i)
  }

  /** `rank` is one more than the least position at which the chunk was accepted. */
  ghost predicate LeastRank(candidates: seq<Candidate>, id: Uuid, rank: nat) {
    && (exists c <- candidates :: Accepts(c, id) && rank == c.position + 1)
    && (forall c <- candidates :: Accepts(c, id) ==> rank <= c.position + 1)
  }

  /** The accepted chunks with their ranks, in rank order; ranks of rejected positions do not occur. */
  ghost predicate IsRanking(candidates: seq<Candidate>, ranked: seq<(Uuid, nat)>) {
    && (forall id: Uuid, rank: nat :: (id, rank) in ranked <==> LeastRank(candidates, id, rank))
    && (forall i, j :: 0 <= i < j < |ranked| ==> ranked[i].1 < ranked[j].1)
  }

  // ---------------------------------------------------------------- the final check cannot fail

  function Range(n: nat): (range: set<int>)
    ensures forall i :: i in range <==> 0 <= i < n
  {
    if n == 0 then {} else Range(n - 1) + {n - 1}
  }

  lemma {:induction false} RangeSize(n: nat)
    ensures |Range(n)| == n
  {
    if n > 0 {
      RangeSize(n - 1);
    }
  }

  /** n distinct positions below n are all of them. */
  lemma {:induction false} PositionsFillTheRange(positions: set<int>, n: nat)
    requires |positions| == n && positions <= Range(n)
    ensures positions == Range(n)
  {
    RangeSize(n);
    var rest := Range(n) - positions;
    assert Range(n) == positions + rest && positions !! rest;
    assert |rest| == 0;
    assert positions + {} == positions;
  }

  // ---------------------------------------------------------------- sorting by rank

  function InsertByRank(items: seq<(Uuid, nat)>, item: (Uuid, nat)): seq<(Uuid, nat)> {
    if items == [] || item.1 < items[0].1 then [item] + items
    else [items[0]] + InsertByRank(items[1..], item)
  }

  ghost predicate ByRank(items: seq<(Uuid, nat)>) {
    forall i, j :: 0 <= i < j < |items| ==> items[i].1 < items[j].1
  }

  lemma {:induction false} InsertByRankSorts(items: seq<(Uuid, nat)>, item: (Uuid, nat))
    requires ByRank(items) && forall x <- items :: x.1 != item.1
    ensures ByRank(InsertByRank(items, item))
    ensures forall x :: x in InsertByRank(items, item) <==> x == item || x in items
    decreases |items|
  {
    if items != [] && item.1 >= items[0].1 {
      assert items[0] in items;
      InsertByRankSorts(items[1..], item);
      var inserted := InsertByRank(items[1..], item);
      assert forall i :: 0 <= i < |inserted| ==> inserted[i] in inserted;
    }
  }

  /** `tuple(sorted(ranks.items(), key=rank))`. */
  method SortedByRank(ranks: map<Uuid, nat>) returns (ranked: seq<(Uuid, nat)>)
    requires forall a, b :: a in ranks && b in ranks && a != b ==> ranks[a] != ranks[b]
    ensures ByRank(ranked)
    ensures forall id: Uuid, rank: nat :: (id, rank) in ranked <==> id in ranks && ranks[id] == rank
  {
    var left := ranks.Keys;
    ranked := [];
    while left != {}
      invariant left <= ranks.Keys
      invariant ByRank(ranked)
      invariant forall id: Uuid, rank: nat :: (id, rank) in ranked <==> id in ranks && id !in left && ranks[id] == rank
      decreases |left|
    {
      var id :| id in left;
      forall x | x in ranked
        ensures x.1 != ranks[id]
      {
        assert (x.0, x.1) in ranked;
      }
      InsertByRankSorts(ranked, (id, ranks[id]));
      ranked := InsertByRank(ranked, (id, ranks[id]));
      left := left - {id};
    }
  }

  // ---------------------------------------------------------------- the constructor

  /** The first `i` candidates are well formed, and these are their positions, all different. */
  ghost predicate Seen(candidates: seq<Candidate>, positionCount: nat, i: nat, positions: set<int>)
    requires i <= |candidates|
  {
    && (forall k :: 0 <= k < i ==> WellFormed(candidates[k], positionCount))
    && DistinctPositions(candidates[..i])
    && (forall p ::
      p in positions <==> exists k :: 0 <= k < i && candidates[k].Candidate? && candidates[k].position == p)
    && |positions| == i && positions <= Range(positionCount)
  }

  lemma {:induction false} SeeNext(candidates: seq<Candidate>, positionCount: nat, i: nat, positions: set<int>)
    requires i < |candidates| && Seen(candidates, positionCount, i, positions)
    requires WellFormed(candidates[i], positionCount) && candidates[i].position !in positions
    ensures Seen(candidates, positionCount, i + 1, positions + {candidates[i].position})
  {
  }

  lemma {:induction false} StillDistinct(candidates: seq<Candidate>, positionCount: nat, i: nat, positions: set<int>)
    requires i < |candidates| && Seen(candidates, positionCount, i, positions)
    requires candidates[i].Candidate? && candidates[i].position !in positions
    ensures DistinctPositions(candidates[..i + 1])
  {
  }

  lemma {:induction false} SeenTwice(candidates: seq<Candidate>, positionCount: nat, i: nat, positions: set<int>)
    requires i < |candidates| && Seen(candidates, positionCount, i, positions)
    requires candidates[i].Candidate? && candidates[i].position in positions
    ensures !DistinctPositions(candidates[..i + 1]) && !DistinctPositions(candidates)
  {
    var k :| 0 <= k < i && candidates[k].Candidate? && candidates[k].position == candidates[i].position;
  }

  /** A candidate that is rejected for anything else keeps the loop from an identifier without encoding. */
  lemma {:induction false} RejectedFirst(candidates: seq<Candidate>, positionCount: nat, i: nat, positions: set<int>)
    requires i < |candidates| && Seen(candidates, positionCount, i, positions)
    requires
      || !DistinctPositions(candidates[..i + 1]) || !InRange(candidates[i], positionCount)
      || !(candidates[i].vectorId.Unencodable? || ShortEnough(candidates[i].vectorId))
    ensures !MeetsUnencodable(candidates, positionCount) && !Acceptable(candidates, positionCount)
  {
    assert candidates[i] in candidates;
  }

  lemma {:induction false} NothingUnencodable(candidates: seq<Candidate>, positionCount: int)
    requires Acceptable(candidates, positionCount)
    ensures !MeetsUnencodable(candidates, positionCount)
  {
    assert forall k: nat :: k < |candidates| ==> candidates[k] in candidates;
  }

  lemma {:induction false} AllSeen(candidates: seq<Candidate>, positionCount: nat, positions: set<int>)
    requires Seen(candidates, positionCount, |candidates|, positions)
    requires |candidates| == positionCount <= MAX_PROVIDER_CANDIDATES
    ensures Acceptable(candidates, positionCount) && positions == Range(positionCount)
  {
    assert candidates[..|candidates|] == candidates;
    PositionsFillTheRange(positions, positionCount);
  }

  /** The end of the loop body: one more candidate, and the dictionary again holds every chunk's least accepted rank. */
  method RankCandidate(ranks: map<Uuid, nat>, candidate: Candidate, ghost candidates: seq<Candidate>, ghost i: nat)
    returns (next: map<Uuid, nat>)
    requires i < |candidates| && candidate == candidates[i] && candidate.Candidate? && candidate.position >= 0
    requires RanksAreBest(candidates, i, ranks)
    ensures RanksAreBest(candidates, i + 1, next)
  {
    next := ranks;
    if candidate.score == Unusable || !candidate.vectorId.TextId? || candidate.vectorId.chunkId.None? {
      BestNext(candidates, i, ranks, next);
      return;
    }
    var chunkId := candidate.vectorId.chunkId.value;
    var rank := candidate.position + 1;
    if chunkId !in ranks || rank < ranks[chunkId] {
      next := ranks[chunkId := rank];
    }
    BestNext(candidates, i, ranks, next);
  }

  method DenseProviderResult(positionCount: int, candidates: seq<Candidate>) returns (r: DenseResult)
    ensures r.Ranked? <==> Acceptable(candidates, positionCount)
    ensures r == EncodingError <==> MeetsUnencodable(candidates, positionCount)
    ensures r.Ranked? ==> r.positionCount == positionCount && IsRanking(candidates, r.ranked)
  {
    if !(0 <= positionCount <= MAX_PROVIDER_CANDIDATES) || |candidates| != positionCount {
      return ProviderError;
    }
    var positions: set<int> := {};
    var ranks: map<Uuid, nat> := map[];
    for i := 0 to |candidates|
      invariant Seen(candidates, positionCount, i, positions)
      invariant RanksAreBest(candidates, i, ranks)
    {
      var candidate := candidates[i];
      assert candidate in candidates;
      if candidate.NotATriple? {
        RejectedFirst(candidates, positionCount, i, positions);
        return ProviderError;
      }
      var position := candidate.position;
      if !(0 <= position < positionCount) {
        RejectedFirst(candidates, positionCount, i, positions);
        return ProviderError;
      }
      if position in positions {
        SeenTwice(candidates, positionCount, i, positions);
        RejectedFirst(candidates, positionCount, i, positions);
        return ProviderError;
      }
      if candidate.vectorId.Unencodable? {
        StillDistinct(candidates, positionCount, i, positions);
        assert UnencodableFirst(candidates, positionCount, i);
        return EncodingError;
      }
      if candidate.vectorId.TextId? && candidate.vectorId.utf8Bytes > MAX_CANDIDATE_ID_BYTES {
        RejectedFirst(candidates, positionCount, i, positions);
        return ProviderError;
      }
      SeeNext(candidates, positionCount, i, positions);
      positions := positions + {position};
      ranks := RankCandidate(ranks, candidate, candidates, i);
    }
    // The source's last check, that the positions are all of the range, cannot fail here.
    AllSeen(candidates, positionCount, positions);
    NothingUnencodable(candidates, positionCount);
    RanksAreLeast(candidates, ranks);
    RanksAreDistinct(candidates, positionCount, ranks);
    var ranked := SortedByRank(ranks);
    r := Ranked(positionCount, ranked);
  }

  // ---------------------------------------------------------------- a provider body

  /** A number that fits a finite float, another number, or a value of another type. */
  datatype Distance = FiniteNumber | OtherNumber | NotANumber

  /** The identifiers and distances of a provider answer. */
  datatype Body = Body(ids: seq<VectorId>, distances: seq<Distance>)

  /** Candidate tuples: a value of the wrong type rejects its own candidate only. */
  function Tuples(body: Body): seq<Candidate>
    requires |body.ids| == |body.distances|
  {
    seq(|body.ids|, i requires 0 <= i < |body.ids| =>
      Candidate(body.ids[i], if body.distances[i].NotANumber? then Unusable else Finite, i))
  }

  /** The entry at this index is a usable one of the chunk. */
  predicate Names(body: Body, k: int, id: Uuid)
    requires |body.ids| == |body.distances|
  {
    0 <= k < |body.ids| && body.ids[k].TextId? && body.ids[k].chunkId == Some(id) && !body.distances[k].NotANumber?
  }

  /** The rank is the place, counted from one, of the chunk's first usable entry. */
  ghost predicate FirstNamedAt(body: Body, id: Uuid, rank: int)
    requires |body.ids| == |body.distances|
  {
    Names(body, rank - 1, id) && forall k :: 0 <= k < rank - 1 ==> !Names(body, k, id)
  }

  lemma {:induction false} TupleNames(body: Body, k: nat, id: Uuid)
    requires |body.ids| == |body.distances| && k < |body.ids|
    ensures Tuples(body)[k] in Tuples(body) && Tuples(body)[k].position == k
    ensures Accepts(Tuples(body)[k], id) <==> Names(body, k, id)
  {
  }

  lemma {:induction false} PlacesAreRanks(body: Body, id: Uuid, rank: nat)
    requires |body.ids| == |body.distances|
    ensures LeastRank(Tuples(body), id, rank) <==> FirstNamedAt(body, id, rank)
  {
    forall k: nat | k < |body.ids|
      ensures Tuples(body)[k] in Tuples(body) && Tuples(body)[k].position == k
      ensures Accepts(Tuples(body)[k], id) <==> Names(body, k, id)
    {
      TupleNames(body, k, id);
    }
    if LeastRank(Tuples(body), id, rank) {
      var c :| c in Tuples(body) && Accepts(c, id) && rank == c.position + 1;
      var k :| 0 <= k < |body.ids| && Tuples(body)[k] == c;
      assert forall l: nat :: l < |body.ids| && Names(body, l, id) ==> rank <= Tuples(body)[l].position + 1;
    }
    if FirstNamedAt(body, id, rank) {
      assert Accepts(Tuples(body)[rank - 1], id);
      forall c <- Tuples(body) | Accepts(c, id)
        ensures rank <= c.position + 1
      {
        var k :| 0 <= k < |body.ids| && Tuples(body)[k] == c;
      }
    }
  }

  ghost predicate Measurable(body: Body, configuredCount: int) {
    && |body.ids| == |body.distances| && |body.ids| <= configuredCount && |body.ids| <= 128
    && forall distance <- body.distances :: !distance.OtherNumber?
  }

  ghost predicate UsableBody(body: Body, configuredCount: int) {
    Measurable(body, configuredCount) && forall id <- body.ids :: ShortEnough(id)
  }

  /** The first identifier that is not short enough has no encoding. */
  ghost predicate BodyMeetsUnencodable(body: Body, configuredCount: int) {
    && Measurable(body, configuredCount)
    && exists i ::
         0 <= i < |body.ids| && body.ids[i].Unencodable? && forall k :: 0 <= k < i ==> ShortEnough(body.ids[k])
  }

  lemma {:induction false} TuplesAreAcceptable(body: Body, configuredCount: int)
    requires UsableBody(body, configuredCount)
    ensures Acceptable(Tuples(body), |body.ids|)
  {
    forall c <- Tuples(body)
      ensures WellFormed(c, |body.ids|)
    {
      var i :| 0 <= i < |body.ids| && Tuples(body)[i] == c;
      assert body.ids[i] in body.ids;
    }
  }

  /** `_typed_result`: the first entry of the answer, the nearest, has rank one. Once the check of the identifiers has
      passed, the constructor rejects nothing. */
  method TypedResult(body: Body, configuredCount: int) returns (r: DenseResult)
    ensures r.Ranked? <==> UsableBody(body, configuredCount)
    ensures r == EncodingError <==> BodyMeetsUnencodable(body, configuredCount)
    ensures r.Ranked? ==> r.positionCount == |body.ids| && IsRanking(Tuples(body), r.ranked)
    ensures r.Ranked? ==> forall id: Uuid, rank: nat :: (id, rank) in r.ranked <==> FirstNamedAt(body, id, rank)
  {
    var positionCount := |body.ids|;
    if |body.distances| != positionCount || positionCount > configuredCount
       || positionCount > MAX_PROVIDER_CANDIDATES {
      return ProviderError;
    }
    for i := 0 to |body.distances|
      invariant forall k :: 0 <= k < i ==> !body.distances[k].OtherNumber?
    {
      if body.distances[i].OtherNumber? {
        assert body.distances[i] in body.distances;
        return ProviderError;
      }
    }
    for i := 0 to positionCount
      invariant forall k :: 0 <= k < i ==> ShortEnough(body.ids[k])
    {
      assert body.ids[i] in body.ids;
      if body.ids[i].Unencodable? {
        return EncodingError;
      }
      if body.ids[i].TextId? && body.ids[i].utf8Bytes > MAX_CANDIDATE_ID_BYTES {
        return ProviderError;
      }
    }
    TuplesAreAcceptable(body, configuredCount);
    r := DenseProviderResult(positionCount, Tuples(body));
    NothingUnencodable(Tuples(body), positionCount);
    forall id: Uuid, rank: nat
      ensures (id, rank) in r.ranked <==> FirstNamedAt(body, id, rank)
    {
      PlacesAreRanks(body, id, rank);
    }
  }

  const TOO_LONG := TextId(MAX_CANDIDATE_ID_BYTES + 1, None)

  /** One identifier with a lone surrogate is enough, and with an overlong one beside it their order decides which
      exception the caller sees. */
  lemma {:induction false} LoneSurrogateEscapes(configuredCount: int)
    requires configuredCount >= 2
    ensures BodyMeetsUnencodable(Body([Unencodable], [FiniteNumber]), configuredCount)
    ensures BodyMeetsUnencodable(Body([Unencodable, TOO_LONG], [FiniteNumber, FiniteNumber]), configuredCount)
    ensures !BodyMeetsUnencodable(Body([TOO_LONG, Unencodable], [FiniteNumber, FiniteNumber]), configuredCount)
  {
    assert Body([Unencodable], [FiniteNumber]).ids[0].Unencodable?;
    assert Body([Unencodable, TOO_LONG], [FiniteNumber, FiniteNumber]).ids[0].Unencodable?;
    assert !ShortEnough(Body([TOO_LONG, Unencodable], [FiniteNumber, FiniteNumber]).ids[0]);
  }

  /** The least accepted rank of a chunk, kept up to date candidate by candidate. */
  function BestSoFar(candidates: seq<Candidate>, id: Uuid): Option<int> {
    if candidates == [] then None
    else
      var last := candidates[|candidates| - 1];
      var best := BestSoFar(candidates[..|candidates| - 1], id);
      if Accepts(last, id) && (best.None? || last.position + 1 < best.value) then Some(last.position + 1) else best
  }

  ghost predicate RanksAreBest(candidates: seq<Candidate>, i: nat, ranks: map<Uuid, nat>)
    requires i <= |candidates|
  {
    forall id: Uuid :: Lookup(ranks, id) == BestSoFar(candidates[..i], id)
  }

  /** Only the chunk that the candidate names, if it is accepted, can get a new and better rank. */
  ghost predicate Updates(ranks: map<Uuid, nat>, c: Candidate, next: map<Uuid, nat>)
    requires c.Candidate?
  {
    forall id: Uuid ::
      Lookup(next, id) == if Accepts(c, id) && (id in ranks ==> c.position + 1 < ranks[id]) then Some(c.position + 1)
                          else Lookup(ranks, id)
  }

  lemma {:induction false} BestNext(candidates: seq<Candidate>, i: nat, ranks: map<Uuid, nat>, next: map<Uuid, nat>)
    requires i < |candidates| && candidates[i].Candidate? && candidates[i].position >= 0
    requires RanksAreBest(candidates, i, ranks) && Updates(ranks, candidates[i], next)
    ensures RanksAreBest(candidates, i + 1, next)
  {
    assert candidates[..i + 1][..i] == candidates[..i];
    forall id: Uuid
      ensures Lookup(next, id) == BestSoFar(candidates[..i + 1], id)
    {
      assert Lookup(ranks, id) == BestSoFar(candidates[..i], id);
    }
  }

  lemma {:induction false} BestIsLeast(candidates: seq<Candidate>, id: Uuid)
    ensures match BestSoFar(candidates, id)
            case None => forall c <- candidates :: !Accepts(c, id)
            case Some(rank) =>
              && (exists c <- candidates :: Accepts(c, id) && rank == c.position + 1)
              && (forall c <- candidates :: Accepts(c, id) ==> rank <= c.position + 1)
  {
    if candidates != [] {
      var before, last := candidates[..|candidates| - 1], candidates[|candidates| - 1];
      BestIsLeast(before, id);
      assert forall c :: c in candidates <==> c in before || c == last;
    }
  }

  lemma {:induction false} RanksAreLeast(candidates: seq<Candidate>, ranks: map<Uuid, nat>)
    requires RanksAreBest(candidates, |candidates|, ranks)
    ensures forall id: Uuid, rank: nat :: id in ranks && ranks[id] == rank <==> LeastRank(candidates, id, rank)
  {
    assert candidates[..|candidates|] == candidates;
    forall id: Uuid, rank: nat
      ensures id in ranks && ranks[id] == rank <==> LeastRank(candidates, id, rank)
    {
      BestIsLeast(candidates, id);
      assert Lookup(ranks, id) == BestSoFar(candidates, id);
    }
  }

  lemma {:induction false} SamePosition(candidates: seq<Candidate>, c: Candidate, d: Candidate)
    requires DistinctPositions(candidates) && c in candidates && d in candidates
    requires c.Candidate? && d.Candidate? && c.position == d.position
    ensures c == d
  {
    var i :| 0 <= i < |candidates| && candidates[i] == c;
    var j :| 0 <= j < |candidates| && candidates[j] == d;
    assert i == j;
  }

  lemma {:induction false} LeastRankDistinct(candidates: seq<Candidate>, a: Uuid, b: Uuid, rank: nat)
    requires DistinctPositions(candidates) && LeastRank(candidates, a, rank) && LeastRank(candidates, b, rank)
    ensures a == b
  {
    var c :| c in candidates && Accepts(c, a) && rank == c.position + 1;
    var d :| d in candidates && Accepts(d, b) && rank == d.position + 1;
    SamePosition(candidates, c, d);
  }

  lemma {:induction false} RanksAreDistinct(candidates: seq<Candidate>, positionCount: int, ranks: map<Uuid, nat>)
    requires DistinctPositions(candidates)
    requires forall id: Uuid, rank: nat :: id in ranks && ranks[id] == rank <==> LeastRank(candidates, id, rank)
    ensures forall a, b :: a in ranks && b in ranks && a != b ==> ranks[a] != ranks[b]
  {
    forall a, b | a in ranks && b in ranks && ranks[a] == ranks[b]
      ensures a == b
    {
      LeastRankDistinct(candidates, a, b, ranks[a]);
    }
  }

  // ---------------------------------------------------------------- order of the candidate tuples

  lemma {:induction false} RankingIsUnique(x: seq<(Uuid, nat)>, y: seq<(Uuid, nat)>)
    requires ByRank(x) && ByRank(y) && forall p :: p in x <==> p in y
    ensures x == y
  {
    Orders.OrderedIsUnique((p: (Uuid, nat), q: (Uuid, nat)) => p.1 < q.1, x, y);
  }

  lemma {:induction false} OccursTwice(candidates: seq<Candidate>, c: Candidate) returns (i: nat, j: nat)
    requires multiset(candidates)[c] >= 2
    ensures i < j < |candidates| && candidates[i] == c && candidates[j] == c
  {
    var last, before := |candidates| - 1, candidates[..|candidates| - 1];
    assert candidates == before + [candidates[last]];
    if candidates[last] == c {
      assert c in multiset(before);
      i, j :| 0 <= i < |before| && before[i] == c && j == last;
    } else {
      i, j := OccursTwice(before, c);
    }
  }

  lemma {:induction false} CountsTwice(candidates: seq<Candidate>, i: nat, j: nat)
    requires i < j < |candidates| && candidates[i] == candidates[j]
    ensures multiset(candidates)[candidates[i]] >= 2
  {
    assert candidates == candidates[..j] + candidates[j..];
    assert candidates[..j][i] in multiset(candidates[..j]);
    assert candidates[j..][0] in multiset(candidates[j..]);
  }

  lemma {:induction false} DistinctIgnoresOrder(a: seq<Candidate>, b: seq<Candidate>)
    requires multiset(a) == multiset(b) && DistinctPositions(a)
    ensures DistinctPositions(b)
  {
    forall i, j | 0 <= i < j < |b| && b[i].Candidate? && b[j].Candidate?
      ensures b[i].position != b[j].position
    {
      if b[i] == b[j] {
        CountsTwice(b, i, j);
        var k, l := OccursTwice(a, b[i]);
      } else {
        assert b[i] in multiset(a) && b[j] in multiset(a);
        var k :| 0 <= k < |a| && a[k] == b[i];
        var l :| 0 <= l < |a| && a[l] == b[j];
      }
    }
  }

  /** Any permutation of the candidate tuples is accepted alike and ranked alike. */
  lemma {:induction false} OrderDoesNotMatter(a: seq<Candidate>, b: seq<Candidate>, positionCount: int,
                           x: seq<(Uuid, nat)>, y: seq<(Uuid, nat)>)
    requires multiset(a) == multiset(b)
    ensures Acceptable(a, positionCount) <==> Acceptable(b, positionCount)
    ensures IsRanking(a, x) && IsRanking(b, y) ==> x == y
  {
    assert |a| == |multiset(a)| == |b|;
    forall c: Candidate
      ensures c in a <==> c in b
    {
      assert c in a <==> c in multiset(a);
      assert c in b <==> c in multiset(b);
    }
    if DistinctPositions(a) {
      DistinctIgnoresOrder(a, b);
    } else if DistinctPositions(b) {
      DistinctIgnoresOrder(b, a);
    }
    if IsRanking(a, x) && IsRanking(b, y) {
      forall p
        ensures p in x <==> p in y
      {
        assert p == (p.0, p.1);
        assert LeastRank(a, p.0, p.1) <==> LeastRank(b, p.0, p.1);
      }
      RankingIsUnique(x, y);
    }
  }

  ghost predicate AtPosition(ranked: seq<(Uuid, nat)>, id: Uuid, position: int) {
    position >= 0 && (id, position + 1) in ranked
  }

  /** A rank occurs exactly when its position was accepted first for its chunk. */
  lemma {:induction false} RejectedPositionsAreGaps(candidates: seq<Candidate>, positionCount: int,
                                                    ranked: seq<(Uuid, nat)>, c: Candidate)
    requires Acceptable(candidates, positionCount) && IsRanking(candidates, ranked) && c in candidates
    ensures (exists id :: AtPosition(ranked, id, c.position)) <==>
      exists id :: Accepts(c, id) && forall d <- candidates :: Accepts(d, id) ==> c.position <= d.position
  {
    if id :| AtPosition(ranked, id, c.position) {
      assert LeastRank(candidates, id, c.position + 1);
      var d :| d in candidates && Accepts(d, id) && c.position + 1 == d.position + 1;
      SamePosition(candidates, c, d);
    }
    if id :| Accepts(c, id) && forall d <- candidates :: Accepts(d, id) ==> c.position <= d.position {
      assert LeastRank(candidates, id, c.position + 1);
      assert AtPosition(ranked, id, c.position);
    }
  }
}
