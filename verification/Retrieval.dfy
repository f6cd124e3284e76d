/** The hybrid retrieval flow: keyword ranks, dense ranks, authoritative loading and fusion. */
module Retrieval {
  import opened Options
  import opened Fusion
  import opened FusedOrder
  import opened DenseRanks
  import opened Candidates

  const DENSE_OVERFETCH_FACTOR := 4
  const MAX_KEYWORD_CANDIDATES := 128
  const MAX_UNIQUE_CANDIDATES := 192

  datatype KeywordCandidate = KeywordCandidate(chunkId: Uuid, keywordRank: int)

  datatype RetrievalResult =
    | RetrievalUnavailable
    | AuthenticationRefused
    | TargetRefused
    | EncodingEscapes
    | Retrieved(records: seq<FusedRecord>)

  /** The bounded dense over-fetch for a validated request. */
  function ConfiguredProviderCount(requestedCount: int): (count: int)
    requires 1 <= requestedCount <= MAX_REQUESTED
    ensures requestedCount <= count <= 128 && count <= requestedCount * 4
    ensures count < 128 ==> count == requestedCount * 4
  {
    Smaller(MAX_PROVIDER_CANDIDATES, requestedCount * DENSE_OVERFETCH_FACTOR)
  }

  // ---------------------------------------------------------------- keyword ranks

  ghost predicate UsableKeywords(candidates: seq<KeywordCandidate>) {
    && |candidates| <= 128
    && forall c <- candidates :: 1 <= c.keywordRank <= 128
  }

  /** Each candidate chunk with its least rank. */
  ghost predicate IsKeywordMap(candidates: seq<KeywordCandidate>, ranks: map<Uuid, nat>) {
    && (forall id :: id in ranks ==> exists c <- candidates :: c.chunkId == id && c.keywordRank == ranks[id])
    && (forall c <- candidates :: c.chunkId in ranks && ranks[c.chunkId] <= c.keywordRank)
  }

  method KeywordRankMap(candidates: seq<KeywordCandidate>) returns (r: Option<map<Uuid, nat>>)
    ensures r.Some? <==> UsableKeywords(candidates)
    ensures r.Some? ==> IsKeywordMap(candidates, r.value)
  {
    if |candidates| > MAX_KEYWORD_CANDIDATES {
      return None;
    }
    var ranks: map<Uuid, nat> := map[];
    for i := 0 to |candidates|
      invariant forall k :: 0 <= k < i ==> 1 <= candidates[k].keywordRank <= MAX_KEYWORD_CANDIDATES
      invariant forall id ::
        id in ranks ==> exists k :: 0 <= k < i && candidates[k].chunkId == id && candidates[k].keywordRank == ranks[id]
      invariant forall k ::
        0 <= k < i ==> candidates[k].chunkId in ranks && ranks[candidates[k].chunkId] <= candidates[k].keywordRank
    {
      var candidate := candidates[i];
      assert candidate in candidates;
      if !(1 <= candidate.keywordRank <= MAX_KEYWORD_CANDIDATES) {
        return None;
      }
      if candidate.chunkId !in ranks || candidate.keywordRank < ranks[candidate.chunkId] {
        ranks := ranks[candidate.chunkId := candidate.keywordRank];
      }
    }
    r := Some(ranks);
  }

  /** The keyword map depends only on which candidates occur, not on their order or repetition. */
  lemma {:induction false} KeywordMapIgnoresOrder(a: seq<KeywordCandidate>, b: seq<KeywordCandidate>,
                                                  x: map<Uuid, nat>, y: map<Uuid, nat>)
    requires IsKeywordMap(a, x) && IsKeywordMap(b, y) && forall c :: c in a <==> c in b
    ensures x == y
  {
    forall id
      ensures id in x <==> id in y
      ensures id in x && id in y ==> x[id] == y[id]
    {
      if id in x {
        var c :| c in a && c.chunkId == id && c.keywordRank == x[id];
      }
      if id in y {
        var c :| c in b && c.chunkId == id && c.keywordRank == y[id];
      }
    }
  }

  // ---------------------------------------------------------------- dense ranks

  ghost predicate IsDenseMap(candidates: seq<Candidate>, ranks: map<Uuid, nat>) {
    forall id: Uuid, rank: nat :: id in ranks && ranks[id] == rank <==> LeastRank(candidates, id, rank)
  }

  /** Checks the provider answer against the configured count and reads its ranks as a dictionary. */
  method DenseRankMap(result: DenseResult, configuredCount: int,
                      ghost candidates: seq<Candidate>) returns (r: Option<map<Uuid, nat>>)
    requires result.Ranked? ==> IsRanking(candidates, result.ranked)
    ensures r.Some? <==>
      result.Ranked? && result.positionCount <= configuredCount && result.positionCount <= 128
    ensures r.Some? ==> IsDenseMap(candidates, r.value)
  {
    if !result.Ranked? || result.positionCount > configuredCount
       || result.positionCount > MAX_PROVIDER_CANDIDATES {
      return None;
    }
    var ranks: map<Uuid, nat> := map[];
    var pairs := result.ranked;
    for i := 0 to |pairs|
      invariant forall id :: id in ranks ==> (id, ranks[id]) in pairs
      invariant forall k :: 0 <= k < i ==> pairs[k].0 in ranks
    {
      assert (pairs[i].0, pairs[i].1) == pairs[i];
      ranks := ranks[pairs[i].0 := pairs[i].1];
    }
    forall id: Uuid, rank: nat
      ensures id in ranks && ranks[id] == rank <==> LeastRank(candidates, id, rank)
    {
      if LeastRank(candidates, id, rank) {
        assert (id, rank) in pairs;
        var k :| 0 <= k < |pairs| && pairs[k] == (id, rank);
        assert LeastRank(candidates, id, ranks[id]);
      }
    }
    r := Some(ranks);
  }

  // ---------------------------------------------------------------- the whole flow

  /** What retrieval returns for these rank maps and this snapshot. */
  ghost function HybridRecords(keyword: map<Uuid, nat>, dense: map<Uuid, nat>, ids: seq<Uuid>,
                               rows: map<Uuid, Record>, count: nat): seq<FusedRecord>
    requires Snapshot(rows) && IsUnion(keyword, dense, ids)
  {
    LoadedIsFusible(keyword, dense, ids, rows);
    Fusion.Fusion(InOrder(ids, rows), keyword, dense, count)
  }

  /** The union of the ranked chunks, in ascending order. */
  ghost predicate IsUnion(keyword: map<Uuid, nat>, dense: map<Uuid, nat>, ids: seq<Uuid>) {
    Ascending(ids) && forall id :: id in ids <==> id in keyword || id in dense
  }

  lemma {:induction false} LoadedIsFusible(keyword: map<Uuid, nat>, dense: map<Uuid, nat>, ids: seq<Uuid>,
                                           rows: map<Uuid, Record>)
    requires Snapshot(rows) && IsUnion(keyword, dense, ids)
    ensures Fusible(InOrder(ids, rows), keyword, dense)
  {
    InOrderMembers(ids, rows);
    var records := InOrder(ids, rows);
    assert forall i :: 0 <= i < |records| ==> records[i] in records;
  }

  /** The rank maps of the candidates and their union. */
  ghost predicate Ranked(keywordCandidates: seq<KeywordCandidate>, denseCandidates: seq<Candidate>,
                         keyword: map<Uuid, nat>, dense: map<Uuid, nat>, ids: seq<Uuid>) {
    IsKeywordMap(keywordCandidates, keyword) && IsDenseMap(denseCandidates, dense) && IsUnion(keyword, dense, ids)
  }

  /** The records are the fused records of the union of the ranked chunks. */
  ghost predicate IsAnswer(keywordCandidates: seq<KeywordCandidate>, denseCandidates: seq<Candidate>,
                           rows: map<Uuid, Record>, count: int, records: seq<FusedRecord>)
    requires Snapshot(rows) && count >= 0
  {
    exists keyword, dense, ids ::
      Ranked(keywordCandidates, denseCandidates, keyword, dense, ids)
        && records == HybridRecords(keyword, dense, ids, rows, count)
  }

  /** A chunk's keyword rank is the least that a candidate gives it. */
  ghost predicate LeastKeywordRanks(candidates: seq<KeywordCandidate>, ranks: map<Uuid, nat>) {
    && (forall c <- candidates :: c.chunkId in ranks && ranks[c.chunkId] <= c.keywordRank)
    && (forall id :: id in ranks ==> exists c <- candidates :: c.chunkId == id && c.keywordRank == ranks[id])
  }

  /** A chunk's dense rank is the place of its first usable entry in the provider's answer. */
  ghost predicate PlacesInBody(body: Body, ranks: map<Uuid, nat>)
    requires |body.ids| == |body.distances|
  {
    forall id: Uuid, rank: nat :: id in ranks && ranks[id] == rank <==> FirstNamedAt(body, id, rank)
  }

  /** The rows that the snapshot has for the ranked chunks, each once. */
  ghost predicate IsPool(keyword: map<Uuid, nat>, dense: map<Uuid, nat>, rows: map<Uuid, Record>, pool: seq<Record>) {
    && (forall x :: x in pool <==>
          (x.chunkId in keyword || x.chunkId in dense) && x.chunkId in rows && rows[x.chunkId] == x)
    && (forall i, j :: 0 <= i < j < |pool| ==> pool[i] != pool[j])
  }

  /** The records are the fusion of the rows that the snapshot has for the ranked chunks. */
  ghost predicate AnswersTo(keywordCandidates: seq<KeywordCandidate>, body: Body, rows: map<Uuid, Record>, count: nat,
                            records: seq<FusedRecord>)
    requires |body.ids| == |body.distances|
  {
    exists keyword, dense, pool ::
      && LeastKeywordRanks(keywordCandidates, keyword) && PlacesInBody(body, dense)
      && IsPool(keyword, dense, rows, pool) && IsFusion(pool, keyword, dense, count, records)
  }

  lemma {:induction false} LoadedIsPool(keyword: map<Uuid, nat>, dense: map<Uuid, nat>, ids: seq<Uuid>,
                                        rows: map<Uuid, Record>)
    requires Snapshot(rows) && IsUnion(keyword, dense, ids)
    ensures IsPool(keyword, dense, rows, InOrder(ids, rows))
  {
    InOrderMembers(ids, rows);
  }

  lemma {:induction false} AnswerInFull(keywordCandidates: seq<KeywordCandidate>, body: Body, rows: map<Uuid, Record>,
                                        count: nat, records: seq<FusedRecord>)
    requires Snapshot(rows) && |body.ids| == |body.distances|
    requires IsAnswer(keywordCandidates, Tuples(body), rows, count, records)
    ensures AnswersTo(keywordCandidates, body, rows, count, records)
  {
    var keyword, dense, ids :|
      Ranked(keywordCandidates, Tuples(body), keyword, dense, ids)
        && records == HybridRecords(keyword, dense, ids, rows, count);
    LoadedIsPool(keyword, dense, ids, rows);
    LoadedIsFusible(keyword, dense, ids, rows);
    FusionIsRight(InOrder(ids, rows), keyword, dense, count);
    DenseMapIsPlaces(body, dense);
    assert LeastKeywordRanks(keywordCandidates, keyword);
  }

  lemma {:induction false} DenseMapIsPlaces(body: Body, dense: map<Uuid, nat>)
    requires |body.ids| == |body.distances| && IsDenseMap(Tuples(body), dense)
    ensures PlacesInBody(body, dense)
  {
    forall id: Uuid, rank: nat
      ensures id in dense && dense[id] == rank <==> FirstNamedAt(body, id, rank)
    {
      PlacesAreRanks(body, id, rank);
    }
  }

  ghost predicate TooManyCandidates(keywordCandidates: seq<KeywordCandidate>, denseCandidates: seq<Candidate>) {
    exists keyword, dense, ids ::
      Ranked(keywordCandidates, denseCandidates, keyword, dense, ids) && |ids| > 192
  }

  lemma {:induction false} NotTooMany(keywordCandidates: seq<KeywordCandidate>, denseCandidates: seq<Candidate>,
                                      keyword: map<Uuid, nat>, dense: map<Uuid, nat>, ids: seq<Uuid>)
    requires Ranked(keywordCandidates, denseCandidates, keyword, dense, ids)
    ensures TooManyCandidates(keywordCandidates, denseCandidates) <==> |ids| > MAX_UNIQUE_CANDIDATES
  {
    if k, d, i :| Ranked(keywordCandidates, denseCandidates, k, d, i) && |i| > MAX_UNIQUE_CANDIDATES {
      IncidentalOrderDoesNotMatter(keywordCandidates, keywordCandidates, denseCandidates, denseCandidates,
                                   keyword, k, dense, d, ids, i, map[], 1);
    }
  }

  /** The embedder's vectors, or its failure; a coordinate that is not a finite float is absent. */
  type Vectors = Option<seq<seq<Option<real>>>>

  /** Exactly one vector of the configured dimension, with finite coordinates. */
  predicate UsableEmbedding(vectors: Vectors, dimension: nat) {
    && vectors.Some? && |vectors.value| == 1 && |vectors.value[0]| == dimension
    && forall x <- vectors.value[0] :: x.Some?
  }

  /** The embedder's answer is used exactly when it is one vector of the configured dimension with finite
      coordinates. */
  lemma {:induction false} OneFiniteVector(vectors: Vectors, dimension: nat)
    ensures UsableEmbedding(vectors, dimension) <==>
      exists vector: seq<Option<real>> ::
        vectors == Some([vector]) && |vector| == dimension && forall i :: 0 <= i < |vector| ==> vector[i] != None
  {
    if UsableEmbedding(vectors, dimension) {
      var vector := vectors.value[0];
      assert vectors.value == [vector];
      assert forall i :: 0 <= i < |vector| ==> vector[i] in vector;
    }
  }

  /** How the load transaction ends for the union of the ranked chunks, when it is not too large. */
  ghost predicate LoadEnds(keywordCandidates: seq<KeywordCandidate>, denseCandidates: seq<Candidate>, access: Access,
                           status: AccessStatus) {
    exists keyword, dense, ids ::
      Ranked(keywordCandidates, denseCandidates, keyword, dense, ids)
        && |ids| <= 192 && Status(access, |InBatches(ids)|) == status
  }

  lemma {:induction false} LoadEndsOnce(keywordCandidates: seq<KeywordCandidate>, denseCandidates: seq<Candidate>,
                                        keyword: map<Uuid, nat>, dense: map<Uuid, nat>, ids: seq<Uuid>, access: Access,
                                        status: AccessStatus)
    requires Ranked(keywordCandidates, denseCandidates, keyword, dense, ids)
    ensures LoadEnds(keywordCandidates, denseCandidates, access, status) <==>
      |ids| <= MAX_UNIQUE_CANDIDATES && Status(access, |InBatches(ids)|) == status
  {
    if k, d, i :|
      Ranked(keywordCandidates, denseCandidates, k, d, i)
        && |i| <= MAX_UNIQUE_CANDIDATES && Status(access, |InBatches(i)|) == status {
      IncidentalOrderDoesNotMatter(keywordCandidates, keywordCandidates, denseCandidates, denseCandidates,
                                   keyword, k, dense, d, ids, i, map[], 1);
    }
  }

  /** What comes before the provider's answer is in order, and there is one. */
  ghost predicate Answerable(keywordCandidates: seq<KeywordCandidate>, vectors: Vectors, dimension: nat,
                             answer: Option<Body>) {
    UsableKeywords(keywordCandidates) && UsableEmbedding(vectors, dimension) && answer.Some?
  }

  /** An answer is absent when the provider boundary has refused it for any other reason than its identifiers and
      distances. */
  method Retrieve(keywordCandidates: seq<KeywordCandidate>, vectors: Vectors, dimension: nat, answer: Option<Body>,
                  requestedCount: int, unionOrder: seq<Uuid> -> seq<Uuid>, access: Access,
                  rowsOf: seq<Uuid> -> seq<Record>, ghost rows: map<Uuid, Record>)
    returns (r: RetrievalResult)
    requires 1 <= requestedCount <= MAX_REQUESTED
    requires Snapshot(rows) && forall batch :: Arrival(batch, rowsOf(batch), rows)
    // A set is iterated in some order, here the sorted ids rearranged.
    requires forall s, id :: id in unionOrder(s) <==> id in s
    ensures
      var count := ConfiguredProviderCount(requestedCount);
      if !Answerable(keywordCandidates, vectors, dimension, answer) then r == RetrievalUnavailable
      else if !UsableBody(answer.value, count) then
        r == if BodyMeetsUnencodable(answer.value, count) then EncodingEscapes else RetrievalUnavailable
      else
        var tuples := Tuples(answer.value);
        && (r == RetrievalUnavailable <==>
              TooManyCandidates(keywordCandidates, tuples) || LoadEnds(keywordCandidates, tuples, access, Fails))
        && (r == AuthenticationRefused <==> LoadEnds(keywordCandidates, tuples, access, Unauthenticated))
        && (r == TargetRefused <==> LoadEnds(keywordCandidates, tuples, access, Inaccessible))
        && (r.Retrieved? <==> LoadEnds(keywordCandidates, tuples, access, Serves))
        && (r.Retrieved? ==> IsAnswer(keywordCandidates, tuples, rows, requestedCount, r.records))
        && (r.Retrieved? ==> AnswersTo(keywordCandidates, answer.value, rows, requestedCount, r.records))
  {
    var keywordRanks := KeywordRankMap(keywordCandidates);
    if keywordRanks.None? {
      return RetrievalUnavailable;
    }
    if !UsableEmbedding(vectors, dimension) {
      return RetrievalUnavailable;
    }
    var providerCount := ConfiguredProviderCount(requestedCount);
    if answer.None? {
      return RetrievalUnavailable;
    }
    var denseResult := TypedResult(answer.value, providerCount);
    if denseResult.EncodingError? {
      return EncodingEscapes;
    }
    if denseResult.ProviderError? {
      return RetrievalUnavailable;
    }
    ghost var tuples := Tuples(answer.value);
    var denseRanks := DenseRankMap(denseResult, providerCount, tuples);
    r := RetrieveRanked(keywordRanks.value, denseRanks.value, requestedCount, unionOrder, access, rowsOf, rows,
      keywordCandidates, tuples);
    if r.Retrieved? {
      AnswerInFull(keywordCandidates, answer.value, rows, requestedCount, r.records);
    }
  }

  /** The flow from the rank maps on. */
  method RetrieveRanked(keyword: map<Uuid, nat>, dense: map<Uuid, nat>, requestedCount: int,
                        unionOrder: seq<Uuid> -> seq<Uuid>, access: Access, rowsOf: seq<Uuid> -> seq<Record>,
                        ghost rows: map<Uuid, Record>, ghost keywordCandidates: seq<KeywordCandidate>,
                        ghost tuples: seq<Candidate>)
    returns (r: RetrievalResult)
    requires 1 <= requestedCount <= MAX_REQUESTED
    requires Snapshot(rows) && forall batch :: Arrival(batch, rowsOf(batch), rows)
    requires forall s, id :: id in unionOrder(s) <==> id in s
    requires IsKeywordMap(keywordCandidates, keyword) && IsDenseMap(tuples, dense)
    ensures r == RetrievalUnavailable <==>
      TooManyCandidates(keywordCandidates, tuples) || LoadEnds(keywordCandidates, tuples, access, Fails)
    ensures r == AuthenticationRefused <==> LoadEnds(keywordCandidates, tuples, access, Unauthenticated)
    ensures r == TargetRefused <==> LoadEnds(keywordCandidates, tuples, access, Inaccessible)
    ensures r.Retrieved? <==> LoadEnds(keywordCandidates, tuples, access, Serves)
    ensures r.Retrieved? ==> IsAnswer(keywordCandidates, tuples, rows, requestedCount, r.records)
  {
    var union := keyword.Keys + dense.Keys;
    var sorted := Listed(union);
    AscendingSize(sorted, union);
    assert Ranked(keywordCandidates, tuples, keyword, dense, sorted);
    NotTooMany(keywordCandidates, tuples, keyword, dense, sorted);
    forall status
      ensures LoadEnds(keywordCandidates, tuples, access, status) <==>
        |sorted| <= MAX_UNIQUE_CANDIDATES && Status(access, |InBatches(sorted)|) == status
    {
      LoadEndsOnce(keywordCandidates, tuples, keyword, dense, sorted, access, status);
    }
    if |union| > MAX_UNIQUE_CANDIDATES {
      return RetrievalUnavailable;
    }
    r := LoadAndFuse(keyword, dense, sorted, requestedCount, unionOrder(sorted), access, rowsOf, rows);
  }

  function MembersOf(ids: seq<Uuid>): set<Uuid> {
    set id <- ids
  }

  ghost predicate AllDifferent(ids: seq<Uuid>) {
    forall i, j :: 0 <= i < j < |ids| ==> ids[i] != ids[j]
  }

  lemma {:induction false} AllDifferentSnoc(ids: seq<Uuid>, last: Uuid)
    ensures AllDifferent(ids + [last]) <==> AllDifferent(ids) && last !in ids
  {
    var more := ids + [last];
    assert forall i :: 0 <= i < |ids| ==> more[i] == ids[i];
    assert more[|ids|] == last;
    if last in ids {
      var i :| 0 <= i < |ids| && ids[i] == last;
      assert more[i] == last;
    }
  }

  /** A sequence has as many elements as places exactly when they all differ. */
  lemma {:induction false} DistinctSize(ids: seq<Uuid>)
    ensures |MembersOf(ids)| <= |ids|
    ensures |MembersOf(ids)| == |ids| <==> AllDifferent(ids)
  {
    if ids == [] {
      assert MembersOf(ids) == {};
    } else {
      var last, before := ids[|ids| - 1], ids[..|ids| - 1];
      DistinctSize(before);
      AllDifferentSnoc(before, last);
      assert ids == before + [last];
      assert MembersOf(ids) == MembersOf(before) + {last};
    }
  }

  /** The loaded ids are distinct and belong to the union. */
  method DistinctAndKnown(records: seq<Record>, keyword: map<Uuid, nat>, dense: map<Uuid, nat>) returns (ok: bool)
    ensures ok <==> Fusible(records, keyword, dense)
  {
    var ids := seq(|records|, i requires 0 <= i < |records| => records[i].chunkId);
    DistinctSize(ids);
    var distinct := MembersOf(ids);
    assert forall i :: 0 <= i < |records| ==> ids[i] in distinct && ids[i] == records[i].chunkId;
    ok := |distinct| == |records| && distinct <= keyword.Keys + dense.Keys;
    if Fusible(records, keyword, dense) {
      assert AllDifferent(ids);
      assert forall id :: id in distinct ==> id in keyword.Keys + dense.Keys;
    }
    if ok {
      assert forall i, j :: 0 <= i < j < |records| ==> ids[i] != ids[j];
    }
  }

  /** The union of the ranked chunks, in whatever order, is loaded batch by batch and fused; the check on the loaded
      ids never fires. */
  method LoadAndFuse(keyword: map<Uuid, nat>, dense: map<Uuid, nat>, ghost sorted: seq<Uuid>, requestedCount: int,
                     candidateIds: seq<Uuid>, access: Access, rowsOf: seq<Uuid> -> seq<Record>,
                     ghost rows: map<Uuid, Record>)
    returns (r: RetrievalResult)
    requires 1 <= requestedCount <= MAX_REQUESTED && |sorted| <= MAX_UNIQUE_CANDIDATES
    requires Snapshot(rows) && forall batch :: Arrival(batch, rowsOf(batch), rows)
    requires IsUnion(keyword, dense, sorted) && forall id :: id in candidateIds <==> id in sorted
    ensures
      match Status(access, |InBatches(sorted)|)
      case Fails => r == RetrievalUnavailable
      case Unauthenticated => r == AuthenticationRefused
      case Inaccessible => r == TargetRefused
      case Serves => r == Retrieved(HybridRecords(keyword, dense, sorted, rows, requestedCount))
  {
    UnionBatches(candidateIds, sorted);
    var batches := CanonicalCandidateBatches(candidateIds).batches;
    var loaded := LoadAuthoritativeRecords(batches, access, rowsOf, rows);
    match loaded
    case TooMany => assert false;
    case NotCanonical => assert false;
    case DatabaseFailed => return RetrievalUnavailable;
    case NotAuthenticated => return AuthenticationRefused;
    case TargetNotFound => return TargetRefused;
    case Loaded(records) =>
      LoadedIsFusible(keyword, dense, sorted, rows);
      var known := DistinctAndKnown(records, keyword, dense);
      if !known {
        return RetrievalUnavailable;
      }
      var fused := FuseAuthoritativeRecords(records, keyword, dense, requestedCount);
      r := Retrieved(fused.records);
  }

  lemma {:induction false} UnionBatches(candidateIds: seq<Uuid>, sorted: seq<Uuid>)
    requires Ascending(sorted) && |sorted| <= MAX_UNIQUE_CANDIDATES
    requires forall id :: id in candidateIds <==> id in sorted
    ensures CanonicalCandidateBatches(candidateIds) == Batches(InBatches(sorted))
    ensures CanonicalCandidateBatches(Flattened(InBatches(sorted))) == Batches(InBatches(sorted))
    ensures Flattened(InBatches(sorted)) == sorted
  {
    SortedDistinctIs(candidateIds);
    SortedDistinctIs(sorted);
    AscendingIsUnique(SortedDistinct(candidateIds), sorted);
    AscendingIsUnique(SortedDistinct(sorted), sorted);
    FlattenBatches(sorted);
  }

  /** The members of a set, listed in ascending order. */
  method Listed(ids: set<Uuid>) returns (list: seq<Uuid>)
    ensures Ascending(list) && forall id :: id in list <==> id in ids
  {
    list := [];
    var left := ids;
    while left != {}
      invariant left <= ids && Ascending(list)
      invariant forall id :: id in list <==> id in ids && id !in left
      decreases |left|
    {
      var id :| id in left;
      InsertIdSorts(list, id);
      list := InsertId(list, id);
      left := left - {id};
    }
  }

  /** From the same keyword candidates up to order and repetition, the same provider tuples up to order
      and the same snapshot, retrieval returns the same records whatever the set iteration and row order. */
  lemma {:induction false} IncidentalOrderDoesNotMatter(
    keywordsA: seq<KeywordCandidate>, keywordsB: seq<KeywordCandidate>,
    tuplesA: seq<Candidate>, tuplesB: seq<Candidate>,
    kA: map<Uuid, nat>, kB: map<Uuid, nat>, dA: map<Uuid, nat>, dB: map<Uuid, nat>, idsA: seq<Uuid>, idsB: seq<Uuid>,
    rows: map<Uuid, Record>, count: nat)
    requires forall c :: c in keywordsA <==> c in keywordsB
    requires multiset(tuplesA) == multiset(tuplesB)
    requires Snapshot(rows) && Ranked(keywordsA, tuplesA, kA, dA, idsA) && Ranked(keywordsB, tuplesB, kB, dB, idsB)
    ensures idsA == idsB
    ensures HybridRecords(kA, dA, idsA, rows, count) == HybridRecords(kB, dB, idsB, rows, count)
  {
    KeywordMapIgnoresOrder(keywordsA, keywordsB, kA, kB);
    forall c: Candidate
      ensures c in tuplesA <==> c in tuplesB
    {
      assert c in tuplesA <==> c in multiset(tuplesA);
      assert c in tuplesB <==> c in multiset(tuplesB);
    }
    forall id: Uuid
      ensures id in dA <==> id in dB
      ensures id in dA && id in dB ==> dA[id] == dB[id]
    {
      if id in dA {
        assert LeastRank(tuplesB, id, dA[id]) by {
          assert LeastRank(tuplesA, id, dA[id]);
        }
      }
      if id in dB {
        assert LeastRank(tuplesA, id, dB[id]) by {
          assert LeastRank(tuplesB, id, dB[id]);
        }
      }
    }
    assert dA == dB;
    AscendingIsUnique(idsA, idsB);
  }

  /** So whatever order the candidates, the provider tuples, the union and the rows arrive in, there is one answer. */
  lemma {:induction false} AnswersAgree(keywordsA: seq<KeywordCandidate>, keywordsB: seq<KeywordCandidate>,
                                        tuplesA: seq<Candidate>,
                                        tuplesB: seq<Candidate>, rows: map<Uuid, Record>, count: nat,
                                        a: seq<FusedRecord>, b: seq<FusedRecord>)
    requires Snapshot(rows)
    requires (forall c :: c in keywordsA <==> c in keywordsB) && multiset(tuplesA) == multiset(tuplesB)
    requires IsAnswer(keywordsA, tuplesA, rows, count, a) && IsAnswer(keywordsB, tuplesB, rows, count, b)
    ensures a == b
  {
    var kA, dA, idsA :| Ranked(keywordsA, tuplesA, kA, dA, idsA) && a == HybridRecords(kA, dA, idsA, rows, count);
    var kB, dB, idsB :| Ranked(keywordsB, tuplesB, kB, dB, idsB) && b == HybridRecords(kB, dB, idsB, rows, count);
    IncidentalOrderDoesNotMatter(keywordsA, keywordsB, tuplesA, tuplesB, kA, kB, dA, dB, idsA, idsB, rows, count);
  }

  lemma {:induction false} InOrderShrinks(ids: seq<Uuid>, before: map<Uuid, Record>, now: map<Uuid, Record>)
    requires forall id :: id in now ==> id in before
    ensures |InOrder(ids, now)| <= |InOrder(ids, before)|
  {
    if ids != [] {
      InOrderShrinks(ids[..|ids| - 1], before, now);
    }
  }

  /** When candidates have become stale or ineligible and the request truncates nothing, the answer from the smaller
      snapshot is the answer from the larger one without them, in the same relative order and with the same scores. */
  lemma {:induction false} StaleCandidatesDropOut(keyword: map<Uuid, nat>, dense: map<Uuid, nat>, ids: seq<Uuid>,
                                                  before: map<Uuid, Record>, now: map<Uuid, Record>, count: nat)
    requires Snapshot(before) && Snapshot(now) && IsUnion(keyword, dense, ids) && |InOrder(ids, before)| <= count
    requires forall id :: id in now ==> id in before && now[id] == before[id]
    ensures Unnumbered(HybridRecords(keyword, dense, ids, now, count)) ==
            KeptRecords(Unnumbered(HybridRecords(keyword, dense, ids, before, count)), now.Keys)
  {
    LoadedIsFusible(keyword, dense, ids, before);
    LoadedIsFusible(keyword, dense, ids, now);
    InOrderMembers(ids, before);
    InOrderMembers(ids, now);
    InOrderShrinks(ids, before, now);
    FusingWhatIsLeft(InOrder(ids, before), InOrder(ids, now), now.Keys, keyword, dense, count);
  }
}
