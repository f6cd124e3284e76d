/** The derived vector index: what upserts and deletions do to it, and the in-memory adapter. */
module VectorStore {
  import opened CodePoints
  import opened Identifiers
  import opened Options

  type Embedding = seq<real>

  /** `uuid5(document, "index:hash")`, taken as injective. */
  datatype ChunkId = ChunkId(document: DocumentId, chunkIndex: nat, contentHash: Digest)

  /** `stable_vector_id`: the chunk id behind a fixed prefix. */
  datatype VectorId = VectorId(chunkId: ChunkId)

  datatype VectorRecord = VectorRecord(
    vectorId: VectorId,
    embedding: Embedding,
    knowledgeBase: KnowledgeBaseId,
    document: DocumentId,
    chunkId: ChunkId,
    chunkIndex: nat,
    text: Text,
    contentHash: Digest)

  type Index = map<VectorId, VectorRecord>

  // ---------------------------------------------------------------- the index as a value

  /** Records are written one after the other; a later one replaces an earlier one with its id. */
  function Upserted(index: Index, records: seq<VectorRecord>): Index {
    if records == [] then index
    else
      var last := records[|records| - 1];
      Upserted(index, records[..|records| - 1])[last.vectorId := last]
  }

  function AsIndex(records: seq<VectorRecord>): Index {
    Upserted(map[], records)
  }

  function OfDocument(index: Index, document: DocumentId): Index {
    map id | id in index && index[id].document == document :: index[id]
  }

  function WithoutDocument(index: Index, document: DocumentId): Index {
    map id | id in index && index[id].document != document :: index[id]
  }

  function WithoutChunks(index: Index, chunkIds: seq<ChunkId>): Index {
    map id | id in index && id.chunkId !in chunkIds :: index[id]
  }

  /** Delete the document's records, then write these. */
  function Refilled(index: Index, document: DocumentId, records: seq<VectorRecord>): Index {
    Upserted(WithoutDocument(index, document), records)
  }

  ghost predicate Distinct(records: seq<VectorRecord>) {
    forall i, j :: 0 <= i < j < |records| ==> records[i].vectorId != records[j].vectorId
  }

  ghost predicate HasDimension(records: seq<VectorRecord>, dimension: nat) {
    forall i :: 0 <= i < |records| ==> |records[i].embedding| == dimension
  }

  /** The record's id names its document. */
  predicate Keyed(record: VectorRecord) {
    record.vectorId == VectorId(record.chunkId) && record.chunkId.document == record.document
  }

  ghost predicate KeyedIndex(index: Index) {
    forall id :: id in index ==> index[id].vectorId == id && Keyed(index[id])
  }

  ghost predicate BelongTo(records: seq<VectorRecord>, document: DocumentId) {
    forall i :: 0 <= i < |records| ==> Keyed(records[i]) && records[i].document == document
  }

  /** With distinct ids the order of writing does not show: every record is found, everything else is as before. */
  lemma {:induction false} UpsertedLookup(index: Index, records: seq<VectorRecord>)
    requires Distinct(records)
    ensures forall i :: 0 <= i < |records| ==>
      records[i].vectorId in Upserted(index, records) && Upserted(index, records)[records[i].vectorId] == records[i]
    ensures forall id :: (forall i :: 0 <= i < |records| ==> records[i].vectorId != id) ==>
      (id in Upserted(index, records) <==> id in index) && (id in index ==> Upserted(index, records)[id] == index[id])
  {
    if records != [] {
      UpsertedLookup(index, records[..|records| - 1]);
    }
  }

  lemma {:induction false} UpsertedConcat(index: Index, a: seq<VectorRecord>, b: seq<VectorRecord>)
    ensures Upserted(index, a + b) == Upserted(Upserted(index, a), b)
  {
    if b == [] {
      assert a + b == a;
    } else {
      assert (a + b)[..|a + b| - 1] == a + b[..|b| - 1];
      UpsertedConcat(index, a, b[..|b| - 1]);
    }
  }

  /** The ids written are those of the records, and what is found under an id is one of the records or old. */
  lemma {:induction false} UpsertedSources(index: Index, records: seq<VectorRecord>, id: VectorId)
    requires id in Upserted(index, records)
    ensures (exists i :: 0 <= i < |records| && records[i].vectorId == id && Upserted(index, records)[id] == records[i])
         || (id in index && Upserted(index, records)[id] == index[id])
  {
    if records != [] && records[|records| - 1].vectorId != id {
      UpsertedSources(index, records[..|records| - 1], id);
    }
  }

  lemma {:induction false} UpsertedKeeps(index: Index, records: seq<VectorRecord>, id: VectorId)
    requires id in index || exists i :: 0 <= i < |records| && records[i].vectorId == id
    ensures id in Upserted(index, records)
  {
    if records != [] && records[|records| - 1].vectorId != id {
      if id !in index {
        var i :| 0 <= i < |records| && records[i].vectorId == id;
        assert records[..|records| - 1][i].vectorId == id;
      }
      UpsertedKeeps(index, records[..|records| - 1], id);
    }
  }

  /** Upserting one document's records touches the index of no other document. */
  lemma {:induction false} UpsertedOfDocument(index: Index, records: seq<VectorRecord>, document: DocumentId,
                                              other: DocumentId)
    requires KeyedIndex(index) && BelongTo(records, document)
    ensures KeyedIndex(Upserted(index, records))
    ensures OfDocument(Upserted(index, records), other) ==
            if other == document then Upserted(OfDocument(index, document), records) else OfDocument(index, other)
  {
    if records != [] {
      UpsertedOfDocument(index, records[..|records| - 1], document, other);
    }
  }

  lemma {:induction false} DeletedOfDocument(index: Index, document: DocumentId, other: DocumentId)
    ensures OfDocument(WithoutDocument(index, document), other) ==
            if other == document then map[] else OfDocument(index, other)
  {
  }

  /** Delete-then-write leaves exactly the written records for the document and nothing else changed. */
  lemma {:induction false} RefillIsExact(index: Index, document: DocumentId, records: seq<VectorRecord>,
                                         other: DocumentId)
    requires KeyedIndex(index) && BelongTo(records, document)
    ensures KeyedIndex(Refilled(index, document, records))
    ensures OfDocument(Refilled(index, document, records), other) ==
            if other == document then AsIndex(records) else OfDocument(index, other)
  {
    UpsertedOfDocument(WithoutDocument(index, document), records, document, other);
    DeletedOfDocument(index, document, other);
  }

  /** Two indexes that agree document by document are the same index. */
  lemma {:induction false} SameDocumentsSameIndex(a: Index, b: Index)
    requires forall d :: OfDocument(a, d) == OfDocument(b, d)
    ensures a == b
  {
    forall id
      ensures id in a <==> id in b
      ensures id in a ==> id in b && a[id] == b[id]
    {
      if id in a {
        assert id in OfDocument(a, a[id].document);
        assert OfDocument(a, a[id].document)[id] == OfDocument(b, a[id].document)[id];
      }
      if id in b {
        assert id in OfDocument(b, b[id].document);
      }
    }
  }

  /** Refilling with records the index already holds for the document changes nothing at all. */
  lemma {:induction false} RefillAgain(index: Index, document: DocumentId, records: seq<VectorRecord>)
    requires KeyedIndex(index) && BelongTo(records, document)
    ensures Refilled(index, document, records) == index <==> OfDocument(index, document) == AsIndex(records)
  {
    RefillIsExact(index, document, records, document);
    if OfDocument(index, document) == AsIndex(records) {
      forall d
        ensures OfDocument(Refilled(index, document, records), d) == OfDocument(index, d)
      {
        RefillIsExact(index, document, records, d);
      }
      SameDocumentsSameIndex(Refilled(index, document, records), index);
    }
  }

  ghost predicate Holds(index: Index, record: VectorRecord) {
    record.vectorId in index && index[record.vectorId] == record
  }

  ghost predicate PartOf(part: seq<VectorRecord>, whole: seq<VectorRecord>) {
    forall record <- part :: record in whole
  }

  lemma {:induction false} IdsTellApart(whole: seq<VectorRecord>, a: VectorRecord, b: VectorRecord)
    requires Distinct(whole) && a in whole && b in whole && a.vectorId == b.vectorId
    ensures a == b
  {
    var i :| 0 <= i < |whole| && whole[i] == a;
    var k :| 0 <= k < |whole| && whole[k] == b;
  }

  /** Writers that send records of one and the same list never take each other's records away. */
  lemma {:induction false} HeldAfterUpsert(index: Index, part: seq<VectorRecord>, whole: seq<VectorRecord>,
                                           record: VectorRecord)
    requires Distinct(whole) && PartOf(part, whole) && record in whole
    requires record in part || Holds(index, record)
    ensures Holds(Upserted(index, part), record)
  {
    if part != [] {
      var front, last := part[..|part| - 1], part[|part| - 1];
      assert last in part && forall other <- front :: other in part;
      if last.vectorId == record.vectorId {
        IdsTellApart(whole, last, record);
      } else {
        assert part == front + [last];
        HeldAfterUpsert(index, front, whole, record);
      }
    }
  }

  /** Records of a list give the whole list's index exactly when all of them are there. */
  lemma {:induction false} PartIsWhole(part: seq<VectorRecord>, whole: seq<VectorRecord>)
    requires Distinct(whole) && PartOf(part, whole)
    ensures AsIndex(part) == AsIndex(whole) <==> PartOf(whole, part)
  {
    if AsIndex(part) == AsIndex(whole) {
      forall record <- whole
        ensures record in part
      {
        HeldAfterUpsert(map[], whole, whole, record);
        UpsertedSources(map[], part, record.vectorId);
      }
    }
    if PartOf(whole, part) {
      forall id | id in AsIndex(part)
        ensures id in AsIndex(whole) && AsIndex(whole)[id] == AsIndex(part)[id]
      {
        UpsertedSources(map[], part, id);
        HeldAfterUpsert(map[], whole, whole, AsIndex(part)[id]);
      }
      forall id | id in AsIndex(whole)
        ensures id in AsIndex(part)
      {
        UpsertedSources(map[], whole, id);
        HeldAfterUpsert(map[], part, whole, AsIndex(whole)[id]);
      }
    }
  }

  // ---------------------------------------------------------------- batches

  /** `values[start : start + size] for start in range(0, len(values), size)`. */
  function Batches<T>(values: seq<T>, size: nat): seq<seq<T>>
    requires size > 0
  {
    if |values| <= size then (if values == [] then [] else [values])
    else [values[..size]] + Batches(values[size..], size)
  }

  function Joined<T>(batches: seq<seq<T>>): seq<T> {
    if batches == [] then [] else Joined(batches[..|batches| - 1]) + batches[|batches| - 1]
  }

  lemma {:induction false} JoinedFront<T>(first: seq<T>, rest: seq<seq<T>>)
    ensures Joined([first] + rest) == first + Joined(rest)
  {
    if rest == [] {
      assert [first] + rest == [first];
      assert [first][..0] == [];
      assert Joined([first]) == Joined([first][..0]) + first;
    } else {
      assert ([first] + rest)[..|rest|] == [first] + rest[..|rest| - 1];
      JoinedFront(first, rest[..|rest| - 1]);
    }
  }

  /** Batches are non-empty, never too long, only the last is short, and together they are the values in order. */
  lemma {:induction false} BatchesAreTheValues<T>(values: seq<T>, size: nat)
    requires size > 0
    ensures Joined(Batches(values, size)) == values
    ensures forall k :: 0 <= k < |Batches(values, size)| ==> 0 < |Batches(values, size)[k]| <= size
    ensures forall k :: 0 <= k < |Batches(values, size)| - 1 ==> |Batches(values, size)[k]| == size
    decreases |values|
  {
    if |values| > size {
      BatchesAreTheValues(values[size..], size);
      JoinedFront(values[..size], Batches(values[size..], size));
    } else if values != [] {
      JoinedFront(values, []);
      assert [values] + [] == [values];
    }
  }

  lemma {:induction false} JoinedPrefix<T>(batches: seq<seq<T>>, n: nat)
    requires n <= |batches|
    ensures |Joined(batches[..n])| <= |Joined(batches)|
    ensures Joined(batches)[..|Joined(batches[..n])|] == Joined(batches[..n])
  {
    if n == |batches| {
      assert batches[..n] == batches;
    } else {
      var front := batches[..|batches| - 1];
      JoinedPrefix(front, n);
      assert front[..n] == batches[..n];
    }
  }

  // ---------------------------------------------------------------- the in-memory adapter

  datatype Check = Accepted | DuplicateId(at: nat) | WrongDimension(at: nat)

  datatype StoreReply = Done | InputError | NotInitialized | ConfigurationError

  /** Some record before `at` has the id of the one at `at`. */
  ghost predicate RepeatsAnId(records: seq<VectorRecord>, at: nat)
    requires at < |records|
  {
    exists i :: 0 <= i < at && records[i].vectorId == records[at].vectorId
  }

  ghost predicate Offends(records: seq<VectorRecord>, dimension: nat, at: nat)
    requires at < |records|
  {
    RepeatsAnId(records, at) || |records[at].embedding| != dimension
  }

  ghost predicate CleanUpTo(records: seq<VectorRecord>, dimension: nat, n: nat)
    requires n <= |records|
  {
    forall at :: 0 <= at < n ==> !Offends(records, dimension, at)
  }

  /** The verdict names the first offending record, and a repeated id is noticed before a wrong dimension. */
  ghost predicate Verdict(records: seq<VectorRecord>, dimension: nat, check: Check) {
    match check
    case Accepted => CleanUpTo(records, dimension, |records|)
    case DuplicateId(at) => at < |records| && CleanUpTo(records, dimension, at) && RepeatsAnId(records, at)
    case WrongDimension(at) =>
      at < |records| && CleanUpTo(records, dimension, at) && !RepeatsAnId(records, at)
        && |records[at].embedding| != dimension
  }

  method ValidateRecords(records: seq<VectorRecord>, dimension: nat) returns (check: Check)
    ensures Verdict(records, dimension, check)
  {
    var seenIds: set<VectorId> := {};
    for n := 0 to |records|
      invariant seenIds == set i | 0 <= i < n :: records[i].vectorId
      invariant CleanUpTo(records, dimension, n)
    {
      if records[n].vectorId in seenIds {
        return DuplicateId(n);
      }
      seenIds := seenIds + {records[n].vectorId};
      if |records[n].embedding| != dimension {
        return WrongDimension(n);
      }
    }
    check := Accepted;
  }

  /** There is one verdict, and acceptance is exactly distinct ids of the right dimension. */
  lemma {:induction false} VerdictIsUnique(records: seq<VectorRecord>, dimension: nat, a: Check, b: Check)
    requires Verdict(records, dimension, a) && Verdict(records, dimension, b)
    ensures a == b
    ensures a.Accepted? <==> Distinct(records) && HasDimension(records, dimension)
  {
    assert !a.Accepted? ==> Offends(records, dimension, a.at);
    assert !b.Accepted? ==> Offends(records, dimension, b.at);
    if a.Accepted? {
      forall i, j | 0 <= i < j < |records|
        ensures records[i].vectorId != records[j].vectorId
      {
        assert !Offends(records, dimension, j);
      }
      forall i | 0 <= i < |records|
        ensures |records[i].embedding| == dimension
      {
        assert !Offends(records, dimension, i);
      }
    }
  }

  class InMemoryVectorStore {
    var modelId: Option<Text>
    var dimension: Option<nat>
    var records: Index

    constructor ()
      ensures modelId == None && dimension == None && records == map[]
    {
      modelId, dimension, records := None, None, map[];
    }

    method Initialize(modelId: Text, dimension: int) returns (reply: StoreReply)
      modifies this
      ensures records == old(records)
      ensures reply == InputError <==> AllSpace(modelId) || dimension <= 0
      ensures reply == Done <==>
        !AllSpace(modelId) && dimension > 0 &&
        (old(this.modelId) == None || (old(this.modelId) == Some(modelId) && old(this.dimension) == Some(dimension)))
      ensures reply != NotInitialized
      ensures this.modelId == if reply == Done then Some(modelId) else old(this.modelId)
      ensures this.dimension == if reply == Done then Some(dimension as nat) else old(this.dimension)
    {
      if AllSpace(modelId) || dimension <= 0 {
        return InputError;
      }
      if this.modelId == None {
        this.modelId := Some(modelId);
        this.dimension := Some(dimension);
        return Done;
      }
      if this.modelId != Some(modelId) || this.dimension != Some(dimension) {
        return ConfigurationError;
      }
      reply := Done;
    }

    /** All records are written, or none is. */
    method Upsert(batch: seq<VectorRecord>) returns (reply: StoreReply)
      modifies this`records
      ensures reply == NotInitialized <==> dimension == None
      ensures dimension.Some? ==> (reply == Done <==> Distinct(batch) && HasDimension(batch, dimension.value))
      ensures records == if reply == Done then Upserted(old(records), batch) else old(records)
      ensures reply != ConfigurationError
    {
      if dimension == None {
        return NotInitialized;
      }
      var check := ValidateRecords(batch, dimension.value);
      VerdictIsUnique(batch, dimension.value, check, check);
      if check != Accepted {
        return InputError;
      }
      for n := 0 to |batch|
        invariant records == Upserted(old(records), batch[..n])
      {
        assert batch[..n + 1][..n] == batch[..n];
        records := records[batch[n].vectorId := batch[n]];
      }
      assert batch[..|batch|] == batch;
      reply := Done;
    }

    method DeleteByDocument(document: DocumentId) returns (reply: StoreReply)
      modifies this`records
      ensures reply == if dimension == None then NotInitialized else Done
      ensures records == if reply == Done then WithoutDocument(old(records), document) else old(records)
      ensures reply == Done ==>
        forall id :: id in records <==> id in old(records) && old(records)[id].document != document
      ensures forall id :: id in records ==> id in old(records) && records[id] == old(records)[id]
    {
      if dimension == None {
        return NotInitialized;
      }
      records := map id | id in records && records[id].document != document :: records[id];
      reply := Done;
    }

    method DeleteByChunkIds(chunkIds: seq<ChunkId>) returns (reply: StoreReply)
      modifies this`records
      ensures reply == if dimension == None then NotInitialized else Done
      ensures records == if reply == Done then WithoutChunks(old(records), chunkIds) else old(records)
      ensures reply == Done ==> forall id :: id in records <==> id in old(records) && id.chunkId !in chunkIds
      ensures forall id :: id in records ==> id in old(records) && records[id] == old(records)[id]
    {
      if dimension == None {
        return NotInitialized;
      }
      for n := 0 to |chunkIds|
        invariant records == WithoutChunks(old(records), chunkIds[..n])
      {
        records := records - {VectorId(chunkIds[n])};
      }
      assert chunkIds[..|chunkIds|] == chunkIds;
      reply := Done;
    }
  }
}
