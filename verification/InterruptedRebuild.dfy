/** A rebuild of two documents that raises after it has rewritten the first. */
module InterruptedRebuild {
  import opened CodePoints
  import opened Identifiers
  import opened Jobs
  import opened Options
  import opened Rebuild
  import opened RebuildListing
  import opened RebuildService
  import opened Records
  import opened VectorStore

  const SETTINGS := Settings(text => [1.0], [0x6D], 1, 1)

  function Chunk(d: DocumentId): DurableChunk {
    DurableChunk(ChunkId(d, 0, 1), [0x41])
  }

  function Stored(d: DocumentId): StoredDocument {
    StoredDocument(0, Completed, [ChunkRow(Chunk(d), true)])
  }

  const DATABASE: Database := map[0 := Stored(0), 1 := Stored(1)]
  const LISTING := [Listed(0, Completed), Listed(1, Completed)]
  const NO_FAULTS := Faults(None, k => Answered, Answered, k => Answered)

  /** The second load meets a database error. */
  const COURSE := Course(SETTINGS, LISTING, k => DATABASE, 1,
    k => if k == 1 then NO_FAULTS.(load := Some(DatabaseError)) else NO_FAULTS)

  /** A vector of the first document that none of its chunks has. */
  const STALE := RecordFor(SETTINGS.embed, 0, DurableChunk(ChunkId(0, 5, 2), [0x42]))
  const BEFORE: Index := map[STALE.vectorId := STALE]
  const AFTER: Index := AsIndex([RecordFor(SETTINGS.embed, 0, Chunk(0))])

  lemma {:induction false} FirstDocument()
    ensures ValidDatabase(DATABASE) && Load(DATABASE, 0, 1) == LoadedRows(0, [Chunk(0)])
    ensures Whole(SETTINGS, DATABASE, 0, 1) == [RecordFor(SETTINGS.embed, 0, Chunk(0))]
  {
    assert DATABASE[0].rows == [ChunkRow(Chunk(0), true)];
  }

  lemma {:induction false} FirstRebuild()
    ensures Plan(SETTINGS, DATABASE, 0, 1, NO_FAULTS) ==
      (Some([RecordFor(SETTINGS.embed, 0, Chunk(0))]), AllIndexed(1))
  {
    FirstDocument();
    BatchSizeDoesNotShow(SETTINGS, BEFORE, DATABASE, 0, 1, NO_FAULTS);
    PlanIsExact(SETTINGS, DATABASE, 0, 1, NO_FAULTS);
  }

  lemma {:induction false} FirstTurn()
    ensures COURSE.Valid() && KeyedIndex(BEFORE) && TurnReply(COURSE, 0) == AllIndexed(1)
    ensures TurnRecords(COURSE, 0).Some? && AsIndex(TurnRecords(COURSE, 0).value) == AFTER
  {
    FirstDocument();
    FirstRebuild();
  }

  lemma {:induction false} OneRecord(record: VectorRecord)
    ensures AsIndex([record]) == map[record.vectorId := record]
  {
    var records, empty: Index := [record], map[];
    assert records[..|records| - 1] == [];
    assert Upserted(empty, records) == Upserted(empty, [])[record.vectorId := record];
  }

  lemma {:induction false} StaleGoes()
    ensures STALE.vectorId in OfDocument(BEFORE, 0) && STALE.vectorId !in AFTER
  {
    OneRecord(RecordFor(SETTINGS.embed, 0, Chunk(0)));
  }

  /** The second turn raises, and the first has rewritten what the index held of its document. */
  lemma {:induction false} SecondTurnRaises()
    ensures COURSE.Valid() && KeyedIndex(BEFORE)
    ensures FirstRaising(COURSE) == 1 && TurnReply(COURSE, 1) == Raised(Interrupted(DatabaseError))
    ensures TurnRecords(COURSE, 0).Some? && AsIndex(TurnRecords(COURSE, 0).value) != OfDocument(BEFORE, 0)
  {
    FirstTurn();
    StaleGoes();
    FirstRaisingIs(COURSE, 1);
  }

  /** A store with the stale vector. */
  method StaleStore() returns (store: InMemoryVectorStore)
    ensures fresh(store) && store.records == BEFORE && Compatible(SETTINGS, store)
  {
    assert !IsSpace(SETTINGS.modelId[0]);
    store := new InMemoryVectorStore();
    var initialized := store.Initialize(SETTINGS.modelId, SETTINGS.dimension);
    assert HasDimension([STALE], 1) && Distinct([STALE]);
    var written := store.Upsert([STALE]);
    assert [STALE][..0] == [];
  }

  /** The service raises the database error, and the stale vector has gone. */
  method RebuildBoth() returns (reply: Reply, before: Index, after: Index)
    ensures reply == Raised(Interrupted(DatabaseError)) && after != before
  {
    SecondTurnRaises();
    var store := StaleStore();
    before := store.records;
    var service := new ProcessingService(SETTINGS, store);
    reply := service.RebuildKnowledgeBase(None, Documents(LISTING), COURSE.databases, 2, 1, COURSE.faults);
    after := store.records;
    assert Course(SETTINGS, LISTING, COURSE.databases, 1, COURSE.faults) == COURSE;
    IndexUnchangedIff(COURSE, before, after, 2);
  }
}
