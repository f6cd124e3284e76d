# Ingestion, chunking and hybrid retrieval, verified

A Dafny 4.11 model of the three parts of the platform whose correctness is not visible from one function:

* **The ingestion protocol** (`Jobs`, `Ingestion`, `Steps`, `Fencing`, `Leases`, `Attempts`, `Bypass`, `RetryLimit`,
  `IndexAgreement`, `StaleWriter`, `VectorStore`, `Records`, `Rebuild`, `RebuildListing`, `RebuildService`,
  `InterruptedRebuild`, `RebuildAgreement`, `Intake`, `UploadSteps`, `IntakeService`). Any number of workers, users,
  recoverers and rebuilds interleave freely over job rows, durable chunks, a vector index that no transaction guards,
  and a file store. `Jobs` has the rows as objects with the assignments each transaction makes; each such method is
  proved to compute a function of the row, and `Ingestion` builds its steps from the same functions. The theorems are
  about every reachable state and every run.
* **The text pipeline** (`CodePoints`, `Normalization`, `Lines`, `Documents`, `Chunking`, `Boundaries`, `Provenance`,
  `ParseAndChunk`): the loops of the normaliser and the chunker, proved against specifications whose meaning is then
  established: losslessness, progress, exact count, where chunks are cut, normal form, what becomes of each line, no
  visible character lost, page provenance through both stages. `ParseAndChunk` ties the pipeline to what the ingestion
  protocol takes for granted about it.
* **Hybrid retrieval** (`Fractions`, `Fusion`, `FusedOrder`, `DenseRanks`, `Candidates`, `Retrieval`, `JsonDepth`,
  `Probe`): exact reciprocal-rank fusion, the strict provider boundary, the streaming depth scanner and the
  single-flight probe.

`Orders` and `Sequences` hold facts about ordered and arbitrary sequences, `SmallWorld` the concrete runs' common part.
`dafny verify dfyconfig.toml` checks everything.

## How the model abstracts

* Characters are code points. `IsSpace` is Python's `str.isspace` (`CodePoints.WhitespaceIs` lists it), `IsControl`
  and `IsSurrogate` are categories Cc and Cs.
* SHA-256, the parser, the chunk texts it leads to and the embedder are functions. About digests the ingestion model
  uses one fact: bytes of a document with the same digest are cut into the same texts (`Pipeline.Valid`). It follows
  from the same fact about the parser alone (`ParseAndChunk.PipelineIsValid`).
* `uuid5(document, "index:hash")` and the vector id built on it are injective constructors.
* One clock that never goes back. A transaction, together with its reading of the clock, is one step. A claim may
  take any due job, since `SKIP LOCKED` passes over rows that another transaction has locked; `FOR UPDATE` guards are
  atomic.
* `Worker.attempt` and `StoredChunks.writer` record history. The code keeps neither: its guard compares the owner's name
  and the lease time only. That this is enough is what `Fencing` proves.
* A provider request may fail, be cancelled, or fail after writing part of a batch (`TearBatch`). An attempt may be
  abandoned at any stage; a worker that has died simply takes no further step. In the service's rebuild each request
  answers, fails in a way the code expects, or raises anything else, a cancellation included, with any effect.

## Properties that need a condition

* **Index equals chunks at completion.** Always true is only that the index holds nothing but records derived from the
  durable chunks. Equality can fail: a worker that has lost its lease may still send its deletion after the new owner's
  upserts and before its commit. `StaleWriter.StaleDeletionEmptiesTheIndex` is such a run; it ends with a completed job,
  its chunks, and no vector at all. `IndexAgreement.AgreementIff` gives the exact condition in every state (every
  derived record was sent after the last deletion), and `IndexAgreement.CompletionAgrees` the condition on the
  interleaving: no foreign deletion between the attempt's own deletion and its commit. A rebuild repairs the index under
  the same condition (`IndexAgreement.RebuildRestoresAgreement`).
* **Normalising twice is normalising once** exactly when the text does not hide a second byte-order mark: behind at most
  one leading mark, the first character that is neither a control character nor a space is not another mark
  (`Normalization.NormalizeTwice`). Each pass strips one; two marks before a letter need two passes
  (`Normalization.TwoMarksNeedTwoPasses`).
* **Stored files are the documents' files** whenever no upload is in flight, plus the files abandoned by a store that
  raised after publishing or by a final deletion that raised and left its file (`Intake.FilesAreDocuments`). Both
  happen (`Intake.StoreRaisesAfterPublishing`, `Intake.FinalDeletionRaises`); failures at every other step abandon
  nothing (`Intake.OnlyFailedCleanupAbandons`).
* **A user's retry of a failed job leads to another attempt** exactly when the job has attempts left
  (`Jobs.RetryHelpsIff`, and over runs `RetryLimit.RetryLeadsToAnAttemptIff`). The service accepts the retry of a job
  without any, which then stays pending for ever (`RetryLimit.ExhaustedRetryWaitsForEver`);
  `RetryLimit.ExhaustedRetryIsReached` is a run that gets there.
* **A rebuild that raises leaves the index unchanged** for sure only when it raises before its first turn. A database
  error at a later load, or a cancellation at a deletion or upsert, can raise with the index rewritten in part:
  `InterruptedRebuild.RebuildBoth` has two documents, `Rebuild.CancelledAfterDeletion` one that loses all its vectors.
  What always holds is `RebuildListing.WhatRaisingLeaves`; `Rebuild.UnchangedIff` and
  `RebuildListing.IndexUnchangedIff` give the exact conditions for an unchanged index.
* **Every provider body gives ranks or a provider error** exactly when the first identifier that is not short enough
  has a UTF-8 encoding, or there is none (`DenseRanks.TypedResult`). An identifier with a lone surrogate, which a JSON
  escape can make, ends in the encoder's own error (`DenseRanks.LoneSurrogateEscapes`), and so does the retrieval.
* **A due job is claimed within the jobs ahead, plus the retries, plus one claims** when claims take the first due job
  (`Bypass.ClaimedInOrder`). A claim that finds the job's row locked passes over it; each such claim adds one to the
  bound (`Bypass.ClaimedWithinTheBound`).

## Model

| member | source | states |
|---|---|---|
| Jobs.ClaimIsDetermined | apps/api/app/db/repositories/knowledge.py:549-570 | The claim order picks exactly one job when some job is eligible, and none otherwise |
| Jobs.EarlierDueGoesFirst | apps/api/app/db/repositories/knowledge.py:551-567 | The claimed job is pending, with attempts left and its retry time come, and goes before every other such job by due time (creation time if never requeued), then creation time, then id |
| Jobs.JobRow.constructor | apps/api/app/services/knowledge_intake.py:312-318 | A new job is pending, unclaimed and has used no attempt |
| Jobs.JobRow.Claim | apps/api/app/db/repositories/knowledge.py:572-584 | The whole new row and document status of a claim, with one more attempt counted |
| Jobs.JobRow.ClearLease | apps/api/app/services/ingestion_processing.py:695-699 | The three lease fields go together and nothing else changes |
| Jobs.JobRow.EndAttempt | apps/api/app/services/ingestion_processing.py:678-693 | An attempt that ends without success is requeued after the delay if it may be and attempts are left, otherwise failed |
| Jobs.JobRow.IsOwned | apps/api/app/db/repositories/knowledge.py:610-632 | The ownership guard: processing, claimed by this worker, lease not yet run out |
| Jobs.JobRow.RenewLease | apps/api/app/services/ingestion_processing.py:510-523 | Only an owned, unexpired lease is extended, to a lease from now; otherwise the row is unchanged |
| Jobs.JobRow.RecordChunks | apps/api/app/services/ingestion_processing.py:581-597 | The job half of the chunk transaction, progress 50 and a lease from now, refused without the lease |
| Jobs.JobRow.CompleteSuccess | apps/api/app/services/ingestion_processing.py:646-665 | The whole new row of a success, refused without the lease |
| Jobs.JobRow.CompleteFailure | apps/api/app/services/ingestion_processing.py:667-693 | The whole new row of a failure, nothing without the lease |
| Jobs.JobRow.Retry | apps/api/app/services/knowledge_intake.py:232-250 | A pending job is returned unchanged, a failed one requeued with its attempts kept, any other refused unchanged |
| Jobs.RetryHelpsIff | apps/api/app/db/repositories/knowledge.py:551-558 | A retried job is claimable exactly when it has attempts left |
| Jobs.RecoverExpired | apps/api/app/services/ingestion_processing.py:295-312 | Every locked expired row ends its attempt as a retryable failure, and all of them are counted |
| Ingestion.StepKeepsJobs | apps/api/app/db/models/knowledge.py:299-329 | Each step keeps: document and job status agree, lease fields are set exactly while processing, attempts within the limit, a completed job's chunks are its own attempt's |
| Ingestion.StepKeepsWorkers | apps/api/app/services/ingestion_processing.py:510-523 | Each step keeps the fence: a running worker that is still the claimant runs the current attempt, and what it carries is what its document derives |
| Ingestion.StepKeepsChunks | apps/api/app/services/ingestion_processing.py:558-598 | Each step keeps the durable chunks those derived from the document, written by an attempt that was claimed |
| Ingestion.StepKeepsEntries | apps/api/app/services/ingestion_processing.py:637-644 | Each step of any writer, torn upserts included, leaves only derived records in the index |
| Ingestion.StepKeepsRebuilds | apps/api/app/services/ingestion_processing.py:727-748 | Each step keeps what a rebuild carries equal to what its document derives |
| Ingestion.StepKeepsDistinctDocuments | apps/api/app/db/models/knowledge.py:298-298 | Each step keeps one job per document |
| Ingestion.StepGrows | apps/api/app/services/ingestion_processing.py:314-382 | No step removes a document, a job or chunks, lowers an attempt count, or changes a completed job |
| Ingestion.RunKeepsInv | apps/api/app/services/ingestion_processing.py:287-382 | The whole invariant holds in every state of every run |
| Steps.WhatAStepNeeds | apps/api/app/services/ingestion_processing.py:314-346 | Exactly when each step of an attempt may happen: read, store chunks, embed, delete, upsert batch by batch, commit after the last; renewal, failure and giving up at any time |
| Steps.WhatARebuildNeeds | apps/api/app/services/ingestion_processing.py:394-404 | Exactly when each step of a rebuild may happen: embed the stored chunks, delete, upsert |
| Steps.HowARebuildStarts | apps/api/app/services/ingestion_processing.py:701-725 | A rebuild starts exactly for a completed document with chunks, and reads those |
| Steps.WhatOthersNeed | apps/api/app/db/repositories/knowledge.py:549-610 | Exactly when a claim, a recovery, a retry or an upload may happen |
| Steps.WhatAClaimDoes | apps/api/app/db/repositories/knowledge.py:549-585 | The whole world after a claim, field by field |
| Steps.WhatAnUnguardedStepDoes | apps/api/app/services/ingestion_processing.py:525-556 | The whole world after reading, embedding, deleting, upserting or giving up, none of which looks at the lease |
| Steps.WhatAGuardedStepDoes | apps/api/app/services/ingestion_processing.py:510-523 | The whole world after a renewal, a chunk transaction, a success or a failure, with the lease and without, field by field |
| Steps.WhatARebuildStepDoes | apps/api/app/services/ingestion_processing.py:400-404 | The whole world after each request of a rebuild |
| Steps.WhatOthersDo | apps/api/app/services/ingestion_processing.py:295-312 | The whole world after an upload, a recovery or a retry, field by field |
| Steps.UndisturbedAttempt | apps/api/app/services/ingestion_processing.py:314-348 | In any world, claim, read, store, embed, delete, one upsert per batch and commit are a legal run that ends with the job completed, its chunks stored, exactly their records in the index, and all else unchanged |
| Fencing.OwnerRunsTheCurrentAttempt | apps/api/app/db/repositories/knowledge.py:610-632 | In every reachable state a worker that passes the ownership guard runs the job's current attempt, and nobody else passes it |
| Fencing.LapsedLeaseIsNeverRevived | apps/api/app/services/ingestion_processing.py:510-523 | Once an attempt's lease has run out or the attempt has ended, no worker of that or an earlier attempt ever passes the guard again |
| Leases.LeaseLasts | apps/api/app/services/ingestion_processing.py:510-523 | After a claim, an owned renewal or an owned chunk transaction at t, the worker passes the guard in every continuation state before t + lease in which it has not committed |
| Leases.LeaseEnds | apps/api/app/services/ingestion_processing.py:581-597 | Without a further claim, renewal or chunk transaction of its own it never passes the guard from t + lease on |
| Leases.RecoverableIff | apps/api/app/db/repositories/knowledge.py:596-606 | A processing job can be recovered exactly when its claimant no longer passes the guard |
| Leases.WhenClaimableAgain | apps/api/app/services/ingestion_processing.py:667-693 | A failed or recovered attempt leaves the job failed, or, if retryable with attempts left, claimable exactly from the retry delay on; its code is kept and LEASE_EXPIRED is that of a recovery |
| Fencing.SuccessCommitsItsOwnChunks | apps/api/app/services/ingestion_processing.py:646-665 | The durable chunks present when a job completes were written by the completing attempt and are the document's chunks |
| Fencing.CompletedIsFinal | apps/api/app/services/ingestion_processing.py:657-665 | A completed job never changes, and its chunks stay those of its completing attempt |
| Attempts.MeasureStep | apps/api/app/services/ingestion_processing.py:678-693 | Every claim and every ending lowers 2*(attempts left)+(1 if processing) by one, every other step, a retry included, leaves it |
| Attempts.MeasureRun | apps/api/app/services/ingestion_processing.py:287-312 | Over a run the measure falls by exactly the claims and endings in it |
| Attempts.AttemptsAreCounted | apps/api/app/db/models/knowledge.py:299-305 | The attempt count is the number of claims in the run and the number of ended attempts plus the running one, never above the limit |
| Attempts.ExhaustedIsNeverClaimed | apps/api/app/services/knowledge_intake.py:232-250 | An exhausted job is never claimed again in any run, whoever retries it |
| Bypass.OnlyRetriesGetAhead | apps/api/app/db/repositories/knowledge.py:549-567 | With a positive retry delay and later uploads, only a user's retry can put a job ahead of a due one |
| Bypass.AheadStep | apps/api/app/db/repositories/knowledge.py:549-567 | A claim of another job takes one from those ahead or passes over the job, a retry adds at most one, no other step adds any |
| Bypass.ClaimsAreBounded | apps/api/app/db/repositories/knowledge.py:549-567 | While a due job waits, claims plus the jobs still ahead are at most the jobs first ahead plus the retries plus the claims that pass over it |
| Bypass.ClaimedWithinTheBound | apps/api/app/db/repositories/knowledge.py:549-567 | A due job is claimed within (jobs ahead) + (retries) + (claims that pass over it) + 1 claims, whatever rows are locked |
| Bypass.OrderedClaimsDoNotPass | apps/api/app/db/repositories/knowledge.py:549-567 | Claims that take the first due job never pass over one that waits |
| Bypass.ClaimedInOrder | apps/api/app/db/repositories/knowledge.py:549-567 | With claims in order a due job is claimed within (jobs ahead) + (retries) + 1 claims |
| RetryLimit.RetryLeadsToAnAttemptIff | apps/api/app/services/knowledge_intake.py:232-250 | After a retry of a failed job, in every continuation with enough claims beyond those that pass over it, the job is claimed exactly when attempts were left |
| RetryLimit.ExhaustedRetryWaitsForEver | apps/api/app/services/knowledge_intake.py:237-250 | Without attempts left the retried job stays pending and unclaimed in every continuation |
| RetryLimit.ExhaustedRetryIsReached | apps/api/app/services/knowledge_intake.py:232-250 | A run from the start that reaches a failed job without attempts whose retry is accepted |
| IndexAgreement.IndexWithinChunks | apps/api/app/services/ingestion_processing.py:613-644 | In every reachable state each index entry is the record of one durable chunk of its document: its ids, text, digest and number, the embedding of that text and the knowledge base |
| IndexAgreement.StepOfDocument | apps/api/app/services/ingestion_processing.py:637-644 | The exact effect of any step on one document's vectors: dropped if deleted, then what is sent for it upserted |
| IndexAgreement.OtherDocumentsUntouched | apps/api/app/ingestion/vector_store.py:174-181 | No writer's step touches the vectors of another document |
| IndexAgreement.IndexIsWhatWasSent | apps/api/app/services/ingestion_processing.py:637-644 | In every run a document's index is exactly what was sent for it since its vectors were last deleted |
| IndexAgreement.AgreementIff | apps/api/app/services/ingestion_processing.py:613-665 | Index and durable chunks agree exactly when every derived record was sent since the last deletion |
| IndexAgreement.RecordsStay | apps/api/app/ingestion/vector_store.py:165-172 | Without a deletion no concurrent writer takes a record of the document away |
| IndexAgreement.CompletionAgrees | apps/api/app/services/ingestion_processing.py:558-665 | Index equals chunks at completion if nobody else deletes between the attempt's own deletion and its commit, whatever was written before |
| IndexAgreement.RebuildRestoresAgreement | apps/api/app/services/ingestion_processing.py:400-404 | A rebuild ends with index equal to chunks if nobody else deletes between its deletion and its last upsert, whatever the index held |
| StaleWriter.StaleDeletionEmptiesTheIndex | apps/api/app/services/ingestion_processing.py:637-665 | A concrete run in which a stale deletion leaves a completed document without vectors |
| VectorStore.UpsertedLookup | apps/api/app/ingestion/vector_store.py:165-172 | After an upsert of distinct ids every record is found under its id and every other entry is as before |
| VectorStore.UpsertedOfDocument | apps/api/app/ingestion/vector_store.py:165-172 | Upserting one document's records changes no other document's entries |
| VectorStore.RefillIsExact | apps/api/app/services/ingestion_processing.py:637-644 | Delete-then-write leaves exactly the written records for the document, everything else unchanged |
| VectorStore.RefillAgain | apps/api/app/services/ingestion_processing.py:400-404 | Refilling changes nothing exactly when the index already held those records |
| VectorStore.PartIsWhole | apps/api/app/ingestion/vector_store.py:165-172 | Some of a document's records, sent in any order and repetition, give its whole index exactly when all were sent |
| VectorStore.BatchesAreTheValues | apps/api/app/services/ingestion_processing.py:750-754 | Batches are non-empty, at most the batch size, only the last short, and concatenate to the values |
| Records.RecordIsItsChunk | apps/api/app/services/ingestion_processing.py:614-635 | A vector record carries its chunk field by field, with the embedding of its own text |
| VectorStore.ValidateRecords | apps/api/app/ingestion/vector_store.py:115-131 | The verdict names the first record with a repeated id or a wrong dimension |
| VectorStore.VerdictIsUnique | apps/api/app/ingestion/vector_store.py:115-131 | The verdict is determined, and acceptance is exactly distinct ids of the right dimension |
| VectorStore.InMemoryVectorStore.constructor | apps/api/app/ingestion/vector_store.py:137-141 | A new store is empty and not initialised |
| VectorStore.InMemoryVectorStore.Initialize | apps/api/app/ingestion/vector_store.py:148-158 | The first valid configuration is kept, the same one accepted again, any other refused |
| VectorStore.InMemoryVectorStore.Upsert | apps/api/app/ingestion/vector_store.py:165-172 | All records of a valid batch are written, of an invalid one none |
| VectorStore.InMemoryVectorStore.DeleteByDocument | apps/api/app/ingestion/vector_store.py:174-181 | Exactly the document's entries go |
| VectorStore.InMemoryVectorStore.DeleteByChunkIds | apps/api/app/ingestion/vector_store.py:183-187 | Exactly the entries of the given chunks go |
| RebuildService.RecordsForChunks | apps/api/app/services/ingestion_processing.py:727-748 | Batched embedding gives the records of all chunks, or what the first request without a good answer ended with |
| RebuildService.RefillStore | apps/api/app/services/ingestion_processing.py:401-417 | Delete and batched upserts leave the records up to the first request without an answer and the part of its batch it wrote; whole batches are reported or the interruption is raised |
| RebuildService.ProcessingService.Initialize | apps/api/app/services/ingestion_processing.py:269-278 | The first successful call initialises the store, later ones do nothing; no vector changes |
| RebuildService.ProcessingService.RebuildDocument | apps/api/app/services/ingestion_processing.py:384-423 | Index and reply of a document rebuild in every case: limit, refused initialisation, refused or interrupted load, failing or interrupted requests with whatever effect they had, success |
| Rebuild.RebuiltIsExact | apps/api/app/services/ingestion_processing.py:384-423 | However a rebuild ends, raising included, its document is untouched or holds exactly a first part of its records (all after a success; the reported ones after a failure with atomic upserts) and other documents are untouched |
| Rebuild.WhatIsLoaded | apps/api/app/services/ingestion_processing.py:701-725 | A document is loaded exactly when it is completed and has between one and max_chunks chunks, none of the legacy format; LimitExceeded comes before the format check |
| Rebuild.BadEmbeddingIsTold | apps/api/app/services/ingestion_processing.py:400-417 | The first embedding request that fails, raises or answers with a wrong dimension decides the reply, with its code; the index is left alone |
| Rebuild.BadDeletionIsTold | apps/api/app/services/ingestion_processing.py:401-417 | A deletion without an answer decides the reply, with its code, and empties the document if it took place |
| Rebuild.BadUpsertIsTold | apps/api/app/services/ingestion_processing.py:402-423 | The first upsert without an answer decides the reply: its code, the chunks of the whole batches before it, and what it wrote of its own; without one all chunks are indexed |
| Rebuild.UnchangedIff | apps/api/app/services/ingestion_processing.py:384-423 | However it ends, a rebuild leaves the index unchanged exactly when it did not delete or the index held just what it leaves |
| Rebuild.CancelledAfterDeletion | apps/api/app/services/ingestion_processing.py:401-405 | A cancellation between the deletion and the first upsert raises and leaves the document without vectors |
| Rebuild.BatchSizeDoesNotShow | apps/api/app/services/ingestion_processing.py:400-423 | Without faults the resulting index and report do not depend on the batch size |
| Rebuild.RebuildIsNoOp | apps/api/app/services/ingestion_processing.py:400-423 | A successful rebuild changes nothing exactly when index and chunks agreed |
| RebuildListing.EveryDocumentIsReported | apps/api/app/services/ingestion_processing.py:447-482 | Every document whose turn is over is either indexed or reported as one failure |
| RebuildListing.OnlyInterruptionsRaise | apps/api/app/services/ingestion_processing.py:455-468 | A turn ends the loop only by an interruption (database error, cancellation, unexpected exception), never by a refusal or a failing request |
| RebuildListing.RefusedTurns | apps/api/app/services/ingestion_processing.py:450-468 | The codes under which a document that is not completed, not loadable or too large is reported |
| RebuildListing.LoadedTurns | apps/api/app/services/ingestion_processing.py:455-459 | Any other turn tells what its document's rebuild tells |
| RebuildListing.FailuresAreJoined | apps/api/app/services/ingestion_processing.py:469-482 | The report has the failures of the turns in listing order; none is lost or comes twice |
| RebuildListing.OneFailureAtMost | apps/api/app/services/ingestion_processing.py:469-471 | A turn reports one failure at most |
| RebuildListing.FailuresAt | apps/api/app/services/ingestion_processing.py:469-471 | What is listed for a turn is what that turn reports |
| RebuildListing.ChunksAreAdded | apps/api/app/services/ingestion_processing.py:469-482 | The chunks that turns report are added up |
| RebuildService.ProcessingService.TakeTurn | apps/api/app/services/ingestion_processing.py:450-476 | What one listed document reports or raises and its index, refusals turned into failures |
| RebuildListing.TurnNext | apps/api/app/services/ingestion_processing.py:450-476 | A document's turn, finished or not, leaves the earlier documents as their own rebuilds left them |
| RebuildService.ProcessingService.RebuildAll | apps/api/app/services/ingestion_processing.py:447-482 | It returns exactly when no turn raises, with counters and failures summing up the turns; else it raises what the first such turn does; every document is as its own rebuild leaves it, those after that turn untouched |
| RebuildService.ProcessingService.RebuildKnowledgeBase | apps/api/app/services/ingestion_processing.py:425-482 | What is raised before the first turn, the index unchanged; otherwise the loop's outcome: returned with documents_seen = documents_indexed + failures, or raised in turn n with the first n documents rebuilt, that one untouched or in part, the rest untouched |
| RebuildListing.WhatRaisingLeaves | apps/api/app/services/ingestion_processing.py:450-468 | After a rebuild that raised in turn n each of the first n+1 documents is as before or holds a first part of its records, and every other document is untouched |
| RebuildListing.IndexUnchangedIff | apps/api/app/services/ingestion_processing.py:450-468 | After any number of turns, the raising one included, the index is unchanged exactly when each turn did not delete or found just what it leaves |
| InterruptedRebuild.SecondTurnRaises | apps/api/app/services/ingestion_processing.py:393-396 | Two completed documents, the first with a stale vector, a database error at the second load: the second turn is the first to raise, and the first has rewritten the index |
| InterruptedRebuild.RebuildBoth | apps/api/app/services/ingestion_processing.py:425-482 | The service, run on these documents, raises the database error with a changed index |
| RebuildAgreement.RebuildAfterIngestionIsNoOp | apps/api/app/services/ingestion_processing.py:384-423 | A successful rebuild right after an undisturbed ingestion leaves the whole index as it is |
| RebuildAgreement.Unchanged | apps/api/app/services/ingestion_processing.py:384-423 | In any state a successful rebuild changes nothing exactly when index and chunks agree |
| Intake.RunKeepsInv | apps/api/app/services/knowledge_intake.py:177-358 | In every state of every interleaving, each upload's file is where its stage says, and rows and jobs are consistent |
| UploadSteps.WhatAStepNeeds | apps/api/app/services/knowledge_intake.py:197-358 | Exactly when each step of an upload may happen |
| UploadSteps.HowAnUploadBegins | apps/api/app/services/knowledge_intake.py:177-197 | An upload begins with a document id that nobody uses |
| UploadSteps.WhatAStepDoes | apps/api/app/services/knowledge_intake.py:197-358 | The stage, file and rows after each step of an upload; nothing else changes |
| Intake.FilesAreDocuments | apps/api/app/services/knowledge_intake.py:197-215 | With no upload in flight the stored files are exactly the documents' keys and the abandoned files |
| Intake.OnlyFailedCleanupAbandons | apps/api/app/services/knowledge_intake.py:213-215 | Only a store that raises after publishing or a final deletion that raises abandons a file |
| Intake.StoreRaisesAfterPublishing | apps/api/app/ingestion/storage.py:110-131 | A run in which a store raises after moving the file into place and leaves it without a document |
| Intake.FinalDeletionRaises | apps/api/app/services/knowledge_intake.py:213-215 | A run in which the final deletion raises and leaves a file without a document |
| Intake.UploadsConserve | apps/api/app/db/models/knowledge.py:235-240 | One document per digest and knowledge base, exactly one job and one file per document, and duplicates return a document with the digest |
| IntakeService.KnowledgeIntake.UploadDocument | apps/api/app/services/knowledge_intake.py:197-215 | A whole upload, with any steps of others whenever it pauses, is a run of the interleaved model, with the exact conditions under which it returns new, duplicate or raises |
| IntakeService.KnowledgeIntake.ReceiveUpload | apps/api/app/services/knowledge_intake.py:199-202 | The file is stored and looked at, and is there when the transaction starts |
| IntakeService.KnowledgeIntake.Pause | apps/api/app/services/knowledge_intake.py:197-215 | Whatever steps others take, this upload's stage, file and job id are left alone and no document goes |
| IntakeService.KnowledgeIntake.PersistUpload | apps/api/app/services/knowledge_intake.py:268-328 | The transaction paths, with any steps of others in between: new row, duplicate found, constraint refusal, failure |
| IntakeService.KnowledgeIntake.InsertRows | apps/api/app/services/knowledge_intake.py:302-322 | The rows go in unless the unique constraint refuses them or the database fails |
| IntakeService.KnowledgeIntake.ResolveConcurrentDuplicate | apps/api/app/services/knowledge_intake.py:330-358 | The row of the winning upload is returned exactly when there is one |
| IntakeService.KnowledgeIntake.CleanUp | apps/api/app/services/knowledge_intake.py:213-215 | The finally block removes the upload's file and no other |
| Normalization.Normalized | apps/api/app/ingestion/text_normalization.py:55-71 | The line loop computes the normalised fragment, whose lines are given by Lines.LinesAreKept |
| Normalization.ResultIsNormal | apps/api/app/ingestion/text_normalization.py:44-71 | No carriage return or other control character, no line ending in blank, no three newlines, no blank or newline at either end |
| Normalization.FixedPoints | apps/api/app/ingestion/text_normalization.py:55-71 | Normalisation leaves a text alone exactly when it is in normal form and does not begin with a byte-order mark |
| Normalization.VisibleTextIsKept | apps/api/app/ingestion/text_normalization.py:44-71 | Apart from one leading mark, every character that is neither control nor space is kept in order, surrogates replaced, and nothing visible is added |
| Lines.LinesAreKept | apps/api/app/ingestion/text_normalization.py:55-71 | The line law: the text without its mark, cut at CR LF, CR or LF, gives its non-blank lines in order, sanitised, without trailing and the first without leading blanks, with one line feed between neighbours and two where blank lines stood between |
| Lines.LinesExist | apps/api/app/ingestion/text_normalization.py:55-71 | Every text can be cut into such lines |
| Normalization.NormalizeTwice | apps/api/app/ingestion/text_normalization.py:56-71 | A second pass changes nothing exactly when no second byte-order mark is the first visible character behind the leading one |
| Normalization.TwoMarksNeedTwoPasses | apps/api/app/ingestion/text_normalization.py:56-56 | A text whose second pass changes the result |
| Normalization.NeverLonger | apps/api/app/ingestion/text_normalization.py:55-71 | A fragment is never longer than the text without its mark |
| Documents.Normalize | apps/api/app/ingestion/text_normalization.py:86-115 | Spans tile the text with two newlines between neighbours, each slice is its section's fragment; empty exactly when every fragment is blank |
| Documents.SpanIsItsSection | apps/api/app/ingestion/text_normalization.py:91-107 | Each span is the slice with the normalised text of a section that is not blank, and carries that section's page |
| Documents.SpansInFull | apps/api/app/ingestion/text_normalization.py:86-115 | The first span begins the text, the last ends it, and two line feeds stand between neighbours, in section order |
| Documents.NoSectionIsMissing | apps/api/app/ingestion/text_normalization.py:91-94 | Every section whose normalised text is not blank has its span |
| Documents.KeptAreTheNonBlank | apps/api/app/ingestion/text_normalization.py:91-94 | The sections with spans are exactly the non-blank ones, in order |
| Chunking.SkipWhitespace | apps/api/app/ingestion/chunking.py:144-148 | The first position from the start that is not whitespace |
| Chunking.TrimTrailingWhitespace | apps/api/app/ingestion/chunking.py:150-154 | The end moved back over whitespace, not beyond the start |
| Chunking.PageNumbers | apps/api/app/ingestion/chunking.py:156-169 | The distinct pages of the overlapping spans in span order |
| Chunking.SelectEnd | apps/api/app/ingestion/chunking.py:108-142 | The cut lies after the start, within the hard end, and beyond start plus overlap unless the text ends; which boundary it takes is Boundaries.CutIsPreferred |
| Chunking.PreferredCutIsBest | apps/api/app/ingestion/chunking.py:119-142 | The cut is the last match of the first boundary kind that matches at all, else the hard end |
| Boundaries.CutIsPreferred | apps/api/app/ingestion/chunking.py:108-142 | In characters: beyond max(overlap + 1, chunk_size // 2) the last blank line, else the last line feed, else behind the last full stop, exclamation or question mark before a space, else the last space or tab, else the hard end |
| Chunking.NextWindow | apps/api/app/ingestion/chunking.py:70-80 | The bounds of the next chunk, none exactly when only whitespace is left |
| Chunking.EmptyBranchUnreachable | apps/api/app/ingestion/chunking.py:78-80 | The guard against an empty chunk never fires |
| Chunking.MakeChunk | apps/api/app/ingestion/chunking.py:82-97 | A chunk carries its own slice, digest, token count and pages |
| Chunking.Chunk | apps/api/app/ingestion/chunking.py:65-106 | The loop terminates with the text's windows, numbered in order, each with its slice and provenance |
| Boundaries.WindowsFollowTheText | apps/api/app/ingestion/chunking.py:70-104 | In characters: each chunk begins at the first non-whitespace from max(end - overlap, start + 1) of the one before, and ends at its cut without the whitespace before it |
| Boundaries.NothingIsLeft | apps/api/app/ingestion/chunking.py:70-104 | Only whitespace follows the last chunk, and a text without chunks is only whitespace |
| Boundaries.ChunkIsItsSlice | apps/api/app/ingestion/chunking.py:82-97 | A chunk carries its number, slice, offsets, digest, the number of its runs of non-whitespace and exactly the pages of the spans it overlaps |
| Boundaries.TokensAreRuns | apps/api/app/ingestion/chunking.py:87-87 | The token count is the number of places where a run of non-whitespace begins |
| Boundaries.PagesInOrder | apps/api/app/ingestion/chunking.py:156-169 | No page comes twice, and the pages are in the order of the spans that show them first |
| Chunking.ChunkingIsUnique | apps/api/app/ingestion/chunking.py:65-106 | A text has one windowing |
| Chunking.ChunkingIsGood | apps/api/app/ingestion/chunking.py:70-142 | Lengths 1..chunk_size, no whitespace at either end, starts strictly increase, overlap bounded, ends never go back and repeat exactly over whitespace, gaps are whitespace |
| Chunking.StartsIncrease | apps/api/app/ingestion/chunking.py:99-104 | Starts strictly increase and ends never decrease between any two chunks |
| Chunking.CoveredFrom | apps/api/app/ingestion/chunking.py:70-106 | Every non-whitespace character lies in some chunk |
| Chunking.StitchIsKept | apps/api/app/ingestion/chunking.py:65-106 | Stitching chunks by offset with overlaps dropped gives exactly the covered text |
| Chunking.ChunkingIsLossless | apps/api/app/ingestion/chunking.py:65-106 | Stitched chunks are the document without gaps that are pure whitespace |
| Chunking.ChunksAreDurable | apps/api/app/services/ingestion_processing.py:550-555 | A text has no chunk exactly when it is blank, and every chunk is numbered in order, carries its own digest and is not blank |
| Chunking.RegularWindows | apps/api/app/ingestion/chunking.py:75-104 | On whitespace-free text chunk k starts at k*(chunk_size-overlap) |
| Chunking.ExactChunkCount | apps/api/app/ingestion/chunking.py:75-104 | On whitespace-free text the number of chunks is the ceiling of (n-overlap)/(chunk_size-overlap) |
| Provenance.ChunkPagesAreItsPages | apps/api/app/ingestion/chunking.py:157-169 | A PDF chunk's page list is non-empty, strictly increasing, and exactly the pages sharing a character with it |
| Provenance.EndsGiveTheRange | apps/api/app/services/ingestion_processing.py:576-577 | page_start and page_end are the pages of the chunk's first and last character |
| Provenance.PageRangeNeverGoesBack | apps/api/app/services/ingestion_processing.py:576-577 | page_start and page_end never decrease along the chunks of a PDF |
| Provenance.PdfSpansAreOrdered | apps/api/app/ingestion/text_normalization.py:91-107 | The spans of a PDF follow text and page order |
| ParseAndChunk.TiledIsUnique | apps/api/app/ingestion/text_normalization.py:86-115 | The normalised document is determined by the fragments |
| ParseAndChunk.ChunksAreDetermined | apps/api/app/services/ingestion_processing.py:547-549 | Sections determine their chunks |
| ParseAndChunk.ChunkSections | apps/api/app/services/ingestion_processing.py:547-556 | Normalising and chunking gives chunks exactly when some section has text, and the guards against inconsistent chunks never fire |
| ParseAndChunk.RowsAreTheChunks | apps/api/app/services/ingestion_processing.py:563-580 | The protocol's durable rows are the chunks with their own indexes and digests, none blank |
| ParseAndChunk.PipelineIsValid | apps/api/app/services/ingestion_processing.py:525-556 | Equal digests give equal texts as soon as they give equal parses |
| JsonDepth.JsonDepthScanner.FeedText | apps/api/app/retrieval/chroma.py:163-183 | The scanner's fields follow the character automaton, or the text is rejected |
| JsonDepth.JsonDepthScanner.Finish | apps/api/app/retrieval/chroma.py:185-187 | Finishing succeeds exactly when no container and no string is open |
| JsonDepth.FeedConcat | apps/api/app/retrieval/chroma.py:163-183 | Feeding a text in two pieces is feeding it whole |
| JsonDepth.ScanPieces | apps/api/app/retrieval/chroma.py:292-296 | However a body is cut into pieces, streaming accepts it exactly when the whole is accepted |
| JsonDepth.ValidateJsonDepth | apps/api/app/retrieval/chroma.py:215-218 | The second, whole-body check has the same outcome |
| JsonDepth.ScannerStackIsOpenBrackets | apps/api/app/retrieval/chroma.py:173-183 | The stack is always the brackets left open outside strings |
| JsonDepth.ScannerIsGrammar | apps/api/app/retrieval/chroma.py:155-187 | A text is accepted exactly when its strings are closed and its brackets outside strings nest properly, at most 16 deep |
| JsonDepth.PrintedAcceptedWhenShallow | apps/api/app/retrieval/chroma.py:155-187 | A printed JSON value is accepted exactly when its containers nest at most 16 deep |
| Fusion.ScoreIsExact | apps/api/app/retrieval/hybrid.py:110-118 | The reduced fraction is exactly 1/(60+k) + 1/(60+d), absent terms left out |
| Fusion.FractionsOrderAsReals | apps/api/app/retrieval/hybrid.py:168-168 | Comparing sort keys by reduced fractions agrees with comparing the exact scores |
| FusedOrder.OrderOnRanks | apps/api/app/retrieval/hybrid.py:150-168 | On ranks alone: higher exact score, then the better least rank, then the earlier keyword rank, then the earlier dense rank, an absent one behind 128, then the smaller chunk id |
| FusedOrder.KeywordGoesFirst | apps/api/app/retrieval/hybrid.py:160-168 | At equal scores and least ranks a chunk with a keyword rank goes before one without |
| Fusion.BeforeIsStrictTotalOrder | apps/api/app/retrieval/hybrid.py:168-168 | The five-part order is a strict order, total on distinct chunk ids |
| Fusion.DominatingChunkPrecedes | apps/api/app/retrieval/hybrid.py:150-168 | A chunk no worse in both ranks and better in one always precedes |
| Orders.OrderedIsUnique | apps/api/app/retrieval/hybrid.py:168-168 | For any strict order, ordered sequences with the same members are equal, so any correct sort gives the same sequence |
| Fusion.SortedIsOrdered | apps/api/app/retrieval/hybrid.py:168-168 | Sorting records of distinct chunks puts them in the five-part order |
| Fusion.FuseAuthoritativeRecords | apps/api/app/retrieval/hybrid.py:121-179 | The fused records, or exactly which inputs are refused |
| FusedOrder.FusionIsRight | apps/api/app/retrieval/hybrid.py:121-179 | The result is the first of the records in that order, numbered from one, each with its two looked-up ranks and its exact score as a fraction in lowest terms; all other records stand behind |
| Fusion.RanksAndPrefixes | apps/api/app/retrieval/hybrid.py:169-179 | A corollary of the numbering: fused ranks are 1..m, and a smaller request gives a prefix of a larger one |
| Fusion.FusionIgnoresArrivalOrder | apps/api/app/retrieval/hybrid.py:131-168 | The order in which records arrive does not show |
| Fusion.DroppingKeepsOrder | apps/api/app/retrieval/hybrid.py:150-168 | Dropping stale records leaves the survivors in their relative order |
| Fusion.FusingWhatIsLeft | apps/api/app/retrieval/hybrid.py:150-179 | Without truncation, fusing what is left of the records gives the survivors of the whole result with their scores, renumbered |
| DenseRanks.RankCandidate | apps/api/app/retrieval/chroma.py:108-118 | After one more candidate the dictionary again holds every chunk's least accepted rank |
| DenseRanks.DenseProviderResult | apps/api/app/retrieval/chroma.py:80-127 | Accepted exactly for well-formed tuples with distinct positions in range; the encoder's error escapes exactly when the first rejected tuple has an identifier without UTF-8 encoding; each chunk gets 1 + its least accepted position, sorted by rank |
| DenseRanks.TypedResult | apps/api/app/retrieval/chroma.py:410-444 | (id, rank) is ranked exactly when the entry at index rank - 1 is the first usable one of that chunk; provider error or the encoder's error exactly when stated; the constructor's second check never fires |
| DenseRanks.PlacesAreRanks | apps/api/app/retrieval/chroma.py:437-443 | The least accepted rank of a body's tuples is the place of the chunk's first usable entry |
| DenseRanks.LoneSurrogateEscapes | apps/api/app/retrieval/chroma.py:433-435 | One identifier with a lone surrogate makes the encoder's error escape; with an overlong one beside it their order decides |
| DenseRanks.PositionsFillTheRange | apps/api/app/retrieval/chroma.py:120-121 | The final range check cannot fail once the loop has finished |
| DenseRanks.OrderDoesNotMatter | apps/api/app/retrieval/chroma.py:95-127 | Any permutation of the tuples is accepted alike and ranked alike |
| DenseRanks.RejectedPositionsAreGaps | apps/api/app/retrieval/chroma.py:108-118 | A rank occurs exactly when its position was accepted first for its chunk |
| Candidates.BatchesAreCanonical | apps/api/app/retrieval/service.py:114-125 | Batches depend only on the set of ids; at most three, none empty or too long, together the sorted distinct ids |
| Candidates.LoadBatch | apps/api/app/retrieval/postgres.py:198-209 | The rows of one batch, in any order, add exactly its eligible candidates |
| Candidates.LoadAuthoritativeRecords | apps/api/app/retrieval/postgres.py:164-224 | Exactly when it refuses: too many, non-canonical, database failure at any statement or the commit, not authenticated, not accessible; otherwise the eligible records in candidate order, whatever the row order |
| Candidates.InOrderMembers | apps/api/app/retrieval/postgres.py:219-224 | The loaded records are exactly the eligible candidates, in ascending order |
| Retrieval.ConfiguredProviderCount | apps/api/app/retrieval/hybrid.py:54-62 | The over-fetch is bounded by the provider maximum and never below the request |
| Retrieval.KeywordRankMap | apps/api/app/retrieval/hybrid.py:76-91 | Each keyword chunk with its least rank, refused exactly for too many or out-of-range ranks |
| Retrieval.KeywordMapIgnoresOrder | apps/api/app/retrieval/hybrid.py:79-91 | Order and repetition of keyword candidates do not show |
| Retrieval.DenseRankMap | apps/api/app/retrieval/hybrid.py:94-107 | The dense ranks, refused exactly beyond the configured count |
| Retrieval.OneFiniteVector | apps/api/app/retrieval/hybrid.py:65-73 | The embedder's answer is usable exactly when it is one vector of the configured dimension with finite coordinates |
| Retrieval.Retrieve | apps/api/app/retrieval/hybrid.py:200-246 | Exactly when it is unavailable, refused, or ends in the encoder's error; otherwise the records are the fusion of the snapshot's rows under each chunk's least keyword rank and the place of its first usable entry in the body |
| Retrieval.AnswerInFull | apps/api/app/retrieval/hybrid.py:200-246 | An answer said without tuples or sorting: ranks from candidates and body, rows from the snapshot, records in the rank order |
| Retrieval.RetrieveRanked | apps/api/app/retrieval/hybrid.py:229-246 | The flow from the rank maps on, with each way of ending and when it happens |
| Retrieval.DistinctAndKnown | apps/api/app/retrieval/hybrid.py:237-239 | The check on the loaded ids holds exactly when they are distinct and in the union |
| Retrieval.LoadAndFuse | apps/api/app/retrieval/hybrid.py:232-246 | The union in any order is loaded and fused to the same records, or the loader's refusal is passed on; the check on the loaded ids never fires |
| Retrieval.AnswersAgree | apps/api/app/retrieval/hybrid.py:200-246 | Retrieval has one answer for given candidates up to order and a given snapshot |
| Retrieval.IncidentalOrderDoesNotMatter | apps/api/app/retrieval/hybrid.py:229-246 | Same candidates up to order and the same snapshot give the same records |
| Retrieval.StaleCandidatesDropOut | apps/api/app/retrieval/hybrid.py:229-246 | Without truncation, the answer from a smaller snapshot is the answer from the larger one without the missing candidates |
| Probe.ChromaAdapter.EnterSection | apps/api/app/retrieval/chroma.py:547-555 | A caller is refused, told compatible, joins the probe in flight, or starts one |
| Probe.ChromaAdapter.SettleSection | apps/api/app/retrieval/chroma.py:556-573 | A waiter touches the adapter only for its own task |
| Probe.ChromaAdapter.CloseSection | apps/api/app/retrieval/chroma.py:604-611 | Closing clears compatibility and the probe, once |
| Probe.WhatAStepNeeds | apps/api/app/retrieval/chroma.py:546-616 | Exactly when a caller enters, wakes, settles or is cancelled, a probe ends, and the adapter closes |
| Probe.StepKeepsInv | apps/api/app/retrieval/chroma.py:546-616 | Every step of callers, probes, cancellations and close keeps the invariant |
| Probe.AtMostOneProbe | apps/api/app/retrieval/chroma.py:546-573 | At most one probe is alive in any reachable state |
| Probe.SuccessIsNeverReprobed | apps/api/app/retrieval/chroma.py:546-573 | After a success no probe is ever created, even if every waiter was cancelled |
| Probe.FailedProbeIsRepeated | apps/api/app/retrieval/chroma.py:556-573 | The waiter that settles an unsuccessful probe clears it and raises, and the next caller starts a new one |
| Probe.SuccessIsRemembered | apps/api/app/retrieval/chroma.py:556-573 | After a settled success every later caller is told compatible at once |
| Probe.RunningProbeIsNotCleared | apps/api/app/retrieval/chroma.py:556-573 | Only close removes a running probe; a late waiter of an older one never does |
| Probe.ClosedIsFinal | apps/api/app/retrieval/chroma.py:604-616 | Once closed the adapter is never marked compatible and starts no probe |
| Probe.CompatibleMeansProbed | apps/api/app/retrieval/chroma.py:546-573 | Nobody is told the provider is compatible unless a probe succeeded |

## Left out

- `process_next` as one body: an attempt is modelled by the steps it may take and their order, interleaved with
  everybody else's; the `try` ladder that picks the failure, and the heartbeat's timing, are not. A renewal, a
  failure, a cancellation and an abandoned attempt may happen at any stage.
- The table that maps exceptions to failure codes, safe messages and retryability: the ingestion model lets an attempt
  fail with any code, retryable or not.
- The limit and the order in which expired rows are locked for recovery: each expired job is recovered as a step of
  its own.
- Clock skew between workers and the database, a delay between reading the clock and the transaction, a process that
  crashes between storing a file and committing its row, and commits whose outcome is unknown.
- An index request that takes effect after its client has given up on it: a request takes effect when it is sent or
  not at all.
- The parser, PDF extraction, NFC, UTF-8, zlib and HTTP; SQL text; `ts_rank_cd` and keyword ranking, which is a given
  list of ranks.
- Authorization results of uploads, beyond being one of the ways in which a transaction may fail.
- The validation of a single vector record or embedding value, of file names and of upload metadata.
- DenseRanks.DenseProviderResult: a vector id is its UTF-8 length, if it has one, and the chunk id it parses to, if
  any; the UUID grammar itself is not modelled.
- DenseRanks.TypedResult: the shape of the body and its optional documents and metadatas, which are checked first and
  whose texts are measured with the same encoder, are not modelled.
- Probe.StepKeepsInv: a probe ends by success, provider error or cancellation; an exception of another type, for which
  the source has no handler, is not modelled.
- Intake.RunKeepsInv: users, roles and the knowledge-base row lock are not modelled; uniqueness is shown from the
  constraint alone, for more interleavings than the lock allows.
- Deletion of documents, jobs or knowledge bases: no code path performs it.
- RebuildService.RecordsForChunks: an answer with a wrong count, type or non-finite value is one of the ways in which
  a request fails; only the dimension is checked on the vectors themselves.
- RebuildService.RefillStore: what a request without an answer leaves behind is a first part of its batch, as with a
  store that splits a batch, and it is there at once.
- Other writers during a rebuild by the service: `RebuildService` has none, `IndexAgreement` has them all.
- JsonDepth.ScanPieces: byte limits, decompression and UTF-8 decoding of the streamed body.
- Candidates.LoadAuthoritativeRecords: the clock that is no aware UTC clock.
- Retrieval.Retrieve: a refusal by the keyword stage, which comes before anything modelled here.
- Sessions, passwords, tokens, the web application, migrations and the command line.
