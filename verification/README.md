# Verified model of the Q38 two-stage session runtime

The runtime serves one model session on a pipeline of two stages. A coordinator prepares a
transaction, two stage backends evaluate it chunk by chunk, draft tokens are verified online, and
the result is committed on both stages or rolled back. Around this core sit a durable journal with
torn-tail recovery, a request service with a bounded replay cache, a control plane that mirrors the
canonical tokens, an SSD-backed row store with a page cache and an asynchronous read ring, and some
host arithmetic for the devices. This project models that behaviour in Dafny and proves what it
promises.

`dafny verify dfyconfig.toml` checks everything. The modules, from the inside out:

| module | models |
|---|---|
| `Contracts`, `Faults`, `Wire`, `Arithmetic` | shared types and checks; injected faults; the little-endian codec; products and digits |
| `Engine` | the transaction coordinator |
| `Cancellation` | the cancellation token and all its interleavings |
| `StageBackend`, `Sampling`, `Workers` | one stage, the sampler's transactional state, the FIFO workers under a coordinator that acts on their results |
| `Pipeline`, `Executor` | the chunk pipeline with online verification; the executor's operations |
| `Journal`, `ReplayCache`, `Service` | durable snapshots, at-most-once writers, the request service |
| `ControlPlane` | the single-session owner above the executor |
| `ReadRing`, `PageCache` | the asynchronous read ring with its submission and completion queues; the page cache |
| `PleLayout`, `PleStore`, `NgramHash`, `PleBackend`, `PleExecutor` | the row store, its stage-0 decorator, and a commit over it |
| `Checksum`, `MoeTasks`, `WeightArena`, `WeightTiling` | parallel checksum, task bound, arena placement, W4 tiling |

## Main results

* **Speculation is plain decoding.** A greedy speculative step of any width over any in-vocabulary
  draft publishes the draft exactly up to its first wrong or stop token, and one token more, and
  leaves the session of as many plain decodes (`Executor.DualStageExecutor.SpeculativeStep`,
  `Executor.ChainIsPlainDecodes`). End to end, what a client gets for a history and a budget is
  determined by the model and the text alone: mode, draft width, cached prefix and chunking play no
  part (`ControlPlane.Q38ControlPlane.CompleteFullHistory`, `ControlPlane.GenerationIsDetermined`).
* **Lockstep and atomicity under faults.** With a fault possible at every backend call and a cancel
  possible at every check, the executor is closed or in lockstep after every operation, and a
  failed operation that does not close it changes nothing but the epoch (`Executor.Serve`,
  `Executor.DualStageExecutor.Protected`).
* **No failure without a reason.** Without a fault, an operation fails if and only if the executor is
  closed, the request was cancelled or late, or it is one of the listed refusals, and the exception,
  the status and the API error are the ones that go with the cause
  (`Executor.DualStageExecutor.Append`, `Service.ExecutorRpcService.HandleWriter`,
  `Service.ExecutorRpcService.StatusOfEachCause`, `ControlPlane.Q38ControlPlane.Generate`).
* **One draw per evaluation.** Over every run, the generator of a sampled session is the seed stepped
  once for each successful evaluation since the last reset (`Executor.Serve`).
* **Durability.** After every history of appends, restarts and writes broken off anywhere, the
  journal holds complete records only and remembers the last snapshot written whole, and one more
  torn record changes nothing (`Journal.HistoryRemembers`, `Journal.EveryHistoryRecovers`); after
  every OK writer response the journal holds the executor's tokens, and after a journal failure no
  writer reaches the executor (`Service.ExecutorRpcService.HandleWriter`).
* **At most once.** Over every request sequence each writer id is executed at most once
  (`ReplayCache.AtMostOnce`).
* **The cache is invisible.** Over every sequence of batches, failed ones included, and any
  eviction history, every successful cached read of extents that do not overlap equals the direct
  read (`PageCache.Cache.ReadBatches`); with blocking reads no failure ends the sequence. For
  arbitrary extents the two agree exactly if, at every byte a missing page covers, the last missing
  cover and the last cover hold the same byte (`PageCache.CachedExactlyIfAgreeing`), and there are
  overlaps for which they do not (`PageCache.OverlapCase`). Which pages stay is exactly least recently
  used, and a batch that fits is resident behind itself (`PageCache.BatchStaysResident`).
* **The read ring is right exactly when drained.** From a drained ring, every completion order
  delivers every request its own bytes (`ReadRing.DrainedBatchIsRight`). The ring is drained exactly
  as long as no batch has failed (`ReadRing.DrainedUntilFailure`). After a failure the next batch can
  succeed with another page's bytes (`ReadRing.StaleCompletionIsDelivered`), and a left-over error
  makes every later batch fail (`ReadRing.FailureIsPermanent`). Drained is the exact condition
  (`ReadRing.RightExactlyIfDrained`).
* **Lookups are total and in order.** On an accepted layout every hashed row is usable, lies in one
  part, and its bytes and scale are in bounds (`PleLayout.HashedRowsAreUsable`,
  `PleStore.RowLiesInFile`); a part's rows read in order are its payload (`PleStore.PartInOrder`).
* **The task bound is the maximum.** For every token count, the 32-bit wrap of the route count
  included, the closed form is the exact maximum over all distributions of the routes
  (`MoeTasks.TaskBoundIsExact`), and it covers the tokens' true routes exactly if their number fits
  in 32 bits (`MoeTasks.TaskBoundCoversTokens`).

## Modelling decisions

* Faults: every backend call, read, write and ring operation may fail for outside reasons; each
  time it does, `Environment.faults` is counted up. Contracts compare the count before and after, so
  an error without a fault of its own needs a stated cause, also after earlier faults
  (`Executor.DecodeAfterwards`).
* Tasks handed to a stage worker are executed when submitted. `Workers` proves that this loses
  nothing for a coordinator that submits and waits according to the results it has seen, however far
  the workers lag behind. A stage's own look at the cancellation token is one of its faults.
* Other threads act on a cancellation token at every call through `Interference`; a deadline is a
  nondeterministic step from the active state.
* Hashing (`predict`'s hash, digests, SHA, FNV, the n-gram mixing) is uninterpreted. Request
  fingerprints are the request contents themselves.
* The drafter is an arbitrary function of pending token, position, width and epoch into the
  vocabulary; the fixture's own one is `StageBackend.FixtureDraft`.
* Control plane and executor are configured alike: vocabulary, context limit and stop set agree.
* Stop tokens are a set; the executor keeps them sorted and searches them.
* Integers are unbounded where the source cannot reach the limit, and bounded or wrapped explicitly
  where it can: epochs and frontiers, journal fields, arena offsets, the route count.
* Layout sums and products (`src/ple.cc:104`, `src/ple.cc:136`) are not overflow-checked by the
  source; the model assumes they do not wrap.
* Masks with powers of two are written as division (page offsets, `align_up`); the page key is the
  bitwise or of the shifted file number and the page number.
* Where code and comments disagree the model follows the code: a reset that runs and fails still
  clears the replay cache, sealing a sealed token returns normally, and a reloaded header differs
  from the one in memory unless the last record shared no prefix with its predecessor
  (`Journal.CutSurvivesOnlyWholeRecords`).

## Model

| member | source | states |
|---|---|---|
| `Engine.SessionTxnEngine.Prepare` | src/transaction.cc:64-102 | the new state is the step function's: one transaction at a time, epoch one above the committed one, all guards and overflow refusals |
| `Engine.SessionTxnEngine.PrepareAppendKnown` | src/transaction.cc:30-55 | an append extends canonical before it is committed, or is refused without a trace |
| `Engine.SessionTxnEngine.SeedDecodePending` | src/transaction.cc:57-62 | publishes one pending token without a transaction |
| `Engine.SessionTxnEngine.Acknowledge` | src/transaction.cc:104-124 | accepts one acknowledgement per stage, for the final extent and epoch only |
| `Engine.SessionTxnEngine.ShortenSpeculative` | src/transaction.cc:126-139 | only an unacknowledged speculative transaction can shrink |
| `Engine.SessionTxnEngine.Decide` | src/transaction.cc:141-169 | one decision per prepared transaction, with a prefix that fits its kind; acknowledgements are not asked for here but at the commit |
| `Engine.SessionTxnEngine.Commit` | src/transaction.cc:171-203 | all frontiers move together, or nothing changes |
| `Engine.SessionTxnEngine.Rollback` | src/transaction.cc:205-215 | restores canonical and consumes the epoch |
| `Engine.SessionTxnEngine.Reset` | src/transaction.cc:217-224 | everything back to zero |
| `Engine.StepKeepsInv` | src/transaction.cc:24-224 | every operation, successful or not, keeps stage0 = stage1 = target, draft <= target <= canonical, active epoch = committed epoch + 1 |
| `Engine.EveryRunKeepsInv` | src/transaction.cc:24-224 | so does every sequence of operations; acknowledgements always name the final, possibly shortened, extent |
| `Engine.EpochsAreConsumedOnce` | src/transaction.cc:64-224 | a successful commit or rollback advances the epoch by exactly one, and nothing but a reset changes it otherwise |
| `Engine.CommitFailsOnlyOnOverflow` | src/transaction.cc:171-203 | a decided, doubly acknowledged transaction commits if and only if no 64-bit counter overflows |
| `Engine.RollbackAlwaysSucceeds` | src/transaction.cc:205-215 | an active transaction can always be rolled back; every frontier it found is restored and the epoch is consumed |
| `Cancellation.CancellationToken.RequestCancel` | include/q38/backend.h:43-47 | true exactly from the active state |
| `Cancellation.CancellationToken.AnswerCancel` | src/rpc.cc:443-453 | a cancel is answered OK exactly if the token is not sealed, and that answer is a promise the token remembers |
| `Cancellation.CancellationToken.ThrowIfRequested` | include/q38/backend.h:53-60 | throws exactly when cancelled or expired, whatever other threads do meanwhile |
| `Cancellation.CancellationToken.Seal` | include/q38/backend.h:62-68 | returns normally exactly if the token ends up sealed |
| `Cancellation.RunKeepsWorldInv` | include/q38/backend.h:34-90 | over every interleaving of atomic steps a token is won by at most one side |
| `Cancellation.CancelExcludesSeal` | include/q38/backend.h:43-68 | no run has both an acknowledged cancel and a normal return of seal |
| `StageBackend.ChunkSizeDoesNotMatter` | src/mock_backend.cc:124-127 | for every chunk size the provisional state and digest equal those of one chunk; `Pipeline.Stages.RunChunks` states it of the stages |
| `StageBackend.DigestOfConcat` | src/mock_backend.cc:20-26 | the token digest is a fold, so it can be taken up anywhere |
| `StageBackend.DigestTakesIn` | src/mock_backend.cc:20-26 | every token is mixed in, starting from the seed |
| `StageBackend.DigestTokens` | src/mock_backend.cc:20-26 | the loop computes that fold |
| `StageBackend.MockStageBackend.Execute` | src/mock_backend.cc:88-206 | accepts exactly the next contiguous chunk with an intact payload on a lane that may ask for logits; a throw leaves the state untouched or extended by the chunk, and needs a reason |
| `StageBackend.MockStageBackend.AcceptChunk` | src/mock_backend.cc:90-127 | the bookkeeping accepts if and only if the chunk continues the provisional range |
| `StageBackend.MockStageBackend.EmitPrediction` | src/mock_backend.cc:159-205 | the reported token is the prediction after the reported prefix; a wrong payload checksum and logits on another lane are refused |
| `StageBackend.MockStageBackend.CountAccepted` | src/mock_backend.cc:182-188 | the accepted prefix is the longest one in which each token is its predecessor's prediction |
| `StageBackend.MockStageBackend.DraftRetained` | src/mock_backend.cc:50-58 | argument checks; without a fault, exactly the drafter's answer |
| `StageBackend.FixtureDraft` | src/mock_backend.cc:208-230 | the fixture's own drafter is right up to a depth that the position decides and wrong there, so that every depth from none to the whole width occurs |
| `StageBackend.MockStageBackend.CheckpointSpeculativePrefix` | src/mock_backend.cc:233-241 | accepted only on stage 0, for the open speculative epoch, at the processed extent |
| `StageBackend.MockStageBackend.Commit` | src/mock_backend.cc:243-266 | commits exactly a complete extent, an exact online prefix, or a checkpointed one with one row of lookahead |
| `StageBackend.MockStageBackend.Rollback` | src/mock_backend.cc:268-287 | consumes the epoch and clears exactly the provisional state |
| `StageBackend.MockStageBackend.ResetSession` | src/mock_backend.cc:289-301 | refused while a transaction is open, fresh state otherwise |
| `Sampling.CountsAreOccurrences` | src/sampling.cc:148-172 | every penalty count is the number of occurrences of its token |
| `Sampling.CountedAllConcat` | src/sampling.cc:158-172 | counting tokens in pieces is counting them at once |
| `Sampling.PenaltyTakesIn` | src/sampling.cc:158-172 | the penalty checksum takes in every token with its number |
| `Sampling.TransactionalSampler.Prepare` | src/sampling.cc:59-146 | changes no state; the decision is a function of logits, counts, extra tokens and generator |
| `Sampling.TransactionalSampler.Commit` | src/sampling.cc:148-156 | installs exactly the prepared generator state, and refuses a stale decision |
| `Sampling.TransactionalSampler.CommitTokens` | src/sampling.cc:158-172 | counts every token exactly if all are inside the vocabulary; otherwise exactly the tokens before the first one outside |
| `Sampling.TransactionalSampler.Reset` | src/sampling.cc:174-178 | back to the seed and zero counts |
| `Workers.LagMakesNoDifference` | src/executor.cc:47-76 | whatever the schedule, a coordinator that acts on results has seen what it would see if every task ran at submission, each worker has finished a prefix of its tasks, and draining the rest reaches the same states |
| `Workers.DrainSubmit` | src/executor.cc:63-76 | a task submitted behind others runs after them |
| `Pipeline.ExtentsCommit` | src/executor.cc:384-441 | at an early stop with prefix k, stage 0 with k+1 rows and its checkpoint at k and stage 1 with k rows both accept a commit of k |
| `Pipeline.NextChunk` | src/executor.cc:269-295 | the next chunk of rows is accepted and leaves both the rows and their digest as if fed at once |
| `Pipeline.Stages.SubmitStage0` | src/executor.cc:269-295 | stage 0 holds the rows up to the chunk's end, or the failure is recorded |
| `Pipeline.Stages.Receive` | src/executor.cc:345-383 | every mismatch between frame and chunk is refused before stage 1 runs |
| `Pipeline.Stages.RunStage1` | src/executor.cc:353-383 | stage 1 holds the rows up to the chunk's end and reports the prediction from them |
| `Pipeline.Stages.Judge` | src/executor.cc:402-439 | a draft row is accepted if and only if it is the prediction and no stop token; otherwise verification ends there with the online extents |
| `Pipeline.Stages.FillDraft` | src/executor.cc:324-343 | the rows are the pending token and exactly what the drafter answered |
| `Pipeline.Stages.PlaceDraft` | src/executor.cc:324-343 | a draft is taken if and only if it has the asked width and lies inside the vocabulary; it is placed unchanged behind the pending token |
| `Pipeline.Stages.RunChunks` | src/executor.cc:345-442 | the verified rows on both stages, a speculative transaction's being the drafter's, each stage with the digest of its rows from its own seed however they were chunked, and one prediction from the last row; every failure is a fault, the token's own, or a boundary that cannot be framed |
| `Pipeline.Stages.VerifyFrom` | src/executor.cc:345-442 | the accepted prefix, its extents, and the prediction after it |
| `Pipeline.Stages.CheckAndSeal` | src/executor.cc:651-654 | success means sealed |
| `Executor.DualStageExecutor.RollbackPrepared` | src/executor.cc:196-211 | both stages and the coordinator are back at rest, or the executor is closed |
| `Executor.DualStageExecutor.TruncateAtStop` | src/executor.cc:477-494 | cuts at the first stop token among the accepted rows and publishes it, or keeps everything |
| `Executor.DualStageExecutor.Conclude` | src/executor.cc:450-494 | what is committed is what was verified: after online verification the truncation loop never fires |
| `Executor.DualStageExecutor.Coordinate` | src/executor.cc:506-523 | acknowledgements, decision and commit of a decidable extent always succeed |
| `Executor.DualStageExecutor.CommitStages` | src/executor.cc:525-547 | both stages commit and the sampler follows, or the executor is closed |
| `Executor.DualStageExecutor.Attempt` | src/executor.cc:261-502 | everything before the commit point leaves a state from which rollback works; the exception says why |
| `Executor.DualStageExecutor.RunTransaction` | src/executor.cc:213-585 | commits on coordinator, stages and sampler together, or leaves them at rest where they were, or closes; each exception class has its own causes |
| `Executor.DualStageExecutor.Protected` | src/executor.cc:261-585 | each exception path rolls back; it closes the executor if the failure is fatal, and otherwise only after a fault |
| `Executor.SpeculativeChain` | src/executor.cc:408-439 | what online verification accepts plus its last prediction is a greedy chain with no stop token before its end |
| `Executor.ChainIsPlainDecodes` | src/executor.cc:689-737 | publishing a greedy chain at once gives the session of decoding it token by token |
| `Executor.DecodeEffect` | src/executor.cc:672-687 | a decode, field by field: one token, all before it evaluated, one generator step in a sampled session and none in a greedy one, one more occurrence counted |
| `Executor.AppendEffect` | src/executor.cc:614-646 | an append, field by field |
| `Executor.DrawnFrom` | src/sampling.cc:59-146 | what is drawn from what: the prediction, the counts, the generator, and behind an append the evaluated rows once more |
| `Executor.MoreDecodesExtendFewer` | src/executor.cc:672-687 | fewer decodes publish a prefix of what more decodes publish |
| `Executor.DualStageExecutor.Append` | src/executor.cc:614-646 | the tokens are appended and the next sample is the prediction from the last one, for every chunk size; a sampled session draws exactly once; without a fault it fails if and only if it is closed, interrupted or refused, with the exception that fits |
| `Executor.DualStageExecutor.SeedDecode` | src/executor.cc:648-670 | publishes the prepared sample; fails exactly when closed, interrupted, without a sample, full, or already pending, with the exception that fits |
| `Executor.DualStageExecutor.DecodeOne` | src/executor.cc:672-687 | one plain decode and, in a sampled session, one draw; without a fault it fails if and only if it is closed, interrupted or refused, with the exception that fits |
| `Executor.DualStageExecutor.SpeculativeStep` | src/executor.cc:689-737 | publishes the drafted tokens up to the first that is not predicted or a stop token, and one more, for the whole width that fits the context; k published tokens are k plain decodes; sampled sessions decode plainly; failures as for a decode, and a width above 64 |
| `Executor.DualStageExecutor.StepDepth` | src/executor.cc:711-734 | without stop tokens the depth to which the draft is right is the number of tokens published |
| `Executor.DualStageExecutor.ResetSession` | src/executor.cc:739-772 | an empty session, or a closed executor |
| `Executor.DualStageExecutor.FailClosed` | src/executor.cc:851-851 | closes the executor |
| `Executor.Serve` | src/executor.cc:614-772 | after any sequence of operations with faults anywhere: closed or in lockstep, closed stays closed, only a reset loses tokens, and the generator is the seed stepped once per successful evaluation since the last reset |
| `Executor.DecodeAfterwards` | src/executor.cc:672-687 | after any operations and recovered faults, a decode that meets no fault of its own succeeds |
| `Wire.DecodeEncode` | src/snapshot.cc:38-72 | a field survives the disk |
| `Wire.ByteOfNumber` | src/snapshot.cc:38-55 | byte i of a field is the i-th digit to base 256, least significant first |
| `Wire.FieldAt` | include/q38/snapshot.h:19-36 | a field begins where the fields before it end |
| `Wire.DecodeEncodeInts` | src/snapshot.cc:184-189 | so do the token ids |
| `Journal.HeaderSize` | include/q38/snapshot.h:19-46 | the header takes 176 bytes |
| `Journal.StartLayout` | include/q38/snapshot.h:19-25 | magic, version, size, identity, sequence and timestamp at their offsets |
| `Journal.FrontierLayout` | include/q38/contracts.h:73-80 | the six frontiers from byte 32 on |
| `Journal.SamplerLayout` | include/q38/snapshot.h:26-27 | the sampler record from byte 80 on |
| `Journal.CountLayout` | include/q38/snapshot.h:28-32 | counts, start, payload size and token checksum from byte 120 on |
| `Journal.EndLayout` | include/q38/snapshot.h:33-36 | last sample, flags and record checksum end the header |
| `Journal.HeaderRoundTrip` | include/q38/snapshot.h:19-46 | decoding an encoded header gives it back |
| `Journal.CommonPrefix` | src/snapshot.cc:240-245 | the longest common prefix of two token lists |
| `Journal.ReadRecordIsLocal` | src/snapshot.cc:165-203 | what a complete record means does not depend on what follows it |
| `Journal.RecordVerdict` | src/snapshot.cc:165-203 | a complete record is taken if and only if it is the journal's own, newer, continues the tokens, describes a valid state and carries its own checksums; any other is an error |
| `Journal.AlteredRecordIsCorrupt` | src/snapshot.cc:190-192 | an appended record with altered header or tokens is an error unless the record checksum cannot tell the two apart |
| `Journal.TakenAreSealed` | src/snapshot.cc:165-203 | whatever a file holds, every record a load has taken has the journal's identity, a growing sequence number and the checksum of its own contents |
| `Journal.TakenFollow` | src/snapshot.cc:163-203 | the records taken follow each other from the first byte to the last valid one |
| `Journal.AppendWrites` | src/snapshot.cc:232-271 | an append writes the header and only the tokens behind the common prefix, and keeps the state it was given under the next sequence number |
| `Journal.LoadResumes` | src/snapshot.cc:154-219 | reading after a consumed prefix continues where reading the prefix ended |
| `Journal.RecordReadsBack` | src/snapshot.cc:154-271 | loading an appended record rebuilds the snapshot's tokens, sequence and header |
| `Journal.TornRecordIsIgnored` | src/snapshot.cc:57-72 | a record that breaks off anywhere is not there at all |
| `Journal.AppendKeepsIntact` | src/snapshot.cc:232-271 | a journal that can be replayed stays so after an append |
| `Journal.TornTailIsCut` | src/snapshot.cc:165-213 | a torn tail changes nothing about what is loaded |
| `Journal.HistoryIsIntact` | src/snapshot.cc:137-271 | every sequence of appends, restarts and broken writes, forks and truncations included, leaves complete records that replay to the current snapshot |
| `Journal.HistoryRemembers` | src/snapshot.cc:137-271 | and that snapshot has the tokens of the last append written whole |
| `Journal.ReopenIntact` | src/snapshot.cc:137-219 | a restart keeps the file and the state |
| `Journal.CrashKeepsIntact` | src/snapshot.cc:38-53 | a write broken off anywhere and reopened is no write, or the whole one |
| `Journal.EveryHistoryRecovers` | src/snapshot.cc:137-271 | after every such history plus any strict prefix of one more record: reopening restores tokens, sequence, frontiers, sampler and last sample, cuts the file to the complete records, and appends can go on |
| `Journal.CutSurvivesOnlyWholeRecords` | src/snapshot.cc:204-205 | the reloaded header equals the one in memory if and only if the last record shared no prefix with the one before |
| `Journal.ValidBytesSuffice` | src/snapshot.cc:202-213 | cutting the file to its valid bytes changes nothing about what it holds |
| `Journal.LoadFile` | src/snapshot.cc:154-219 | the read loop computes the replay |
| `Journal.SnapshotJournal.constructor` | src/snapshot.cc:137-219 | opening leaves complete records only, and the last snapshot in memory |
| `Journal.SnapshotJournal.Append` | src/snapshot.cc:232-271 | success appends the record and installs the snapshot; a failure keeps the snapshot and leaves a file that restarts at the old token list or the new one; it needs an invalid snapshot or an outside failure |
| `Journal.BrokenWriteRestarts` | src/snapshot.cc:38-53 | wherever a write breaks off, a restart finds the old token list or the new one |
| `Journal.CommonLength` | src/snapshot.cc:240-245 | the comparison loop finds the common prefix |
| `ReplayCache.StoreHolds` | src/rpc.cc:585-613 | queue and map keep the same strictly increasing ids, at most 4096, each with its own response |
| `ReplayCache.EverySequenceHolds` | src/rpc.cc:466-613 | over every request sequence |
| `ReplayCache.AtMostOnce` | src/rpc.cc:466-499 | each writer id is executed at most once |
| `ReplayCache.RepeatedIdVerdict` | src/rpc.cc:474-492 | a repeated id is answered verbatim if retained with equal contents, a conflict if retained with others, stale otherwise |
| `Service.SnapshotValidates` | src/executor.cc:827-844 | the snapshot of a healthy executor passes validation once the journal gives it a sequence |
| `Service.ExecutorRpcService.TakeSnapshot` | src/executor.cc:827-844 | the snapshot carries the executor's own tokens, frontiers, generator, counts and last sample |
| `Service.ExecutorRpcService.Dispatch` | src/rpc.cc:508-569 | OK means the operation happened and the token is sealed; any other status leaves the tokens alone and has its cause: a fault, the cancellation, the deadline, or a refusal of that request |
| `Service.ExecutorRpcService.DispatchAppend` | src/rpc.cc:511-513 | an append without a fault, a cancel or a deadline is answered OK if and only if the executor has no reason to refuse it |
| `Service.ExecutorRpcService.StatusOfEachCause` | src/rpc.cc:543-569 | bad tokens and too large widths are bad requests, no room is exhausted capacity, the rest is an internal error or a closed executor, and nothing else is refused |
| `Service.ExecutorRpcService.DispatchReset` | src/rpc.cc:529-537 | sealed before the executor is touched |
| `Service.ExecutorRpcService.Persist` | src/rpc.cc:571-583 | the journal has the executor's tokens, frontiers, generator and last sample, or the executor is closed, after a fault or with no sequence number left |
| `Service.ExecutorRpcService.Remember` | src/rpc.cc:596-613 | the cache becomes the one the replay model stores |
| `Service.ExecutorRpcService.HandleWriter` | src/rpc.cc:466-615 | executed once and durable, or answered from memory with nothing changed; a closed executor is never reached; OK means no cancel of it was answered OK; any other answer has its cause and the status that goes with it |
| `Service.ExecutorRpcService.HandleCancel` | src/rpc.cc:426-464 | malformed ones refused; OK if and only if the named writer is the active one and not sealed, and that answer is recorded on its token |
| `Service.ExecutorRpcService.Handle` | src/rpc.cc:426-654 | every request: malformed ones, cancels without a running writer and reads change nothing; a closed executor stays closed |
| `ControlPlane.DecodesAreText` | src/executor.cc:672-687 | plain decoding writes the text in which each token is its predecessor's prediction |
| `ControlPlane.TextTwice` | tools/q38_control_plane.py:497-547 | generating in two rounds is generating once |
| `ControlPlane.GenerationIsDetermined` | tools/q38_control_plane.py:468-547 | budget, stop set and text determine the result; mode, width and cache do not enter |
| `ControlPlane.Q38ControlPlane.CreateSession` | tools/q38_control_plane.py:251-274 | refused if and only if a session exists, or the executor is closed or not empty |
| `ControlPlane.Q38ControlPlane.SessionChecked` | tools/q38_control_plane.py:298-304 | a session is found if and only if it is the live one; otherwise the not-found error |
| `ControlPlane.Q38ControlPlane.ReplaceSession` | tools/q38_control_plane.py:276-296 | an empty session on an empty executor; or refused with the session kept, and the executor closed or unchanged; the divergence error is never raised |
| `ControlPlane.Q38ControlPlane.ResetRecord` | tools/q38_control_plane.py:355-368 | executor and record are cleared together; or refused with the record kept, and the executor closed or unchanged |
| `ControlPlane.Q38ControlPlane.AppendLocked` | tools/q38_control_plane.py:370-390 | the record grows exactly when the executor does; divergence is never raised |
| `ControlPlane.Q38ControlPlane.AppendFullHistory` | tools/q38_control_plane.py:404-452 | the session ends with exactly the given history on hit and rebuild; hit, cold start and rebuild are reported exactly as they happened |
| `ControlPlane.Q38ControlPlane.Advance` | tools/q38_control_plane.py:501-521 | the prepared sample, or a step that drafts what mode, width and remaining budget ask for; between one and the remaining number of tokens, a stop token only last; refused only after a fault, a cancel, a deadline, or when the executor cannot go on |
| `ControlPlane.Q38ControlPlane.Round` | tools/q38_control_plane.py:499-533 | the mirror follows; oversized, invalid or diverging responses never occur; refused only with the executor's reasons |
| `ControlPlane.Q38ControlPlane.Generate` | tools/q38_control_plane.py:468-547 | terminates within budget and context; the exact count unless a stop token ends it; only the last event has a finish reason, stop or length as it was; greedily the predicted text; every error is a refusal before the start or has a fault, a cancel, a deadline or an exhausted executor behind it |
| `ControlPlane.Q38ControlPlane.CompleteFullHistory` | tools/q38_control_plane.py:568-593 | the result depends only on history, budget and stop set; the not-found error exactly without that session, and every other error is a bad or too long history, a refusal of the generation, or has the executor's reasons |
| `ReadRing.SubmitPartitions` | src/ple.cc:402-424 | free and busy buffers stay all buffers, and a buffer in flight is never handed out |
| `ReadRing.SubmitAccounts` | src/ple.cc:402-424 | a submitted request is served by exactly one buffer |
| `ReadRing.ReapAccounts` | src/ple.cc:458-487 | a completion delivers a request that was not delivered before |
| `ReadRing.AllDelivered` | src/ple.cc:398-490 | as many deliveries as requests means every request |
| `ReadRing.Ring.Refill` | src/ple.cc:398-424 | takes free buffers and queue entries until requests, buffers or entries run out |
| `ReadRing.Ring.Read` | src/ple.cc:378-491 | for every state an earlier batch left and every schedule of submissions, completions and faults, the loop computes the batch function the lemmas are about |
| `ReadRing.Ring.ReadDrained` | src/ple.cc:378-491 | on a drained ring success delivers every request once with its file's bytes and drains the ring; failure has an outside cause or an unreadable request |
| `ReadRing.FillIsBusy` | src/ple.cc:398-443 | while requests are left something is in flight, so the no-progress error cannot occur |
| `ReadRing.BatchConserves` | src/ple.cc:378-491 | a batch that succeeds leaves as many entries in the ring as it found, one that fails at least as many and at least one |
| `ReadRing.DrainedUntilFailure` | src/ple.cc:378-491 | from a fresh ring: drained if and only if no batch has failed |
| `ReadRing.DrainedBatchIsRight` | src/ple.cc:378-491 | on a drained ring, for every completion order, success means every request's own bytes, and readable requests without a fault succeed |
| `ReadRing.StaleCompletionIsDelivered` | src/ple.cc:445-491 | after a failed wait the next batch succeeds with the bytes of the earlier batch's page |
| `ReadRing.LeftoverIsDelivered` | src/ple.cc:445-491 | whatever is left in the ring is what the next request gets, if it succeeds |
| `ReadRing.FailedCompletionBlocks` | src/ple.cc:458-488 | an unconsumed completion with an error fails the batch and stays |
| `ReadRing.FailureIsPermanent` | src/ple.cc:458-488 | and so every later one |
| `ReadRing.RightExactlyIfDrained` | src/ple.cc:378-491 | as soon as two readable requests have different bytes: batches are right on every faultless schedule if and only if the ring is drained |
| `PageCache.KeysAreInjective` | src/ple.cc:835-838 | below 2^56 a key names one page of one file |
| `PageCache.LargePagesCollide` | src/ple.cc:835-838 | the first pages beyond 2^56 share their keys with the next file if the file number is even, with the same file if it is odd |
| `PageCache.KeysDistinctExactlyBelow` | src/ple.cc:835-838 | keys tell all pages below n apart if and only if n is at most 2^56 |
| `PageCache.DirectAt` | src/ple.cc:790-806 | after direct reads each byte is that of the last extent that covers it, or untouched |
| `PageCache.DirectDelivers` | src/ple.cc:790-806 | the byte that extent i is the last to cover is the file's byte at the same distance from the extent's start; uncovered bytes stay |
| `PageCache.CutReads` | src/ple.cc:826-834 | reading page by page is reading the extents |
| `PageCache.CachedExactlyIfAgreeing` | src/ple.cc:826-953 | hits first, misses later equals reading in order if and only if, at every byte, the last missing cover and the last cover agree |
| `PageCache.CachedIsDirect` | src/ple.cc:826-953 | extents that do not overlap always agree, whatever is resident |
| `PageCache.OverlapDiffers` | src/ple.cc:841-868 | a missing extent under a resident one arrives last |
| `PageCache.OverlapCase` | src/ple.cc:841-868 | so in any file with two different bytes on two pages, one of them resident, an overlapping batch differs from direct reads |
| `PageCache.PieceFits` | src/ple.cc:829-834 | the piece of an extent in one page lies inside the page's part of the file |
| `PageCache.ReadUncached` | src/ple.cc:790-806 | without a cache the loop computes the direct read |
| `PageCache.ReadFully` | src/ple.cc:792-804 | partial reads add up to the requested bytes |
| `PageCache.Cache.constructor` | src/ple.cc:289-295 | an empty cache of capacity divided by page size |
| `PageCache.Cache.AcquirePage` | src/ple.cc:305-336 | always succeeds: evicts exactly the least recently used page when full, nobody otherwise |
| `PageCache.Cache.Evict` | src/ple.cc:325-336 | the two error branches are unreachable |
| `PageCache.Cache.Grow` | src/ple.cc:306-319 | a new chunk adds distinct free pages and never exceeds the capacity |
| `PageCache.Cache.Install` | src/ple.cc:954-962 | the page is resident and most recently used; list, map and pool stay in bijection |
| `PageCache.Cache.Touch` | src/ple.cc:841-845 | a hit moves its key to the front and changes nothing else |
| `PageCache.Cache.PlanPiece` | src/ple.cc:829-868 | a hit is copied at once, a miss is queued once and its copy waits |
| `PageCache.Cache.PlanExtent` | src/ple.cc:826-870 | hits are copied, misses wait for their page; refused exactly for file numbers of 256 and more |
| `PageCache.Cache.CopyPending` | src/ple.cc:950-953 | with the fetched pages the output is that of the hits and then the misses |
| `PageCache.Cache.FetchBuffered` | src/ple.cc:915-937 | page after page, or an outside failure |
| `PageCache.Cache.FetchDirect` | src/ple.cc:888-914 | the same pages through the ring |
| `PageCache.Cache.InstallAll` | src/ple.cc:954-963 | every fetched page is pushed to the front in order and the oldest fall out, also when the batch exceeds the cache |
| `PageCache.PushedAllKeepsNewest` | src/ple.cc:954-963 | the recency list is the fetched pages, newest first, before the old list, cut to the capacity |
| `PageCache.HitsInFront` | src/ple.cc:841-845 | after the copies the pages that were hit are in front of all others |
| `PageCache.BatchStaysResident` | src/ple.cc:841-962 | every page of a batch is resident behind it unless the batch alone has more pages than the cache |
| `PageCache.Cache.ReadExtents` | src/ple.cc:778-964 | success is the hits and then the misses, which without overlaps is the direct read, and leaves the recency list with the hits moved up in order and the fetched pages pushed before it; failure makes no page resident and is an invalid request, a file number of 256 and more, or a fault; only a fault of a ring ends the cache's life |
| `PageCache.Cache.ReadBatches` | src/ple.cc:778-964 | in every sequence of batches every success is the direct read, failed batches in between included; with blocking reads or without a fault the whole sequence is answered, and without a fault every failure is an invalid request or a file number of 256 and more |
| `PleLayout.ValidateLayout` | src/ple.cc:84-158 | passes if and only if some arrangement of the tables is acceptable and, where asked for, the files have the recorded sizes; returns that one arrangement |
| `PleLayout.OneArrangement` | src/ple.cc:109-130 | with distinct keys the order of a sort is forced, so its algorithm does not matter |
| `PleLayout.CheckHeads` | src/ple.cc:99-107 | accepts exactly contiguous nonempty head ranges that end at the usable rows |
| `PleLayout.CheckParts` | src/ple.cc:131-157 | accepts exactly contiguous parts inside their files that cover the padded rows |
| `PleLayout.HeadRowsAreUsable` | src/ple.cc:265-274 | a head's row is usable and in that head's range only |
| `PleLayout.HashedRowsAreUsable` | src/ple.cc:247-281 | every row of every token history is usable |
| `PleLayout.RowHasOnePart` | src/ple.cc:131-157 | each padded row lies in exactly one part |
| `PleLayout.UpperBound` | src/ple.cc:741-745 | the binary search splits the parts at the row |
| `PleLayout.FindPart` | src/ple.cc:738-752 | finds the row's part; fails if and only if the row is not usable |
| `PleStore.RowLiesInFile` | src/ple.cc:1024-1031 | every usable row and its scale lie inside their files |
| `PleStore.BatchIsReadable` | src/ple.cc:1012-1037 | a row batch asks for valid extents that do not overlap |
| `PleStore.BatchRead` | src/ple.cc:1012-1037 | reading those extents is reading the rows in order |
| `PleStore.SlotHoldsRow` | src/ple.cc:1024-1031 | slot k of a batch holds the bytes that lie at the row's place in its part, rows counted from the part's start |
| `PleStore.PartInOrder` | src/ple.cc:1024-1031 | the rows of a part read in order are the part's payload |
| `PleStore.Store.ScalesInOrder` | src/ple.cc:1049-1054 | the scale of a part's n-th row is the n-th entry of its scale table |
| `PleStore.Store.LoadScales` | src/ple.cc:660-684 | the scale tables in memory are those of the files |
| `PleStore.Store.ReadRows` | src/ple.cc:1001-1038 | exactly the rows' bytes, cached or not; a refusal needs an unusable row, an outside failure, or more than 256 files |
| `PleStore.Store.ReadRowScales` | src/ple.cc:1040-1055 | exactly the rows' scales; fails if and only if there are no scales or a row is unusable |
| `NgramHash.RowsConcat` | src/ple.cc:247-281 | hashing a history in pieces gives the rows of hashing it at once |
| `NgramHash.AfterConcat` | src/ple.cc:275-279 | and the same context |
| `NgramHash.ContextIsLastTwo` | src/ple.cc:255-280 | only the last two tokens matter |
| `NgramHash.EosIsolates` | src/ple.cc:261-264 | behind an end-of-sequence token the rows are those of a new session |
| `NgramHash.RowOfBatch` | src/ple.cc:258-274 | which token and head each row of a batch belongs to |
| `NgramHash.RowValue` | src/ple.cc:258-274 | heads 0 to 7 hash a token with its predecessor, heads 8 to 15 also with the one before unless the predecessor ends a sequence, each modulo its size behind its offset |
| `NgramHash.NearHeadsIgnoreFar` | src/ple.cc:263-268 | the token two back plays no part in heads 0 to 7 |
| `NgramHash.FarHeadsSeeFar` | src/ple.cc:269-274 | in heads 8 to 15 it changes the row if and only if the third mixing step tells the tokens apart modulo the head's size |
| `NgramHash.SomeConfigurationSeesFar` | src/ple.cc:269-274 | and for every such head there is a configuration that does |
| `NgramHash.PleHashState.Rows` | src/ple.cc:247-281 | one bad token refuses the batch and keeps the context; otherwise rows and context are the stream's |
| `PleBackend.PleStage0Backend.Execute` | src/ple_backend.cc:38-77 | candidates follow the wrapped stage's tokens; a failed lookup drops them and keeps the committed context; with blocking reads the store can be asked again after any fault |
| `PleBackend.HashesFollow` | src/ple_backend.cc:58-71 | candidate i is the context after the first i+1 tokens, however they were chunked |
| `PleBackend.RowDigestOfBatch` | src/ple_backend.cc:58-71 | looking rows up token by token mixes in what one read of all rows gives, sixteen at a time |
| `PleBackend.AcceptedChunkContinues` | src/ple_backend.cc:44-50 | a chunk both sides accept continues the candidates where they end |
| `PleBackend.FailedLookupOnlyRollsBack` | src/ple_backend.cc:73-92 | after a failed lookup neither a chunk nor a commit is accepted |
| `PleBackend.EarlyStopIsRefused` | src/ple_backend.cc:87-93 | an online stop after k rows is refused if and only if rows are left beyond the lookahead; the bare stage would commit it |
| `PleExecutor.CommitOver` | src/executor.cc:506-547 | over the decorator the coordinator commits and then, if rows are left, the executor closes; without a fault it closes in no other case |
| `PleBackend.PleStage0Backend.Commit` | src/ple_backend.cc:87-99 | a commit of k leaves the context after exactly the first k tokens |
| `PleBackend.PleStage0Backend.Rollback` | src/ple_backend.cc:101-109 | drops the candidates and keeps the committed context |
| `PleBackend.PleStage0Backend.ResetSession` | src/ple_backend.cc:111-119 | the start context, or nothing changed |
| `Checksum.HostChecksum` | src/contracts.cc:42-57 | the host loop computes the exclusive or of the mixed words and count |
| `Checksum.OneWordIsNoticed` | src/contracts.cc:42-57 | one altered word changes the checksum if and only if the mixing tells the two words apart at that place |
| `Checksum.SharesAreComplete` | cuda/cuda_transport.cu:46-52 | the strided shares of all threads together are all words |
| `Checksum.Accumulate` | cuda/cuda_transport.cu:40-52 | one thread's loop computes its share |
| `Checksum.TreeIsXor` | cuda/cuda_transport.cu:55-59 | on a power-of-two block the tree computes the exclusive or of all partial values |
| `Checksum.OtherBlocksLose` | cuda/cuda_transport.cu:55-59 | for every other block size some contents come out wrong |
| `Checksum.Reduce` | cuda/cuda_transport.cu:53-59 | the in-place reduction |
| `Checksum.DeviceChecksum` | cuda/cuda_transport.cu:33-62 | every grid with power-of-two blocks, finishing in any order, gives the host's checksum |
| `MoeTasks.NeverMore` | include/q38/cuda_moe_prefill.h:77-83 | no distribution of the routes needs more tasks than the closed form |
| `MoeTasks.Worst` | include/q38/cuda_moe_prefill.h:77-83 | for any number of routes some distribution needs exactly that many |
| `MoeTasks.TaskBoundIsExact` | include/q38/cuda_moe_prefill.h:73-83 | for every 32-bit token count and its route count, wrap included, the closed form is the maximum over all distributions |
| `MoeTasks.TaskBoundCoversTokens` | include/q38/cuda_moe_prefill.h:73-83 | it bounds the tasks of the tokens' true routes if and only if their number fits in 32 bits |
| `MoeTasks.WorstIsFair` | include/q38/cuda_moe_prefill.h:77-83 | and is then reached with no expert above the token count |
| `WeightArena.AlignUp` | cuda/cuda_weights.cu:25-32 | the least aligned value not below; fails if and only if the alignment is no power of two or the sum overflows |
| `WeightArena.PlaceOne` | cuda/cuda_weights.cu:158-176 | data and scales go behind everything placed so far, aligned |
| `WeightArena.PlaceAll` | cuda/cuda_weights.cu:120-184 | every resident tensor once, aligned, extents in order without overlap and inside the arena; failures have a stated cause |
| `WeightTiling.TiledRoundTrip` | cuda/cuda_weights.cu:255-273 | device addresses and cells determine each other |
| `WeightTiling.RowMajorRoundTrip` | cuda/cuda_weights.cu:255-273 | so do host addresses and cells |
| `WeightTiling.UploadIsPermutation` | cuda/cuda_weights.cu:229-285 | the upload is a bijection of byte addresses, with its inverse |
| `WeightTiling.LineIsRowMajor` | cuda/cuda_weights.cu:255-271 | the loop's source offset is the row-major address |
| `WeightTiling.UploadTiled` | cuda/cuda_weights.cu:229-285 | the same device contents for every staging size of at least one tile; the size error is unreachable |
| `WeightTiling.TilesReadBack` | cuda/cuda_weights.cu:229-285 | read through the tile address formula the device holds what the host holds |
| `WeightTiling.UploadFormula` | cuda/cuda_weights.cu:229-285 | in the source's numbers: row r, byte b of matrix m goes to its 16 by 16 tile, tiles row by row, 128 bytes each |

## Left out

- CUDA kernels, streams, events, graphs and device memory; the stage backend is the CPU fixture.
- Floating-point sampling and quantization numerics; `Sampling` keeps the transactional state.
- Sockets, HTTP, subprocesses, tokenizer, chat templates, tool-call parsing, metrics, latency and host counters, diagnostic logits, response message texts.
- Contents and size of the boundary payload beyond its checksum, and the session identity check.
- The slot leases of the boundary ring (`cuda/cuda_transport.cu`): one flag per slot under a lock.
- The text format of the layout file; the model starts from the parsed tables.
- The transport between control plane and executor: `ControlPlane` calls the executor directly, so request ids, retries and lost responses are not part of it. Block hashes and cache counters of a session record are not modelled.
- Finitely many interrupted system calls: a read, write or wait that is interrupted and repeated counts as one.
- Service.ExecutorRpcService.constructor: a journaled service starts on an empty executor and an opened journal; rebuilding an executor from a snapshot happens outside these files.
- ReadRing.Ring.Read: ring counters do not wrap.
- PageCache.Cache.ReadBatches: with a ring the sequence ends at the first batch that meets a fault; what its ring does afterwards is stated in `ReadRing`.
- PageCache.Cache.ReadExtents: files are assumed small enough for page numbers below 2^56, since beyond that keys collide (PageCache.LargePagesCollide).
- Journal.SnapshotJournal.Append: says nothing about appending again after a failed write without reopening; the service closes the executor at that point.
- ControlPlane.Q38ControlPlane.Generate: that a sampled session may run out of candidates is stated once for the whole generation, not per token.
- Executor.DualStageExecutor.RunTransaction: statistics, latencies and retained logits are not modelled.
- WeightTiling.UploadTiled: the device region is a value, not an arena updated in place; the staging buffers' events are not modelled.
- PleLayout.ValidateLayout: 64-bit wrap of sums and products is not modelled.
