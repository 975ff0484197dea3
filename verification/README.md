# A verified model of the MEE node's execution pipeline and its companions

The project models the part of the repository that decides what happens to signed user
operations, and the calculations around it, in Dafny 4.11. `dafny verify dfyconfig.toml`
checks all of it.

## What is modelled

**The pipeline of one chain** (`UserOps`, `Records`, `Packing`, `Pipeline`, `Conservation`,
`ChainStore`, `Batcher`, `Simulator`, `Attempts`, `Executor`, `Outcomes`). `Pipeline` is a step relation
over the simulator queue, the completed simulations, the executor queue and the records. A step
is what an actor does between two awaits; a batcher pass is the three steps fetch, add and
remove, and a re-enqueue or a split is several steps, so that everything else can happen in between.
What the chain, the clock and the nodes answer are parameters. The classes `BatcherService`,
`SimulatorProcessor` and `ExecutorProcessor` follow the source's methods on a shared, mutable
`ChainStore`, and each method is proved to carry out steps of the relation,
so what `Conservation` and `Outcomes` prove of all runs holds of them. What an executor attempt must
do with each answer is said in `Attempts`, without the steps, and `Simulator` says the same for a
simulator job.

Assumptions: nothing crashes and Redis does not fail; a queue hands a job to one worker at a
time, removes it when it completes or has used up its attempts, and keeps the order of completed
jobs; record writes that the source does not await are done within the step; the simulation of
an operation reports failure instead of throwing; an operation is accepted once.

**Calldata** (`Abi`, `Calldata`). The encoder is written from the section "Formal Specification
of the Encoding" of the Solidity Contract ABI Specification and from the execute function of
ERC-7579; the decoder follows the source's offset arithmetic. viem's `slice` is modelled with its
`strict` option, although the decoder never sets it, because strict decoding succeeding means
that no read leaves the buffer.

**The step compiler** (`SeparateEncoding`, `StepCompiler`, `ComposableExecution`, `StepChecks`,
`ArgMeaning`, `StepMeaning`). `ArgMeaning` says what an argument stands for, as a relation between
argument, type and ABI value that does not mention the compiler. The execution semantics is that
of the account contract's parameter processing.

**RPC providers and nonces** (`ProviderMetrics`, `RpcManager`, `RpcRuns`, `RpcRequests`,
`NonceManager`). Runs are arbitrary sequences of health-check results and promotion checks, and
of nonce fetches, submissions, minings and receipts. The chain has no reorganisation, and a node's
transaction count may be stale but not too high. The module of file `RpcManager.dfy` is called
`RpcManagers`, that of `NonceManager.dfy` `NonceManagers`, after the class in it.

**Arithmetic** (`LeverageMath`, `Unwinding`, `SessionGas`, `GasPrices`, `Fees`, `LogScan`).
JavaScript numbers in the leverage and rate code are reals, bigints are natural numbers, and
bigint division rounds down.

## Where the code differs from what one might expect

The model follows the code. In these places a property that the code or its comments suggest
does not hold as stated, and the exact condition is proved:

- A call list whose last call (or only call) has no data cannot be decoded, because `slice`
  refuses to start at the end (`Calldata.DecodeUndoesEncode`).
- With the attempts setting at 0, the executor never takes an attempt for its last one and loses
  operations without a record (`Conservation.NothingLostIffAttempts`).
- While a pass is between its add and its remove, a re-enqueue between its two steps, or a split
  between its first and its last step, an operation is visible twice
  (`Conservation.SeenTwiceIffStale`, `Conservation.SeenTwiceIsReached`).
- An error written from a one-confirmation receipt is never cleared, so a final record says whether
  the operation was executed exactly if no such receipt of any attempt said otherwise
  (`Outcomes.FinalRecordIff`, `Outcomes.EarlyFailureSticks`).
- A comment at simulator.processor.ts:69 says that an undeployed account is retried without
  limit; since retry jobs skip validation, it is retried once
  (`Simulator.ValidationRequeuesAtMostOnce`).
- Constraints chained on one value are checked by the contract against successive words of it
  (`StepChecks.ChainedConstraints`, `StepChecks.RangeByChainFails`).
- Missing arguments and unnamed struct components shorten the call data silently
  (`StepMeaning.CallDataIsCompleteIff`).
- Arguments of dynamic types are accepted, but each is encoded by itself, and a struct given as an
  object field by field, so the call data is right only if such an argument is alone and is not a
  flattened struct (`StepMeaning.CompiledStepMeansCall`, `StepMeaning.WordAndBytesFail`,
  `StepMeaning.StructOfBytesFails`).
- The nonce cache notices that it is out of sync only if its two nonces are equal, so a provider
  that lags behind makes a worker use a nonce again: exactly when an answer that is taken over is
  not above the nonce marked last (`NonceManagers.UsedNonceIsReusedIff`).
- A degraded provider whose metrics a promotion has reset does not recover by succeeding alone
  (`RpcRuns.RecoveryNeedsFailureThenSuccess`), and a degraded provider can be promoted
  (`RpcRuns.PromotedIsDegradedIff`, with runs in which each of its two cases occurs).
- A worker thread set up late takes degraded providers for active ones (`RpcRuns.LateReplicaLags`).
- The health-factor guard has a floor of 1.05, which from 15 loops on is above the projected health
  factor; the application itself asks for at most 10 (`LeverageMath.GuardPassesIff`,
  `LeverageMath.LoopsForLeverage`).
- The `||` merge of fees can mix an old priority fee with a new maximal fee
  (`Fees.RetryIsValidIff`).
- A price of exactly five times the median, in whole percents, is taken over in full, although one
  just below is smoothed and one above is rejected (`GasPrices.SmoothedCases`).
- A price history with median 0 makes the division throw, and there is no answer
  (`GasPrices.GasPriceBounds`).

## Model

| member | source | states |
|---|---|---|
| Packing.PackCompletedSimulations | orchestrator-node/src/modules/batcher/batcher.service.ts:106-167 | the loop's batches hold exactly the operations that fit a block, in order, each batch non-empty and within the cap, with the gas of its operations and of the paymaster once for each, and each batch's first operation would not have fitted the batch before; the rest are returned as skipped |
| Packing.PackingSortsByGas | orchestrator-node/src/modules/batcher/batcher.service.ts:124-152 | admitted operations are those of which the two gas limits and the paymaster's two amounts together are at most the cap, and skipped ones the others |
| Packing.PackingLosesNothing | orchestrator-node/src/modules/batcher/batcher.service.ts:113-163 | counted with repetitions, admitted and skipped operations are together the completed simulations |
| Packing.NextFitStaysAhead | orchestrator-node/src/modules/batcher/batcher.service.ts:154-163 | after any number of batches the greedy packing has placed at least as many operations as any other order-preserving split |
| Packing.NextFitUsesFewestBatches | orchestrator-node/src/modules/batcher/batcher.service.ts:113-167 | no split that keeps the order and the cap has fewer batches |
| Packing.NextFitAtMostTwiceOptimal | orchestrator-node/src/modules/batcher/batcher.service.ts:113-167 | against any assignment to k bins within the cap, in any order, at most 2k - 1 batches |
| Conservation.StepKeeps | orchestrator-node/src/modules/batcher/batcher.service.ts:45-74 | every step of simulator, batcher pass (fetch, add, remove) and executor keeps the ownership invariant |
| Conservation.NoOpLostOrDuplicated | orchestrator-node/src/modules/batcher/batcher.service.ts:98-184 | in every interleaving each accepted operation is owned by exactly one of: live simulator job, completed simulation, executor job, recorded outcome |
| Conservation.SeenTwiceIffStale | orchestrator-node/src/modules/batcher/batcher.service.ts:182-184 | after any run, an operation is visible in two places if and only if one of the places where it is visible is handing it over and will not act on it again |
| Conservation.SeenTwiceIsReached | orchestrator-node/src/modules/simulator/simulator.processor.ts:70-76 | a run after which this is so: a job has added its retry job and has not failed yet |
| Conservation.QuietStateIsExact | orchestrator-node/src/modules/batcher/batcher.service.ts:182-184 | with no hand-over in progress the place is unique without exception, and if it is none of the queues the record shows an outcome |
| Conservation.NeverInTwoExecutorJobs | orchestrator-node/src/modules/executor/executor.processor.ts:1596-1694 | two executor jobs never both answer for the same operation |
| Conservation.EveryQueuedOpHasQuote | orchestrator-node/src/modules/simulator/simulator.processor.ts:244-275 | the simulator's missing-quote exit is never taken for an operation that was accepted |
| Conservation.NeverBackToSimulation | orchestrator-node/src/modules/executor/executor.processor.ts:1607-1694 | once owned by an executor job or settled, an operation is never simulated again |
| Conservation.FinishedJobAccountsForItsOps | orchestrator-node/src/modules/executor/executor.processor.ts:1607-1694 | when an executor job is gone, each operation that it answered for has a recorded outcome or is in exactly one other job |
| Conservation.NothingLostIffAttempts | orchestrator-node/src/modules/executor/executor.processor.ts:585-609 | no run loses an operation if and only if the attempts setting is positive |
| Conservation.ThrowLosesOps | orchestrator-node/src/modules/executor/executor.processor.ts:585-609 | with the attempts setting at 0, a thrown error removes the job without recording anything |
| ChainStores.ChainStore.AcceptOp | orchestrator-node/src/modules/quotes/quotes.service.ts:1536-1548 | storing the quote and adding the simulator job are exactly the accept step |
| ChainStores.ChainStore.AddExecutorJobs | orchestrator-node/src/modules/batcher/batcher.service.ts:182 | one fresh executor job per list under consecutive ids, all others as before |
| ChainStores.ChainStore.FailOps | orchestrator-node/src/modules/executor/executor.processor.ts:585-609 | the same error on the record of each listed operation, no other record changed |
| ChainStores.ChainStore.CreateOpErrors | orchestrator-node/src/modules/batcher/batcher.service.ts:142-149 | an error is set on the skipped operations' records only where there is none |
| Batcher.BatcherService.OnEvent | orchestrator-node/src/modules/batcher/batcher.service.ts:45-52 | a pass starts only if the lock is free, and then no pass is under way |
| Batcher.BatcherService.FetchCompletedJobs | orchestrator-node/src/modules/batcher/batcher.service.ts:89-104 | a pass goes on with a snapshot only if no block waits and something is completed; otherwise the lock is released |
| Batcher.BatcherService.AddBatches | orchestrator-node/src/modules/batcher/batcher.service.ts:106-182 | is exactly the add step: the packing of the snapshot becomes executor jobs, the skipped are marked |
| Batcher.BatcherService.RemoveSnapshot | orchestrator-node/src/modules/batcher/batcher.service.ts:184 | removes exactly the snapshot, not what was completed since, and releases the lock |
| Simulator.SimulatorProcessor.ProcessJob | orchestrator-node/src/modules/simulator/simulator.processor.ts:220-375 | by the answers of the chain and the clock alone: true is returned exactly if validation is passed or skipped, the window is open and the simulation that counts does not fail; a failing one re-enqueues with the operation's delay or the default; a bad signature, a start in the future, a past end, a failed call and an undeployed account each have their outcome; and the records and the queues change by that outcome and nothing else |
| Simulator.ValidationRequeuesAtMostOnce | orchestrator-node/src/modules/simulator/simulator.processor.ts:70-105 | in every run, an operation is re-enqueued at most once from a job that is not a retry job, and only such jobs are validated |
| Simulator.RequeuedJobsSkipValidation | orchestrator-node/src/modules/simulator/simulator.processor.ts:243-262 | in every run, the job that a re-enqueue adds is the same job marked as a retry for as long as it is queued; its outcome follows the window and its own simulation, and stays the same whatever the validation, its time, the simulation made along with it and the quote store say |
| Simulator.ChainsAreBounded | orchestrator-node/src/modules/simulator/simulator.processor.ts:305-375 | in a chain of re-enqueues with delay d, the number of jobs less three, times d, fits between the start of the first retry and the end of the operation's window |
| Simulator.ZeroDelayNeverEnds | orchestrator-node/src/modules/simulator/simulator.processor.ts:363-371 | with delay 0 there are chains of every length: the delay is what ends them |
| Simulator.ChainsEndTooLate | orchestrator-node/src/modules/simulator/simulator.processor.ts:284-331 | a retry that finds its window closed is the last of its chain: the operation fails or, if force-executed and no clean-up, is handed on unsimulated |
| Executor.ExecutorProcessor.ProcessJob | orchestrator-node/src/modules/executor/executor.processor.ts:79-612 | by the answers alone: after a mined earlier transaction the block is closed with the receipt's verdicts or, if reverted, split; otherwise what has expired is dropped and the rest submitted, and each class of answer closes the block, splits it, cuts it into single operations, or leaves it to the queue for another attempt with or without a transaction to look at; and all of it is a run of executor steps |
| Attempts.FinishedIsClosed | orchestrator-node/src/modules/executor/executor.processor.ts:1210-1355 | a final block's job is gone, no job is new, and each of its operations is settled with the hash, the confirmation and the error that the receipt's verdict calls for |
| Attempts.HandedOverIsSplit | orchestrator-node/src/modules/executor/executor.processor.ts:1596-1708 | a split puts every valid operation into exactly one new job, alone if blocks are separated, records the others as reverted, and touches no other job or record |
| Attempts.ThrownIsThrown | orchestrator-node/src/modules/executor/executor.processor.ts:558-610 | a thrown error leaves the operations to the next attempt, with its number raised, or removes the job, and records the failure exactly on the attempt that the processor takes for the last or after an unrecoverable error |
| Attempts.TrimmedDropsExpired | orchestrator-node/src/modules/executor/executor.processor.ts:251-300 | exactly the operations whose upper bound has passed leave the job, with an error |
| Attempts.SeenIsShown | orchestrator-node/src/modules/executor/executor.processor.ts:820-850 | an early receipt is shown on the records of the block, as not final, and changes nothing else |
| Executor.ExecutorProcessor.ValidateTimebounds | orchestrator-node/src/modules/executor/executor.processor.ts:1755-1772 | the two lists are the unexpired and the expired operations in order |
| Executor.ExecutorProcessor.DropExpired | orchestrator-node/src/modules/executor/executor.processor.ts:251-300 | an operation that is past its upper bound when checked, also one handed on late, leaves the job with a recorded error, and any other stays |
| Executor.ExecutorProcessor.Throw | orchestrator-node/src/modules/executor/executor.processor.ts:558-610 | the last attempt is recorded on all records, and the queue retries or drops the job |
| Executor.ExecutorProcessor.HandleReverts | orchestrator-node/src/modules/executor/executor.processor.ts:1596-1708 | valid operations go to new jobs first, together or one job at a time, then the job ends with the faulty ones recorded as reverted |
| Executor.ExecutorProcessor.HandOverSeparately | orchestrator-node/src/modules/executor/executor.processor.ts:1625-1645 | after the single adds, the job holds exactly the operations that were not valid, in order, and each add was a step of its own |
| Executor.ExecutorProcessor.HandleRejection | orchestrator-node/src/modules/executor/executor.processor.ts:393-480 | which errors split the block, remember the transaction, retry through the queue, or retry at once |
| Executor.ExecutorProcessor.HandleExecutionResult | orchestrator-node/src/modules/executor/executor.processor.ts:1210-1355 | one pass over the events and one over the operations leave on every record what the list of events defines |
| Executor.ExecutorProcessor.ProcessEvents | orchestrator-node/src/modules/executor/executor.processor.ts:1259-1321 | each event marks the first operation with its hash; a later failure outweighs an earlier success |
| Executor.VerdictsAgree | orchestrator-node/src/modules/executor/executor.processor.ts:1259-1321 | the verdicts of the pass are those defined by which success and failure events the list holds |
| Executor.VerdictsComplete | orchestrator-node/src/modules/executor/executor.processor.ts:1323-1352 | with the operations that no event mentioned, every operation of the block has the verdict that the logs define |
| Outcomes.ErrorsAreForever | orchestrator-node/src/modules/executor/executor.processor.ts:1270-1300 | no step of any run removes an error from a record |
| Outcomes.PendingErrorsOverRuns | orchestrator-node/src/modules/executor/executor.processor.ts:820-850 | in every run, an operation without a final outcome shows an error if and only if an early receipt counted it as not executed, and its record is then unconfirmed |
| Outcomes.SettledIsFinal | orchestrator-node/src/modules/executor/executor.processor.ts:1210-1355 | once an operation has its final outcome, no step of any run writes its record again |
| Outcomes.FinalRecordIff | orchestrator-node/src/modules/executor/executor.processor.ts:1210-1355 | in every run, and for good: the final record has no error if and only if the final receipt's logs hold a success and no failure of the operation (or the receipt could not be fetched) and no early receipt of any attempt ever counted it as not executed |
| Outcomes.EarlyFailureSticks | orchestrator-node/src/modules/executor/executor.processor.ts:820-850 | a run from the start in which an early receipt reports a failure and the final one a success: the record is confirmed and shows the error |
| Abi.ComponentIsFound | orchestrator-node/src/modules/encoder-and-decoder/encoder-and-decoder.service.ts:52-79 | following the head of any component of an ABI layout leads to that component's own encoding |
| Abi.BigEndianOfValue | orchestrator-node/src/modules/encoder-and-decoder/encoder-and-decoder.service.ts:178-187 | a byte string is the encoding of its value at its own length |
| Abi.FitsIffBelow | orchestrator-node/src/modules/encoder-and-decoder/encoder-and-decoder.service.ts:40-44 | the numbers that fit a width are those below 256 to its power |
| Calldata.DecodeERC7579BatchCalldata | orchestrator-node/src/modules/encoder-and-decoder/encoder-and-decoder.service.ts:186-265 | the decoding loop returns all executions or the first error among them |
| Calldata.DecodeERC7579Calldata | orchestrator-node/src/modules/encoder-and-decoder/encoder-and-decoder.service.ts:267-304 | if the input is the encoding of encodable calls in either mode, then execution i has call i's target, its value or 0, and its data or none, there are as many as calls (one in single mode), and it is refused exactly if the last of them has no data; a call type above 1 is refused |
| Calldata.SingleRoundTrip | orchestrator-node/src/modules/encoder-and-decoder/encoder-and-decoder.service.ts:40-44 | decoding undoes the packed encoding of a single call, and refuses exactly the one without data |
| Calldata.BatchRoundTrip | orchestrator-node/src/modules/encoder-and-decoder/encoder-and-decoder.service.ts:52-73 | decoding undoes the ABI encoding of every call list, and refuses exactly those whose last call has no data |
| Calldata.DecodeUndoesEncode | orchestrator-node/src/modules/encoder-and-decoder/encoder-and-decoder.service.ts:32-79 | the same, by the fields of the calls, for whole execute calldata in both modes; with strict slices too, so no read of an encoding leaves the buffer |
| Calldata.SingleLayout | orchestrator-node/src/modules/encoder-and-decoder/encoder-and-decoder.service.ts:40-48 | at which bytes the call type, target, value and data of a single call stand |
| Calldata.BatchLayout | orchestrator-node/src/modules/encoder-and-decoder/encoder-and-decoder.service.ts:52-79 | at which bytes the call type, the count, and for each call its pointer, target, value, data length and data stand |
| Calldata.BatchSizeIsBounded | orchestrator-node/src/modules/encoder-and-decoder/encoder-and-decoder.service.ts:187-204 | on any bytes, a successful decoding returns fewer executions than the bytes have words |
| StepCompiler.FlattenArg | sdk/src/core/encode.ts:88-122 | the recursive loop computes the flattened parameters or the first error |
| StepCompiler.EncodeStep | sdk/src/core/encode.ts:134-189 | target, optional value and flattened arguments in this order, with the source's errors in the source's order |
| StepCompiler.FirstNamed | sdk/src/core/encode.ts:166-172 | the first function of the name, or none exactly if no function has it |
| ArgMeaning.PlainIff | sdk/src/core/encode.ts:65-76 | an argument without run-time values is encoded as v exactly if v is what it stands for: a literal its word, data its bytes, an array the list of what its items stand for, a struct the values of its entries or named fields; and it is refused exactly if that is nothing |
| ArgMeaning.CompiledIff | sdk/src/core/encode.ts:134-189 | a step is compiled exactly if target and value are words or run-time values, the name is found, there are not too many arguments, and each of them stands for something of its type |
| StepMeaning.CompiledStepMeansCall | sdk/src/core/encode.ts:82-189 | a compiled step calls the target with the value and with the selector followed by the ABI encoding of any values that the given arguments mean (a run-time value those that the chain's answer encodes), if and only if it runs through, every flattened struct is an object with named components, and all types are static or a single argument is not flattened |
| StepMeaning.CompiledStepRunsIff | contracts/ComposableExecutionLib.sol:28-196 | a compiled step runs through if and only if its target is an address and no balance, a run-time value word can be decoded, and every run-time value can be fetched and meets its constraints |
| StepMeaning.FlattenedRuns | sdk/src/core/encode.ts:88-119 | the parameters of an argument run through if and only if its run-time values hold, and append its own bytes |
| StepMeaning.ArgsEncodedIff | sdk/src/core/encode.ts:65-119 | the bytes of compiled arguments are the ABI encoding of what they mean if and only if structs are flattened with all their fields and nothing of a dynamic type is flattened or stands beside another argument |
| StepMeaning.StepShape | sdk/src/core/encode.ts:138-179 | exactly one target, first; at most one value, second; call data after that |
| StepMeaning.CallDataIsCompleteIff | sdk/src/core/encode.ts:103-108 | for static types, the call data has the size of the function's parameters if and only if no argument is missing and no unnamed component was passed over |
| SeparateEncoding.SeparateIff | sdk/src/core/encode.ts:65-76 | non-empty values encoded one by one read as their encoding all together if and only if none of them is dynamic or there is just one |
| SeparateEncoding.SameSize | sdk/src/core/encode.ts:65-76 | one by one or all together they take the same room |
| StepMeaning.WordAndBytesFail | sdk/src/core/encode.ts:82-119 | a compiled step with a word and a byte string runs through with call data that is not their encoding |
| StepMeaning.StructOfBytesFails | sdk/src/core/encode.ts:92-110 | the same for a single struct with bytes in it, given as an object |
| StepMeaning.MeansShaped | sdk/src/core/encode.ts:65-76 | what an argument means is dynamic exactly if its type is, and otherwise takes exactly its type's size |
| StepMeaning.StaticAnswerMeans | sdk/src/core/encode.ts:50-63 | an answer of the chain that has the size of a static type always means some value of the type |
| StepChecks.ChainedConstraints | contracts/ComposableExecutionLib.sol:174-196 | the contract's check of a one-word value means the conjunction of the chained constraints if and only if, by their bounds, those after the first hold of every word or one holds of none |
| StepChecks.RangeByChainFails | sdk/src/core/params.ts:28-39 | at least 5 chained with at most 10: the value 20 passes if and only if the word behind it in memory is at most 10 |
| StepChecks.OneWordIsFirst | contracts/ComposableExecutionLib.sol:174-182 | constraint i is checked against word i, behind a one-word value against memory |
| StepChecks.PredicateRunsIff | sdk/src/core/encode.ts:195-205 | a predicate step runs through exactly if every condition can be fetched and passes, and it calls nothing |
| NonceManagers.NonceManager.GetNonce | orchestrator-node/src/modules/nonce-manager/nonce-manager.service.ts:75-118 | the nonce and the cache's new entry, and that no other worker's or chain's entry changes |
| NonceManagers.NonceManager.MarkNonceAsUsed | orchestrator-node/src/modules/nonce-manager/nonce-manager.service.ts:159-171 | the entry becomes exactly used n, unused n + 1, whatever it was |
| NonceManagers.LowerIff | orchestrator-node/src/modules/nonce-manager/nonce-manager.service.ts:188-240 | two addresses share an entry exactly if they differ in nothing but the case of letters |
| NonceManagers.RunIsSafe | orchestrator-node/src/modules/executor/executor.processor.ts:442-480 | over every run, the cached unused nonce is at most the chain's, the used one below it |
| NonceManagers.NoFutureNonce | orchestrator-node/src/modules/executor/executor.processor.ts:685-760 | a transaction that a node accepts always carries exactly the chain's next nonce |
| NonceManagers.CacheFollowsChain | orchestrator-node/src/modules/executor/executor.processor.ts:812-818 | nonces are marked in strictly increasing order across distinct mined transactions |
| NonceManagers.UsedNonceIsReusedIff | orchestrator-node/src/modules/nonce-manager/nonce-manager.service.ts:75-118 | a run never holds a nonce already used, and never comes to where one could be handed out, if and only if every answer taken over from a provider is above the nonce marked last |
| NonceManagers.MayReuseIffLastAnswerStale | orchestrator-node/src/modules/nonce-manager/nonce-manager.service.ts:86-118 | after any run, the next nonce may be a used one if and only if the last answer since the last marking was not above it |
| NonceManagers.UsedNonceIsHeldIff | orchestrator-node/src/modules/nonce-manager/nonce-manager.service.ts:75-118 | a run comes to hold a used nonce if and only if some step of it hands one out when the last answer since the last marking is not above the used one |
| NonceManagers.LaggingProviderReusesNonce | orchestrator-node/src/modules/nonce-manager/nonce-manager.service.ts:86-118 | a run that holds a used nonce: the equality test does not catch a cache that is further behind |
| NonceManagers.ForcedFetchRecovers | orchestrator-node/src/modules/executor/executor.processor.ts:1523-1535 | after any run that holds or has sent a transaction, one truthful forced fetch makes the next nonce the chain's next, and no used nonce can be handed out |
| ProviderMetrics.Metrics.RecordSuccess | orchestrator-node/src/modules/rpc-manager/provider-metrics.ts:38-52 | the counters stay the statistics of the results since the last reset: total, successes, failures at the end, the last 100 times and their mean |
| ProviderMetrics.Metrics.RecordFailure | orchestrator-node/src/modules/rpc-manager/provider-metrics.ts:54-58 | the same after a failure |
| ProviderMetrics.WindowIsLast | orchestrator-node/src/modules/rpc-manager/provider-metrics.ts:38-52 | the window holds the last 100 times of successes, or all of them, and the average times their number is their sum |
| ProviderMetrics.SuccessesAtMostTotal | orchestrator-node/src/modules/rpc-manager/provider-metrics.ts:27-31 | successes and trailing failures together are at most the results |
| ProviderMetrics.Metrics.GetSuccessRate | orchestrator-node/src/modules/rpc-manager/provider-metrics.ts:27-31 | the rate of the counters is the rate of the results since the last reset |
| ProviderMetrics.SuccessRateIsFraction | orchestrator-node/src/modules/rpc-manager/provider-metrics.ts:27-31 | the rate is between 0 and 1, and 1 exactly if no result failed |
| RpcManagers.RpcChain.GetPrimaryRpcProvider | orchestrator-node/src/modules/rpc-manager/rpc-manager.service.ts:333-349 | the primary is the first provider of the list, and there is one unless the list is empty |
| RpcManagers.RpcChain.RecordHealthCheck | orchestrator-node/src/modules/rpc-manager/rpc-manager.service.ts:655-706 | a check's effect on its provider, and the sync message, or none |
| RpcManagers.RpcChain.CheckForPromotion | orchestrator-node/src/modules/rpc-manager/rpc-manager.service.ts:468-526 | promotes the first of the best candidates exactly if there is one and a candidate has more successes per result than the primary, or the primary's last three results are failures; the two change places with fresh metrics, and otherwise nothing changes |
| RpcManagers.RpcChain.PromoteProvider | orchestrator-node/src/modules/rpc-manager/rpc-manager.service.ts:531-578 | the two providers swap places, both with fresh metrics, and the whole list is sent |
| RpcManagers.RpcChain.SyncProviders | orchestrator-node/src/modules/rpc-manager/rpc-manager.service.ts:296-323 | updates are taken over by URL and the list is sorted |
| RpcManagers.BestIsBest | orchestrator-node/src/modules/rpc-manager/rpc-manager.service.ts:489-507 | the scan finds a provider that no eligible one exceeds, the first of them, or there is none |
| RpcManagers.DecisionIff | orchestrator-node/src/modules/rpc-manager/rpc-manager.service.ts:489-522 | the decision by numbers of results alone: fallbacks with ten results and 95 successes in 100, their shares of successes compared crosswise, and the primary's last three results |
| RpcManagers.SwapAndSort | orchestrator-node/src/modules/rpc-manager/rpc-manager.service.ts:556-569 | sorting after the swap of priorities exchanges the two positions and moves nothing else |
| RpcRuns.RunKeepsSound | orchestrator-node/src/modules/rpc-manager/rpc-manager.service.ts:531-706 | in every run priorities are 0 to n - 1 in the list's order, and a provider with three trailing failures is degraded |
| RpcRuns.DecisionIsBest | orchestrator-node/src/modules/rpc-manager/rpc-manager.service.ts:498-522 | a promoted provider is a best eligible one with at least ten results since its last reset |
| RpcRuns.PromotionIff | orchestrator-node/src/modules/rpc-manager/rpc-manager.service.ts:510-522 | a promotion check changes the list if and only if a candidate exists and one has a higher share of successes than the primary or the primary keeps failing; two providers then change places |
| RpcRuns.LowerRateIsNotPromoted | orchestrator-node/src/modules/rpc-manager/rpc-manager.service.ts:510-522 | a run after which a candidate with 97 successes in 100 is not promoted over a primary that has not failed |
| RpcRuns.ReplicasConverge | orchestrator-node/src/modules/rpc-manager/rpc-manager.service.ts:296-323 | a worker set up from the same URLs that receives every message in order ends with the master's order, priorities and states |
| RpcRuns.LateReplicaLags | orchestrator-node/src/modules/rpc-manager/rpc-manager.service.ts:272-323 | a worker set up in the middle of a run differs from the master in exactly the providers that were degraded then and that no message has named since: degraded in the master, active in the worker |
| RpcRuns.DegradedOverRuns | orchestrator-node/src/modules/rpc-manager/rpc-manager.service.ts:655-706 | over all runs, a provider is degraded if and only if its last three results failed, or it was degraded when its metrics were reset and no failure since was followed by a success |
| RpcRuns.RecoveryNeedsFailureThenSuccess | orchestrator-node/src/modules/rpc-manager/rpc-manager.service.ts:657-677 | a degraded provider without counted failures is active after a list of results if and only if some failure in it is followed by a success and it does not end with three failures |
| RpcRuns.PromotedIsDegradedIff | orchestrator-node/src/modules/rpc-manager/rpc-manager.service.ts:489-522 | when the provider that a run promotes is a degraded one, by its results since the reset and its state at the reset; with three trailing failures it has at least sixty results |
| RpcRuns.PromotionForgetsFailures | orchestrator-node/src/modules/rpc-manager/rpc-manager.service.ts:561-563 | a run whose promotion leaves the old primary degraded with an empty history |
| RpcRuns.ForgottenProviderIsPromoted | orchestrator-node/src/modules/rpc-manager/rpc-manager.service.ts:498-522 | a run that promotes it again ten successes later, still degraded |
| RpcRuns.FailingProviderIsPromoted | orchestrator-node/src/modules/rpc-manager/rpc-manager.service.ts:498-507 | a run that promotes a provider whose last three results failed |
| RpcRequests.ExecuteRequest | orchestrator-node/src/modules/rpc-manager/rpc-manager.service.ts:353-449 | tries providers in order, each at most once and at least one, skips exactly degraded ones before the last, goes on only after retriable and rate-limit errors, and returns the first success |
| RpcRequests.OrderIsForced | orchestrator-node/src/modules/rpc-manager/rpc-manager.service.ts:367-380 | these rules determine the providers tried |
| LeverageMath.LeverageAfterLoops | demo/src/lib/leverage-math.ts:27-43 | the loop computes the n-th position of the recurrence |
| LeverageMath.LeverageClosedForm | demo/src/lib/leverage-math.ts:27-43 | leverage is (1 - sL q^n) / (1 - sL), grows with every loop and stays below its limit |
| LeverageMath.SimulateLoopsFromState | demo/src/lib/leverage-math.ts:54-80 | the loop with its early exit computes the recurrence from any position |
| LeverageMath.StaysBelowLtv | demo/src/lib/leverage-math.ts:54-80 | the debt is below LTV times the collateral after the loops if and only if it was before, and then the health factor is above LIQ_THRESHOLD / LTV |
| LeverageMath.FromStateClosedForm | demo/src/lib/leverage-math.ts:54-80 | from any position, with or without debt: without available borrows only the deposit is added; otherwise the collateral and the debt are the closed form of the available borrows |
| LeverageMath.EmptyPositionHealth | demo/src/lib/leverage-math.ts:54-92 | from an empty position the projected health factor is s times the estimate for the loops' leverage |
| LeverageMath.GuardPassesIff | demo/src/lib/leverage-math.ts:6-14 | the on-chain guard lets the fresh position it is made for pass if and only if the leverage is at most a bound, which is to say for at most 14 loops |
| LeverageMath.SafetyGuardIs | demo/src/lib/leverage-math.ts:6-14 | the guard is the higher of 95 percent of the estimate and 1.05 |
| LeverageMath.LoopsForLeverage | demo/src/lib/leverage-math.ts:82-87 | the least number of loops from 1 to 10 that reaches 95 percent of the target, or 10 |
| Unwinding.UnwindIterationsNeeded | demo/src/lib/leverage-math.ts:110-125 | the loop computes the count of the ratio recurrence, 0 for leverage 1 or less |
| Unwinding.UnwindIsLeast | demo/src/lib/leverage-math.ts:110-125 | the count is the least number of cycles that clears the position's debt, or 20 if 19 do not |
| Unwinding.CycleLeavesFifth | demo/src/lib/leverage-math.ts:110-125 | one cycle leaves a fifth of what the position could lose before liquidation, and repays what it withdraws less the swap fee |
| Unwinding.RatioFalls | demo/src/lib/leverage-math.ts:116-123 | below the liquidation threshold the ratio falls strictly with each cycle that does not clear the debt |
| Unwinding.MoreLeverageMoreCycles | demo/src/lib/leverage-math.ts:110-125 | more leverage never needs fewer cycles |
| Unwinding.NoExcessNeverClears | demo/src/lib/leverage-math.ts:117-118 | at the liquidation threshold or above the answer is 20 |
| SessionGas.GetSmartSessionUseModeVerificationGasLimit | orchestrator-node/src/modules/gas-estimator/gas-estimator-v2.service.ts:403-517 | fails exactly if decoding fails or yields nothing; otherwise the base, and for each distinct matched action one cold access and a warm one for each further call |
| SessionGas.EstimateCalls | orchestrator-node/src/modules/gas-estimator/gas-estimator-v2.service.ts:409-507 | the loop over the calls with its set of seen actions computes that sum |
| SessionGas.OneMoreCall | orchestrator-node/src/modules/gas-estimator/gas-estimator-v2.service.ts:450-504 | one more call adds a cold access if it is the first of its action and a warm one otherwise |
| SessionGas.CallAdds | orchestrator-node/src/modules/gas-estimator/gas-estimator-v2.service.ts:450-504 | by the calls themselves: a further call adds an access to the first action for its target and selector, warm exactly if an earlier call has both in common, and nothing if there is no such action |
| SessionGas.ActionGasIs | orchestrator-node/src/modules/gas-estimator/gas-estimator-v2.service.ts:461-503 | a cold access costs 5500 and 3500 more for each policy, a warm one 3000 and 1000, each with what the policy itself takes |
| SessionGas.OrderDoesNotMatter | orchestrator-node/src/modules/gas-estimator/gas-estimator-v2.service.ts:440-507 | the estimate is the same for the calls in any other order |
| SessionGas.EstimateIsBetween | orchestrator-node/src/modules/gas-estimator/gas-estimator-v2.service.ts:461-503 | it lies between the all-warm and the all-cold total |
| GasPrices.GasManager.GetGasPrice | orchestrator-node/src/modules/gas-manager/gas-manager.service.ts:189-260 | the history is always the last 20 prices fetched, and the answer is a function of the prices fetched; a median of 0 gives none |
| GasPrices.MedianIsInTheMiddle | orchestrator-node/src/modules/gas-manager/gas-manager.service.ts:226-237 | at least half of the prices are at most the median and at least half are at least the median |
| GasPrices.MedianOfEven | orchestrator-node/src/modules/gas-manager/gas-manager.service.ts:226-237 | of an even number of prices it is the mean of the two in the middle, rounded down |
| GasPrices.SmoothedBounds | orchestrator-node/src/modules/gas-manager/gas-manager.service.ts:239-258 | the smoothed price e of median m satisfies m <= e <= max(current, m) and 100 e < 501 m |
| GasPrices.SmoothedCases | orchestrator-node/src/modules/gas-manager/gas-manager.service.ts:239-258 | by the prices themselves: from 201 to 500 percent of the median a third of the way up, from 501 on and below 50 the median, otherwise, and so at five times the median, the higher of the two |
| GasPrices.PriceCases | orchestrator-node/src/modules/gas-manager/gas-manager.service.ts:207-260 | the first two prices get the buffer of 10, 50 or 70 percent alone, and later ones are smoothed by the median of the last 20 first |
| GasPrices.GasPriceBounds | orchestrator-node/src/modules/gas-manager/gas-manager.service.ts:207-260 | the same through the history and the buffer, from the third price on |
| Fees.GetCurrentGasConditions | orchestrator-node/src/modules/gas-estimator/gas-estimator-v2.service.ts:51-173 | the reassignments compute the quote of a legacy chain, or that of fee history, node answer, mode and congestion; every quoted priority fee is at most the quoted maximal fee |
| Fees.QuotedCases | orchestrator-node/src/modules/gas-estimator/gas-estimator-v2.service.ts:75-173 | a quote by its inputs: the base fee one, two or three times, and the priority fee, raised by a half for full and by a fifth for nearly full blocks |
| Fees.PriorityFeeBounds | orchestrator-node/src/modules/gas-estimator/gas-estimator-v2.service.ts:127-154 | the smoothed priority fee has the same bounds |
| Fees.SubmittedFees | orchestrator-node/src/modules/executor/executor.processor.ts:387-480 | both submissions are the fees they start from or the floor, whichever is higher; the first is valid if the quote is, errors without a requote leave the fees as they are, after one the second starts from the raised requote, and it is valid exactly under the condition below |
| Fees.BumpIs | orchestrator-node/src/modules/executor/executor.processor.ts:1563-1587 | 20 percent for each attempt made, at least one, and 50 more for a replacement, on top of the fee and rounded down |
| Fees.RetryIsValidIff | orchestrator-node/src/modules/executor/executor.processor.ts:469-480 | exactly when the retry is valid: the requoted priority fee is not zero, or there is no new maximal fee, or the old priority fee fits under the new maximal fee or the floor |
| Fees.ZeroPriorityMixes | orchestrator-node/src/modules/executor/executor.processor.ts:475-480 | fees for which the retry is refused |
| LogScan.GetUserOpTransfers | orchestrator-node/src/modules/user-ops/userop.service.ts:567-704 | the one-pass scan computes the groups of the split specification |
| LogScan.ScanIsSplit | orchestrator-node/src/modules/user-ops/userop.service.ts:573-704 | with distinct hashes there is an entry for each operation whose end could be decoded, with exactly the decodable transfers since the end before it, in order |
| LogScan.GroupHasItsTransfers | orchestrator-node/src/modules/user-ops/userop.service.ts:589-704 | a group has each decodable transfer as often as the logs since the end before it have it |
| LogScan.TransferBelongsToNextEnd | orchestrator-node/src/modules/user-ops/userop.service.ts:589-616 | a log after the start belongs to the operation that ends next, and to no other |
| LogScan.OperationsAreDisjoint | orchestrator-node/src/modules/user-ops/userop.service.ts:589-616 | no transfer is given to two operations |
| LogScan.LastEndWins | orchestrator-node/src/modules/user-ops/userop.service.ts:600-603 | of two ends with the same hash the later one's group remains |

## Left out

- Executor jobs are not claimed to stay under the batch cap: the batcher leaves out the pre-verification gas, which the executor's sums include.
- The inside of `executeBlock` and the matching of error messages: its outcome (early receipt, final receipt, error class, known hash) is a parameter of an attempt.
- Provider objects: a provider is a value in its list, and the sharing of one object between the list and the copy that a request holds is modelled by the states that the request sees when each provider's turn comes.
- Locks of the health check and the promotion check: each result and each promotion check is one atomic event, as it has no await inside.
- Calldata.DecodeUndoesEncode: numbers of 2^53 and more, which viem's `hexToNumber` treats specially, do not occur in encodings that fit a buffer; malformed calldata with such numbers is decoded as if they were exact.
- StepMeaning.CompiledStepMeansCall: scalars are given as the 256-bit words they encode to; range errors of viem's encoder and properties that a JavaScript array has beside its elements are not modelled. That the call is the one meant only under the condition is stated for types that take some room, which leaves out empty structs and arrays of fixed length 0; strings are given by their bytes.
- The contents of fetcher data, and the output parameters of steps: opaque bytes, and not modelled.
- GasPrices.GasManager.GetGasPrice: one history serves all chains in the source; nothing is said per chain.
- HTTP handlers, configuration parsing, signatures, permit and session encodings, deployment scripts and the user interface.
- When gas data is fetched afresh: of the errors named at executor.processor.ts:1539-1544 only a replacement error forces it, because the rest of the condition is a statement of its own; the requote is a parameter here.
- SessionGas.EstimateCalls: policies are named by kind, with the gas of the two tables, and addresses and selectors are compared as values.
- Native transfers found in call traces (`getUserOpNativeTransfers`): a second accumulator of the same kind.
- `liquidationPrice`, `maxDrawdown` and `estimatePosition`: single formulas.
- Floating-point rounding.
- L1 gas prices and the lookup tables of validation gas: constants and sums.
