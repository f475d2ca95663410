# Retry engine, queue engine and record helpers of tapdata-common-lib, in Dafny

This project models five pieces of the tapdata plugin kit and proves what they promise.

- **The retry decision engine** (`RetryUtils`). This covers:
  - the matcher that walks an error's cause chain;
  - the default-retry classes;
  - the exception that is finally thrown;
  - the two retry verdicts;
  - the two `autoRetry` loops with their budget and their lifecycle hooks.

  Errors form a finite graph. Each node has a class, its ancestor classes, an optional cause and an error code. The retried operation is a script of attempt outcomes. The error-code registry is a map. The node's error handler is one reply per attempt. Hooks are events appended to a trace.

  Each loop is a method. It is proved equal to one specification function, `Retry.Run`. The loop properties are lemmas about `Run`.
- **The retry lifecycle record** (`EmptyRetryLifeCycle`). This covers the period conversion to milliseconds, the next retry time, and the first-call-only counters. The clock is a parameter.
- **The sharded round-robin queue engine** (`BaseConcurrentProcessor`), as a sequential data structure. It has:
  - arrays of bounded producer and consumer queues;
  - two round-robin indices;
  - the running and pause flags;
  - an explicit worker per shard, as a take step and a put step, with the result it holds between them.

  A ghost record of what each shard was given and has delivered carries the per-shard FIFO invariant.
- **The update-event record logic** (`TapUpdateRecordEvent`). This covers the cached primary-key filter, the edits of the `after` image and the clone field copies.
- **The sort descriptor** (`SortOn`): its factories and its rendering.

Files: `wrappers.dfy` (Option, Result), `error_chain.dfy`, `retry.dfy`, `retry_properties.dfy`, `lifecycle.dfy`, `processor.dfy`, `update_event.dfy`, `sort_on.dfy`.

The model follows the code where it is surprising:

- `RetryOptions.create()` yields `needRetry = false`. With no handler and no coded error, the verdict therefore forbids a retry.
- The head of the cause chain matches only by its exact class. An `IOException` subclass thrown directly is not retried by default. The same failure wrapped as a cause is retried (`ErrorChain.DirectSubclassNotRetried`, `ErrorChain.WrappedSubclassRetried`).
- A default-retry class in the chain overrides a verdict that forbids a retry. This holds even for a non-recoverable error code (`RetryProperties.NonRecoverableCodeOverridesHandler`).
- `getFilter` takes a key's value from `after` whenever `after` exists, even when `after` lacks the key. A failed build leaves its partial filter cached.

## Model

| member | source | states |
|---|---|---|
| ErrorChain.Chain | plugin-kit/tapdata-pdk-runner/src/main/java/io/tapdata/pdk/core/utils/RetryUtils.java:289-305 | The visited list the matcher builds starts at the error, follows cause links, stops at a null or already-visited cause, and is no longer than the graph, so the walk ends even on cycles |
| ErrorChain.FirstInstance | plugin-kit/tapdata-pdk-runner/src/main/java/io/tapdata/pdk/core/utils/RetryUtils.java:300-303 | No result exactly when no node of the walk is an instance of the class; a result is a node of the walk that is one |
| ErrorChain.Match | plugin-kit/tapdata-pdk-runner/src/main/java/io/tapdata/pdk/core/utils/RetryUtils.java:282-307 | A null error matches nothing; any match is a node of the graph that is an instance of the class |
| ErrorChain.MatchThrowable | plugin-kit/tapdata-pdk-runner/src/main/java/io/tapdata/pdk/core/utils/RetryUtils.java:282-307 | The loop with its visited list returns exactly what `Match` specifies |
| ErrorChain.NoInstanceInChain | plugin-kit/tapdata-pdk-runner/src/main/java/io/tapdata/pdk/core/utils/RetryUtils.java:292-306 | A walk with no instance of the class yields no match |
| ErrorChain.FirstInstanceAfterMisses | plugin-kit/tapdata-pdk-runner/src/main/java/io/tapdata/pdk/core/utils/RetryUtils.java:300-304 | When the first k nodes miss and node k is an instance, node k is the result |
| ErrorChain.MatchFindsIff | plugin-kit/tapdata-pdk-runner/src/main/java/io/tapdata/pdk/core/utils/RetryUtils.java:282-307 | The matcher finds something exactly when the head has the exact class or a later node of the chain is an instance |
| ErrorChain.MatchesAny | plugin-kit/tapdata-pdk-runner/src/main/java/io/tapdata/pdk/core/utils/RetryUtils.java:48-55 | True exactly when the matcher finds one of the listed classes |
| ErrorChain.NeedDefaultRetry | plugin-kit/tapdata-pdk-runner/src/main/java/io/tapdata/pdk/core/utils/RetryUtils.java:40-55 | True exactly when the matcher finds IOException, SQLRecoverableException or SQLTimeoutException |
| ErrorChain.NeedDefaultRetryIff | plugin-kit/tapdata-pdk-runner/src/main/java/io/tapdata/pdk/core/utils/RetryUtils.java:40-55 | Default retry holds exactly when one of the three transient classes is found in the chain |
| ErrorChain.CyclicChain | plugin-kit/tapdata-pdk-runner/src/main/java/io/tapdata/pdk/core/utils/RetryUtils.java:293-299 | On a chain whose last cause points back into it, the walk visits each node once and stops at the repeated cause |
| ErrorChain.CyclicChainStops | plugin-kit/tapdata-pdk-runner/src/main/java/io/tapdata/pdk/core/utils/RetryUtils.java:293-303 | On that cyclic chain the matcher still finds a class further down, and finds nothing for a class that is absent |
| ErrorChain.DirectSubclassNotRetried | plugin-kit/tapdata-pdk-runner/src/main/java/io/tapdata/pdk/core/utils/RetryUtils.java:286-287 | An IOException subclass thrown directly is not retried by default, because the head needs the exact class |
| ErrorChain.WrappedSubclassRetried | plugin-kit/tapdata-pdk-runner/src/main/java/io/tapdata/pdk/core/utils/RetryUtils.java:293-304 | The same failure as the cause of another exception is retried by default |
| Retry.Fire | plugin-kit/tapdata-pdk-runner/src/main/java/io/tapdata/pdk/core/utils/RetryUtils.java:70-71 | An optional hook yields one event exactly when it is configured, and none otherwise |
| Retry.EffectivePeriod | plugin-kit/tapdata-pdk-runner/src/main/java/io/tapdata/pdk/core/utils/RetryUtils.java:63 | The period is always positive: a positive period is kept, a non-positive one becomes 60 seconds |
| Retry.WrapError | plugin-kit/tapdata-pdk-runner/src/main/java/io/tapdata/pdk/core/utils/RetryUtils.java:201-207 | The thrown exception is the TapCodeException the matcher finds, rethrown, exactly when it finds one; otherwise a new unknown-failure exception wrapping the error |
| Retry.HandlerOptions | plugin-kit/tapdata-pdk-runner/src/main/java/io/tapdata/pdk/core/utils/RetryUtils.java:217-228 | The handler's own options when it returns some; with no handler or a null reply, options that neither retry nor carry a callback |
| Retry.NodeVerdict | plugin-kit/tapdata-pdk-runner/src/main/java/io/tapdata/pdk/core/utils/RetryUtils.java:217-241 | Covers a throwing handler (the handler-failure code), an absent or null reply (fresh options), a recoverable code (retry) and a non-recoverable code other than UNKNOWN_ERROR (no retry); the before-retry callback always comes from the handler |
| Retry.PlainVerdict | plugin-kit/tapdata-pdk-runner/src/main/java/io/tapdata/pdk/core/utils/RetryUtils.java:242-256 | Retry exactly when the matched TapCodeException's code is recoverable; never a before-retry callback |
| Retry.ThrowIfNeed | plugin-kit/tapdata-pdk-runner/src/main/java/io/tapdata/pdk/core/utils/RetryUtils.java:258-270 | Throws exactly when the options forbid a retry, and what it throws is the wrapped error |
| Retry.Invoker.constructor | plugin-kit/tapdata-pdk-runner/src/main/java/io/tapdata/pdk/core/utils/RetryUtils.java:57-63 | The invoker carries the budget, the async flag, the period, the skip-on-error flag and the configured hooks it is given |
| Retry.RetryFailed | plugin-kit/tapdata-pdk-runner/src/main/java/io/tapdata/pdk/core/utils/RetryUtils.java:134-150 | Without default retry a forbidding verdict throws the wrapped error after the reset hook with the budget untouched; otherwise the budget becomes the read value minus one |
| Retry.StepOf | plugin-kit/tapdata-pdk-runner/src/main/java/io/tapdata/pdk/core/utils/RetryUtils.java:169-196 | The loop only goes round again with budget left in sync mode; when it stops, only a scheduled retry has spent a unit |
| Retry.Skippable | plugin-kit/tapdata-pdk-runner/src/main/java/io/tapdata/pdk/core/utils/RetryUtils.java:75-86 | Skip-on-error applies only in the node loop with the flag on, to an error that is itself a TapCodeException whose registered code is skippable |
| Retry.RetryableFailure | plugin-kit/tapdata-pdk-runner/src/main/java/io/tapdata/pdk/core/utils/RetryUtils.java:174-191 | With budget left and a usable verdict, the failure is booked (spending one unit or throwing after the reset hook), the sign hook fires on the frame's first retry, the start hook always, then either the retry is scheduled or the before-retry callback runs; the result is the specified step |
| Retry.PlainFailure | plugin-kit/tapdata-pdk-runner/src/main/java/io/tapdata/pdk/core/utils/RetryUtils.java:169-196 | The single-argument catch block computes the specified step and leaves the budget as that step says |
| Retry.AutoRetry | plugin-kit/tapdata-pdk-runner/src/main/java/io/tapdata/pdk/core/utils/RetryUtils.java:152-199 | The loop's result, final budget, number of calls and hook trace are exactly those of the specification `Run` |
| Retry.NodeFailure | plugin-kit/tapdata-pdk-runner/src/main/java/io/tapdata/pdk/core/utils/RetryUtils.java:74-130 | The node catch block, including skip-on-error and the handler's verdict, computes the specified step and leaves the budget as that step says |
| Retry.AutoRetryForNode | plugin-kit/tapdata-pdk-runner/src/main/java/io/tapdata/pdk/core/utils/RetryUtils.java:57-132 | The node loop's result, final budget, number of calls and hook trace are exactly those of `Run` |
| Retry.RunCalls | plugin-kit/tapdata-pdk-runner/src/main/java/io/tapdata/pdk/core/utils/RetryUtils.java:64-131 | The specification of both loops from call k: a negative budget makes no call; otherwise the final budget is between 0 and the starting one, between 1 and budget + 1 calls are made, only async mode schedules, and the trace only grows |
| Retry.Run | plugin-kit/tapdata-pdk-runner/src/main/java/io/tapdata/pdk/core/utils/RetryUtils.java:159-198 | Either loop over the operation's outcomes, with the same bounds on calls and budget as `RunCalls` |
| RetryProperties.Count | plugin-kit/tapdata-pdk-runner/src/main/java/io/tapdata/pdk/core/utils/RetryUtils.java:175-178 | An event occurs in a trace at most as many times as the trace is long |
| RetryProperties.CountAppend | plugin-kit/tapdata-pdk-runner/src/main/java/io/tapdata/pdk/core/utils/RetryUtils.java:175-178 | Occurrences in two traces one after the other add up |
| RetryProperties.RetryEventsCount | plugin-kit/tapdata-pdk-runner/src/main/java/io/tapdata/pdk/core/utils/RetryUtils.java:175-178 | In n retried failures the start hook fires n times and the sign hook once, only on a frame's first retry; no other hook fires |
| RetryProperties.NegativeBudgetNeverCalls | plugin-kit/tapdata-pdk-runner/src/main/java/io/tapdata/pdk/core/utils/RetryUtils.java:158-159 | A negative budget at entry: no call, no event, budget unchanged |
| RetryProperties.WrapErrorIff | plugin-kit/tapdata-pdk-runner/src/main/java/io/tapdata/pdk/core/utils/RetryUtils.java:201-207 | A TapCodeException is rethrown exactly when one is found in the chain; otherwise the error is wrapped |
| RetryProperties.PlainVerdictNeedsCodedError | plugin-kit/tapdata-pdk-runner/src/main/java/io/tapdata/pdk/core/utils/RetryUtils.java:242-256 | The single-argument verdict asks for a retry only with a coded error in the chain; without one it is the fresh options |
| RetryProperties.AbsentHandlerGivesFreshOptions | plugin-kit/tapdata-pdk-runner/src/main/java/io/tapdata/pdk/core/utils/RetryUtils.java:217-228 | With no handler or a null reply, an uncoded error gets fresh options, which forbid a retry |
| RetryProperties.PlainVerdictExamples | plugin-kit/tapdata-tests/src/test/java/io/tapdata/utils/RetryUtilsTest.java:53-83 | A coded error with a recoverable code asks for a retry; a plain exception does not |
| RetryProperties.RetryTraceWithoutCallbacks | plugin-kit/tapdata-pdk-runner/src/main/java/io/tapdata/pdk/core/utils/RetryUtils.java:175-192 | Without before-retry callbacks, the events of j retried failures are the sign hook once and then the start hook j times |
| RetryProperties.ExhaustFrom | plugin-kit/tapdata-pdk-runner/src/main/java/io/tapdata/pdk/core/utils/RetryUtils.java:159-196 | b retried failures and one more failure: the last error is thrown after the clear hook, the budget at 0, after b + 1 calls |
| RetryProperties.RecoverFrom | plugin-kit/tapdata-pdk-runner/src/main/java/io/tapdata/pdk/core/utils/RetryUtils.java:159-168 | j retried failures and then a success: j units spent, j + 1 calls, then the clear and reset hooks once the frame has retried |
| RetryProperties.PlainCalls | plugin-kit/tapdata-pdk-runner/src/main/java/io/tapdata/pdk/core/utils/RetryUtils.java:170-174 | In the single-argument loop a failure is never skipped, always has a verdict without a callback, and is retried exactly when its class or its verdict allows |
| RetryProperties.AllFailuresExhaustBudget | plugin-kit/tapdata-pdk-runner/src/main/java/io/tapdata/pdk/core/utils/RetryUtils.java:159-196 | Budget n and every call failing with retried errors: n + 1 calls, budget 0, start hook n times, clear hook once, the last error thrown |
| RetryProperties.FailuresThenSuccess | plugin-kit/tapdata-pdk-runner/src/main/java/io/tapdata/pdk/core/utils/RetryUtils.java:159-168 | k of n retried failures then a success: k + 1 calls, budget n - k; the clear hook then the reset hook exactly when k > 0 |
| RetryProperties.ZeroBudgetThrowsAtOnce | plugin-kit/tapdata-pdk-runner/src/main/java/io/tapdata/pdk/core/utils/RetryUtils.java:193-196 | Budget 0: one call, whose failure is thrown after the clear hook |
| RetryProperties.NotRetriedThrowsAfterReset | plugin-kit/tapdata-pdk-runner/src/main/java/io/tapdata/pdk/core/utils/RetryUtils.java:134-137 | A failure neither its class nor its verdict retries is thrown after the reset hook, the budget untouched |
| RetryProperties.AsyncSchedulesAfterOneFailure | plugin-kit/tapdata-pdk-runner/src/main/java/io/tapdata/pdk/core/utils/RetryUtils.java:179-181 | In async mode one retried failure schedules the next call after the positive period and returns, one unit spent, after the sign and start hooks |
| RetryProperties.SkippableRethrownAtOnce | plugin-kit/tapdata-pdk-runner/src/main/java/io/tapdata/pdk/core/utils/RetryUtils.java:75-86 | Skip-on-error: a skippable coded error is rethrown unchanged on the first call with the budget unchanged, after the reset hook only when its code is not recoverable |
| RetryProperties.HandlerFailureThrown | plugin-kit/tapdata-pdk-runner/src/main/java/io/tapdata/pdk/core/utils/RetryUtils.java:219-224 | A throwing handler ends the node loop with the handler-failure code, the budget untouched |
| RetryProperties.BudgetAccounting | plugin-kit/tapdata-pdk-runner/src/main/java/io/tapdata/pdk/core/utils/RetryUtils.java:170-196 | From any point: each retried failure costs one unit and one call and fires the start hook once; the sign hook fires once per frame; the clear hook at most once; only async returns early |
| RetryProperties.RunBudget | plugin-kit/tapdata-pdk-runner/src/main/java/io/tapdata/pdk/core/utils/RetryUtils.java:64-131 | The same accounting for either loop from its start |
| RetryProperties.NonRecoverableCodeOverridesHandler | plugin-kit/tapdata-pdk-runner/src/main/java/io/tapdata/pdk/core/utils/RetryUtils.java:229-238 | A non-recoverable code other than UNKNOWN_ERROR overrides the handler: thrown at once after the reset hook, unless a default-retry class is in the chain, which still retries |
| RetryLifeCycle.PeriodMillis | plugin-kit/tapdata-pdk-runner/src/main/java/io/tapdata/pdk/core/utils/EmptyRetryLifeCycle.java:46-66 | Never negative, fits a long, and is 0 when the period is not positive or there is no unit |
| RetryLifeCycle.PeriodMillisIsTruncatedNanos | plugin-kit/tapdata-pdk-runner/src/main/java/io/tapdata/pdk/core/utils/EmptyRetryLifeCycle.java:48-63 | Every unit converts as the period's length in nanoseconds divided by one million, rounded down |
| RetryLifeCycle.SubMillisecondTruncates | plugin-kit/tapdata-pdk-runner/src/main/java/io/tapdata/pdk/core/utils/EmptyRetryLifeCycle.java:49-52 | Nanosecond and microsecond periods become the largest whole number of milliseconds not above them |
| RetryLifeCycle.PeriodMillisMonotonic | plugin-kit/tapdata-pdk-runner/src/main/java/io/tapdata/pdk/core/utils/EmptyRetryLifeCycle.java:46-66 | A longer period never converts to fewer milliseconds |
| RetryLifeCycle.TotalRetriesRecordsFirst | plugin-kit/tapdata-pdk-runner/src/main/java/io/tapdata/pdk/core/utils/EmptyRetryLifeCycle.java:26-27 | After any series of starts from a fresh record, the total is the first non-zero argument ever passed |
| RetryLifeCycle.TotalAfterFixed | plugin-kit/tapdata-pdk-runner/src/main/java/io/tapdata/pdk/core/utils/EmptyRetryLifeCycle.java:26-27 | Once the total is non-zero, no later start changes it |
| RetryLifeCycle.LifeCycle.constructor | plugin-kit/tapdata-pdk-runner/src/main/java/io/tapdata/pdk/core/utils/EmptyRetryLifeCycle.java:12-21 | Counters and timestamps start at zero, no unit, no operation name, not successful |
| RetryLifeCycle.LifeCycle.StartRetry | plugin-kit/tapdata-pdk-runner/src/main/java/io/tapdata/pdk/core/utils/EmptyRetryLifeCycle.java:24-40 | The total and start time are set only while zero; the counter goes up by one; last retry time, period, unit, operation and async are overwritten; the end time and success stay |
| RetryLifeCycle.LifeCycle.RetryPeriodMillis | plugin-kit/tapdata-pdk-runner/src/main/java/io/tapdata/pdk/core/utils/EmptyRetryLifeCycle.java:46-66 | The record's period in whole milliseconds, rounded down from its length in nanoseconds |
| RetryLifeCycle.AddLong | plugin-kit/tapdata-pdk-runner/src/main/java/io/tapdata/pdk/core/utils/EmptyRetryLifeCycle.java:43 | Java `long` addition: a `long` congruent to the exact sum modulo 2^64, equal to it when it fits |
| RetryLifeCycle.LifeCycle.NextRetryTimestamp | plugin-kit/tapdata-pdk-runner/src/main/java/io/tapdata/pdk/core/utils/EmptyRetryLifeCycle.java:42-44 | A `long`: one period after the last retry, and before the last retry exactly when the sum overflows; equal to the last retry when there is no positive period with a unit |
| RetryLifeCycle.NextRetryTimestampWraps | plugin-kit/tapdata-pdk-runner/src/main/java/io/tapdata/pdk/core/utils/EmptyRetryLifeCycle.java:42-44 | The largest period in milliseconds one millisecond after the epoch wraps round to the smallest `long` |
| RetryLifeCycle.LifeCycle.Success | plugin-kit/tapdata-pdk-runner/src/main/java/io/tapdata/pdk/core/utils/EmptyRetryLifeCycle.java:73-77 | Sets the end time and success; nothing else changes |
| RetryLifeCycle.LifeCycle.ExceededRetries | plugin-kit/tapdata-pdk-runner/src/main/java/io/tapdata/pdk/core/utils/EmptyRetryLifeCycle.java:68-71 | Sets the end time only; success is left as it was |
| Processor.Output | plugin-kit/tapdata-common/src/main/java/io/tapdata/common/concurrent/BaseConcurrentProcessor.java:69-91 | A task yields at most one result: exactly the function's value when it returns one, nothing for a null, an exception or a barrier mark |
| Processor.OutputsAppend | plugin-kit/tapdata-common/src/main/java/io/tapdata/common/concurrent/BaseConcurrentProcessor.java:68-78 | The results of two runs of tasks are the results of each, in order |
| Processor.BarriersYieldNothing | plugin-kit/tapdata-common/src/main/java/io/tapdata/common/concurrent/BaseConcurrentProcessor.java:79-91 | Barrier marks never put anything on a consumer queue |
| Processor.Next | plugin-kit/tapdata-common/src/main/java/io/tapdata/common/concurrent/BaseConcurrentProcessor.java:115 | The advanced index is always a valid shard |
| Processor.NextWraps | plugin-kit/tapdata-common/src/main/java/io/tapdata/common/concurrent/BaseConcurrentProcessor.java:115 | From a valid shard the index moves to the following shard, or to the first after the last |
| Processor.AdvanceAdds | plugin-kit/tapdata-common/src/main/java/io/tapdata/common/concurrent/BaseConcurrentProcessor.java:115 | Advancing a times and then b times is advancing a + b times |
| Processor.AdvanceWithinRound | plugin-kit/tapdata-common/src/main/java/io/tapdata/common/concurrent/BaseConcurrentProcessor.java:115 | Within one round the index counts up by one per advance |
| Processor.FullRoundReturns | plugin-kit/tapdata-common/src/main/java/io/tapdata/common/concurrent/BaseConcurrentProcessor.java:115 | After `thread` advances the index is back where it started |
| Processor.RoundRobinVisitsEveryShard | plugin-kit/tapdata-common/src/main/java/io/tapdata/common/concurrent/BaseConcurrentProcessor.java:113-115 | Any `thread` consecutive advances visit every shard |
| Processor.ConcurrentProcessor.constructor | plugin-kit/tapdata-common/src/main/java/io/tapdata/common/concurrent/BaseConcurrentProcessor.java:30-45 | `thread` empty producer queues and `thread` empty consumer queues of capacity `queueSize`, no result in flight; not running, not paused, both indices 0 |
| Processor.ConcurrentProcessor.Start | plugin-kit/tapdata-common/src/main/java/io/tapdata/common/concurrent/BaseConcurrentProcessor.java:48-100 | Running afterwards; a start from stopped brings up a live worker on every shard; idempotent while running; nothing else changes |
| Processor.ConcurrentProcessor.Produce | plugin-kit/tapdata-common/src/main/java/io/tapdata/common/concurrent/BaseConcurrentProcessor.java:102-120 | A null input changes nothing; a null function is an illegal argument and changes nothing; otherwise the workers start, the new task is appended to the current shard only and recorded as submitted to it, and only the producer index advances |
| Processor.ConcurrentProcessor.ProduceTimed | plugin-kit/tapdata-common/src/main/java/io/tapdata/common/concurrent/BaseConcurrentProcessor.java:122-147 | A null input reports success and changes nothing; a null function is illegal; otherwise offered means there was room and the offer was served, and only then is the new task appended, recorded as submitted to that shard, and the index advanced |
| Processor.ConcurrentProcessor.Get | plugin-kit/tapdata-common/src/main/java/io/tapdata/common/concurrent/BaseConcurrentProcessor.java:152-163 | Returns the head of the current consumer queue, removes it, records it as delivered and advances only the consumer index |
| Processor.ConcurrentProcessor.GetTimed | plugin-kit/tapdata-common/src/main/java/io/tapdata/common/concurrent/BaseConcurrentProcessor.java:166-179 | A result exactly when the queue is non-empty and the poll is served; only then is it removed and the index advanced |
| Processor.ConcurrentProcessor.WorkerStep | plugin-kit/tapdata-common/src/main/java/io/tapdata/common/concurrent/BaseConcurrentProcessor.java:68-91 | A worker that holds no result takes the shard's head task, whatever room the consumer queue has, and frees its producer-queue slot; a returned value is held in flight, a null result or a barrier mark yields nothing; an exception ends the shard's worker, which takes no further task until the workers are started again; other shards are untouched; FIFO is kept |
| Processor.ConcurrentProcessor.WorkerPut | plugin-kit/tapdata-common/src/main/java/io/tapdata/common/concurrent/BaseConcurrentProcessor.java:78 | The result the shard's worker holds goes to the end of the same shard's consumer queue once it has room, and the worker holds nothing; other shards are untouched; FIFO is kept |
| Processor.ConcurrentProcessor.PutBarrierInAllProducerQueue | plugin-kit/tapdata-common/src/main/java/io/tapdata/common/concurrent/BaseConcurrentProcessor.java:197-209 | Exactly one mark of one new barrier sized `thread` is appended to every producer queue and recorded as submitted to every shard; the producer index does not move |
| Processor.ConcurrentProcessor.Pause | plugin-kit/tapdata-common/src/main/java/io/tapdata/common/concurrent/BaseConcurrentProcessor.java:219-222 | Sets the pause flag and changes nothing else |
| Processor.ConcurrentProcessor.Resume | plugin-kit/tapdata-common/src/main/java/io/tapdata/common/concurrent/BaseConcurrentProcessor.java:224-230 | Clears the pause flag and changes nothing else |
| Processor.ConcurrentProcessor.Close | plugin-kit/tapdata-common/src/main/java/io/tapdata/common/concurrent/BaseConcurrentProcessor.java:181-183 | Clears the running flag and changes nothing else |
| Processor.DeliveredInSubmissionOrder | plugin-kit/tapdata-common/src/main/java/io/tapdata/common/concurrent/BaseConcurrentProcessor.java:68-78 | Per-shard FIFO: what a shard has delivered is a prefix of what its submitted tasks yield, in submission order, and the delivered, queued and in-flight results together never outnumber them |
| UpdateEvent.KeyValue | plugin-kit/tapdata-api/src/main/java/io/tapdata/entity/event/dml/TapUpdateRecordEvent.java:199-203 | A key's value is the one `after` holds whenever `after` exists, none when `after` lacks the key; only without `after` is it the one `before` holds |
| UpdateEvent.FillFrom | plugin-kit/tapdata-api/src/main/java/io/tapdata/entity/event/dml/TapUpdateRecordEvent.java:196-208 | Filling keeps every key already in the map, adds only the given keys, and reports as missing only a given key that has no value |
| UpdateEvent.FillSucceedsIff | plugin-kit/tapdata-api/src/main/java/io/tapdata/entity/event/dml/TapUpdateRecordEvent.java:196-208 | Building the filter succeeds exactly when every key has a value; then its domain is exactly the keys, each mapped to its value |
| UpdateEvent.FillKeepsAbsent | plugin-kit/tapdata-api/src/main/java/io/tapdata/entity/event/dml/TapUpdateRecordEvent.java:198-205 | An entry no later key overwrites keeps its value |
| UpdateEvent.FillStopsAtFirstMissing | plugin-kit/tapdata-api/src/main/java/io/tapdata/entity/event/dml/TapUpdateRecordEvent.java:204-207 | A failure reports the first key without a value and leaves exactly the keys before it in the cached map |
| UpdateEvent.AfterShadowsBefore | plugin-kit/tapdata-api/src/main/java/io/tapdata/entity/event/dml/TapUpdateRecordEvent.java:199-203 | An `after` image lacking the key makes it missing even when `before` holds it |
| UpdateEvent.PutAfter | plugin-kit/tapdata-api/src/main/java/io/tapdata/entity/event/dml/TapUpdateRecordEvent.java:180-185 | The image exists afterwards and holds the value under the name; every other column is present exactly when it was, with its old value, so a stored null is kept apart from an absent column |
| UpdateEvent.RemoveAfter | plugin-kit/tapdata-api/src/main/java/io/tapdata/entity/event/dml/TapUpdateRecordEvent.java:187-191 | No image stays none; otherwise the name is gone and every other column is present exactly when it was, with its old value |
| UpdateEvent.RemoveUndoesPut | plugin-kit/tapdata-api/src/main/java/io/tapdata/entity/event/dml/TapUpdateRecordEvent.java:180-191 | Removing a name just put restores an image that lacked it |
| UpdateEvent.PutOverwrites | plugin-kit/tapdata-api/src/main/java/io/tapdata/entity/event/dml/TapUpdateRecordEvent.java:180-185 | A second put under the same name replaces the first |
| UpdateEvent.DeleteBefore | plugin-kit/tapdata-api/src/main/java/io/tapdata/entity/event/dml/TapUpdateRecordEvent.java:152-158 | A delete event gets `before` if there is one, else `after` if there is one, else keeps its own |
| UpdateEvent.UpdateRecordEvent.constructor | plugin-kit/tapdata-api/src/main/java/io/tapdata/entity/event/dml/TapUpdateRecordEvent.java:49-72 | No images, no cached filter, no lists, and the replace flag false |
| UpdateEvent.UpdateRecordEvent.GetFilter | plugin-kit/tapdata-api/src/main/java/io/tapdata/entity/event/dml/TapUpdateRecordEvent.java:193-211 | No keys is an error even with a cached filter; a cached filter is returned unchanged; otherwise the built filter, or the missing key, with the partial map cached |
| UpdateEvent.UpdateRecordEvent.PutAfterValue | plugin-kit/tapdata-api/src/main/java/io/tapdata/entity/event/dml/TapUpdateRecordEvent.java:180-185 | The `after` image becomes `PutAfter` of the old one; no other field changes |
| UpdateEvent.UpdateRecordEvent.RemoveAfterValue | plugin-kit/tapdata-api/src/main/java/io/tapdata/entity/event/dml/TapUpdateRecordEvent.java:187-191 | The `after` image becomes `RemoveAfter` of the old one; no other field changes |
| UpdateEvent.UpdateRecordEvent.CloneToUpdate | plugin-kit/tapdata-api/src/main/java/io/tapdata/entity/event/dml/TapUpdateRecordEvent.java:135-144 | Each image is copied only when present, the target otherwise keeping its own; the lists and the replace flag are always copied; the target's filter stays |
| UpdateEvent.UpdateRecordEvent.CloneToInsert | plugin-kit/tapdata-api/src/main/java/io/tapdata/entity/event/dml/TapUpdateRecordEvent.java:145-151 | `after` is copied only when present; the removed fields and after-side illegal-date names always |
| UpdateEvent.UpdateRecordEvent.CloneToDelete | plugin-kit/tapdata-api/src/main/java/io/tapdata/entity/event/dml/TapUpdateRecordEvent.java:152-159 | `before`, else `after`, else the target's own; the before-side illegal-date names always |
| SortOn.Empty | plugin-kit/tapdata-pdk-api/src/main/java/io/tapdata/pdk/apis/entity/SortOn.java:13 | Direction code 0 and the default null ordering |
| SortOn.Make | plugin-kit/tapdata-pdk-api/src/main/java/io/tapdata/pdk/apis/entity/SortOn.java:15-18 | The key and direction given, the null ordering at its default 0 |
| SortOn.Ascending | plugin-kit/tapdata-pdk-api/src/main/java/io/tapdata/pdk/apis/entity/SortOn.java:26-28 | Direction 1, null ordering 0 |
| SortOn.Descending | plugin-kit/tapdata-pdk-api/src/main/java/io/tapdata/pdk/apis/entity/SortOn.java:30-32 | Direction 2, null ordering 0 |
| SortOn.Direction | plugin-kit/tapdata-pdk-api/src/main/java/io/tapdata/pdk/apis/entity/SortOn.java:62 | ASC exactly for code 1; DESC for every other code |
| SortOn.ToStringQuoted | plugin-kit/tapdata-pdk-api/src/main/java/io/tapdata/pdk/apis/entity/SortOn.java:61-63 | The rendering starts with the quote, then the key, and its length accounts for two quotes, the key, a space and the direction word |
| SortOn.ToString | plugin-kit/tapdata-pdk-api/src/main/java/io/tapdata/pdk/apis/entity/SortOn.java:57-59 | The key, a space and the direction word |
| SortOn.ParseRendering | plugin-kit/tapdata-pdk-api/src/main/java/io/tapdata/pdk/apis/entity/SortOn.java:61-63 | Reading a rendering back with the same quote gives the key and whether the sort is ascending |
| SortOn.RenderingsEqualIff | plugin-kit/tapdata-pdk-api/src/main/java/io/tapdata/pdk/apis/entity/SortOn.java:61-63 | Two descriptors render alike exactly when their keys agree and both or neither are ascending |
| SortOn.RenderingIgnoresNullSort | plugin-kit/tapdata-pdk-api/src/main/java/io/tapdata/pdk/apis/entity/SortOn.java:62 | The null ordering does not affect the rendering |
| SortOn.ToStringIsUnquoted | plugin-kit/tapdata-pdk-api/src/main/java/io/tapdata/pdk/apis/entity/SortOn.java:57-59 | `toString()` is `toString("")` |
| SortOn.DescendingUnlessAscending | plugin-kit/tapdata-pdk-api/src/main/java/io/tapdata/pdk/apis/entity/SortOn.java:62 | Any code other than 1 renders DESC, including the descending factory and the no-argument descriptor |

## Left out

- Threads, the thread pool, thread naming, futures, their cancellation and interrupts in the queue engine are not modelled. Each shard's worker is the explicit pair `WorkerStep` (take and apply) and `WorkerPut` (put). A blocking put or take is a precondition. The pause gate's wait is a precondition that the engine is not paused. An interrupted produce or get is not modelled.
- Processor.ConcurrentProcessor.WorkerStep: the rendezvous at the barrier, and the barrier breaking (which also ends the worker), cannot be expressed sequentially. A mark is consumed with no output.
- Processor.ConcurrentProcessor.Close: `shutdownNow` interrupts a worker blocked in its put, and the Java worker then drops the result it held and ends. The model keeps that result in flight, and a later `WorkerPut` may still deliver it.
- Processor.ConcurrentProcessor.constructor: this requires `thread > 0` and `queueSize > 0`. With `thread > 0`, a zero-capacity queue throws in the Java constructor. With `thread == 0` the Java constructor succeeds with no queues at all, and the first `produce` fails in `start`, where the thread pool of zero threads is refused, after `running` has already been set; that failing start is not modelled.
- The scheduler of the async retry and the synchronous wait between retries are left out. They become the `Scheduled` result and nothing.
- Logging in the retry loops is left out: it is output only.
- Retry.Fire: hooks and the log listener are assumed not to throw; a fired hook is only an event. In the code, a throwing clear or reset hook after a successful call (lines 70-71, 165-166) is caught as a failure of the operation, so the loop goes on to the retry path and may call the operation again; a throwing hook in a catch block or in `throwIfNeed` (lines 81, 94, 109-111, 127, 176-178, 194, 267) propagates out of `autoRetry` in place of the intended exception. Only the before-retry callback is guarded against exceptions (line 279).
- `CommonUtils.prepareFunctionAndContextForNode` and the node's error handler are left out: their code is not part of this model. The handler is one reply per attempt. `CommonUtils.matchThrowable`, used by `wrapAndThrowError` and the single-argument verdict, is assumed to behave as `RetryUtils.matchThrowable`.
- The error-code registry is a map parameter, and it must hold the code of every TapCodeException in the graph (`CodesRegistered`). The code only looks up two codes: the failing error's own code, in the node verdict and the skip test, and the code of the TapCodeException the matcher finds, in the single-argument verdict. The verdicts use the entry they look up without a null check (RetryUtils.java lines 217-256). Requiring every code loses no outcome, since a code that is never looked up changes nothing. One consequence: the skip test's null check (lines 78-79) never fails in the model, so an unregistered skip-path code is not modelled.
- Error-code strings are left out: CALL_ERROR_HANDLE_API_ERROR and UNKNOWN_ERROR are distinct constants only.
- The WHEN_NEED retry policy branch is left out: the policy is fixed to ALWAYS.
- `getLastCause` is left out: it is unused.
- The interrupt check in the matcher's loop is left out.
- Retry.Run: the specification computes the verdict of a failure even when the budget is 0, where the code does not. The verdict is pure, so the result is the same.
- RetryLifeCycle.PeriodMillis: Java `long` overflow is excluded by the `NoOverflow` precondition rather than modelled.
- RetryLifeCycle.LifeCycle.NextRetryTimestamp: the addition wraps as a Java `long` does; the period conversion inside it is bounded by `NoOverflow` as for `PeriodMillis`, and the last retry time is required to be a `long`, the field's Java type.
- RetryLifeCycle.LifeCycle.StartRetry: the retry counter's `long` wrap-around is not modelled. The two clock reads are two parameters.
- The atomic compare-and-set of the lifecycle counters is a plain field update; there is no concurrency here.
- The deep copy of the images in `clone` is assumed to give an equal map, and `super.clone` is not part of this model. `clone` is three methods, one per target event type.
- The commented-out serialisation of the update event, its setters, getters and fluent setters, its creation time and the CoreException message texts are left out.
- UpdateEvent.Image: map entry order (LinkedHashMap) is not modelled.
- SortOn.Empty: the Java key is null, which renders as "null". The model's key is a plain string, here empty.
- The `SortOn` setters and the three-argument constructor are left out. They are plain field writes, and the datatype's own constructor is the three-argument one.
