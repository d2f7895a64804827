# NoisePage core, modelled in Dafny

This project models six small cores of the NoisePage database server.

- **Write-ahead-log disk consumer task** (`DiskLogConsumer`). The background task waits for work, with an idle back-off that doubles up to 10 ms. It drains the filled-buffer queue into the log file and counts the bytes written. It recycles each non-null buffer to the empty queue and collects the commit callbacks in order. When a persist is due, it persists the file and fires the callbacks. On shutdown it does a final drain and persist. The task is a class whose fields are the C++ members. A ghost trace records what happened to the file: the units written (`Drained`), the `Persisted` points and the callbacks `Fired`. `Valid()` ties the fields to that trace. Two properties are proved for every reachable state. No callback is fired while written bytes are still unpersisted. Callbacks fire in the order their units were drained, and only once their unit has been drained.
- **Connection state machine** (`ConnectionHandle`). This is the transition table `Delta`: state × transition gives the next state and an action, or is undefined (the C++ throws). It includes the `Accept` loop that runs actions until one returns `NONE`, turning a `NetworkProcessException` into `TERMINATE`. It also covers the event-to-transition rule of `HandleEvent` and the return logic of `TryCloseConnection` and `TryWrite`.
- **Execution-context helpers** (`ExecutionContext`, `MathUtil`):
  - the aligned tuple-size computation;
  - the null guard of `OutputBufferNew`;
  - the hook table (`InitHooks`, `RegisterHook`, `InvokeHook`);
  - the serial and parallel operating-unit feature vectors.
- **State descriptor** (`StateDescriptor`). Slots are appended. The final struct type is built once, optionally after sorting the slots by descending size, and cached.
- **Network metric aggregation** (`NetworkMetric`). The transfer from another raw-data object is bounded by 32 KiB of records, and the other object is cleared afterwards.
- **Performance counter subtraction** (`PerfMonitor`). This is field-wise subtraction modulo 2^64 that leaves `num_counters_` alone.

Clocks and the results of calls into code outside the model are inputs to the methods:
- the current time;
- the outcome of each action inside `Accept`, constrained by `Admissible` to what that action's code can return;
- the value `Close()` returns;
- whether `ShouldFlush()` holds.

The condition-variable wait is not an input. `AwaitWork` computes its result from the wait predicate.

`Wrappers` holds the `Option` type.

## Model

| member | source | states |
|---|---|---|
| DiskLogConsumer.ConcatFile | src/storage/write_ahead_log/disk_log_consumer_task.cpp:37-43 | Draining two runs of units one after the other writes the first run's bytes and then the second's. |
| DiskLogConsumer.ConcatBytes | src/storage/write_ahead_log/disk_log_consumer_task.cpp:40-43 | The byte counts that `FlushBuffer()` reports over two runs add up. |
| DiskLogConsumer.ConcatCallbacks | src/storage/write_ahead_log/disk_log_consumer_task.cpp:44 | The callbacks of two runs are the first run's followed by the second's, in dequeue order. |
| DiskLogConsumer.ConcatBuffers | src/storage/write_ahead_log/disk_log_consumer_task.cpp:45-49 | The buffers recycled over two runs are the first run's followed by the second's. |
| DiskLogConsumer.BytesAreFileLength | src/storage/write_ahead_log/disk_log_consumer_task.cpp:40-43 | The bytes counted into `current_data_written_` equal the length of what was written to the file. |
| DiskLogConsumer.BuffersCount | src/storage/write_ahead_log/disk_log_consumer_task.cpp:45-49 | The number of buffers recycled equals the number of units whose buffer is non-null, so a null buffer is never enqueued. |
| DiskLogConsumer.FireSafeAt | src/storage/write_ahead_log/disk_log_consumer_task.cpp:53-61 | In a fire-safe trace, every written byte before a fired callback has been persisted. |
| DiskLogConsumer.FireOrderedAt | src/storage/write_ahead_log/disk_log_consumer_task.cpp:59-61 | In a fire-ordered trace, the callbacks fired up to and including each firing are a prefix of the drained units' callbacks. |
| DiskLogConsumer.FireKeepsOrder | src/storage/write_ahead_log/disk_log_consumer_task.cpp:59-61 | Firing callbacks that continue the fired ones along the drained callbacks keeps the trace fire-ordered. It drains nothing and appends exactly those callbacks to the fired ones. |
| DiskLogConsumer.PersistFollowsWrite | src/storage/write_ahead_log/disk_log_consumer_task.cpp:53-58 | When nothing is unsynced, every write that put bytes in the file is followed later by a `Persist()`. |
| DiskLogConsumer.NoPrematureNotification | src/storage/write_ahead_log/disk_log_consumer_task.cpp:53-64 | A fired callback is the next one, in drain order, of a unit already drained. Every earlier write with bytes has a `Persist()` between it and the firing. |
| DiskLogConsumer.DrainAppend | src/storage/write_ahead_log/disk_log_consumer_task.cpp:34-51 | Draining units adds their bytes to the unsynced count and appends them to the drained units. It fires nothing, persists nothing and keeps the trace fire-safe and fire-ordered. |
| DiskLogConsumer.FireAppend | src/storage/write_ahead_log/disk_log_consumer_task.cpp:59-61 | Firing callbacks after a persist appends them, in order, to the fired callbacks. It writes nothing and keeps the trace fire-safe. |
| DiskLogConsumer.DrainKeepsCoherence | src/storage/write_ahead_log/disk_log_consumer_task.cpp:34-51 | A drain keeps the pending callbacks equal to the drained-but-unfired ones, and keeps the empty queue equal to the pool plus the recycled buffers. |
| DiskLogConsumer.PersistKeepsCoherence | src/storage/write_ahead_log/disk_log_consumer_task.cpp:53-64 | A persist-and-fire adds exactly one `Persisted` event when bytes were written and none otherwise. It fires every pending callback after that event, keeps the firing order and leaves nothing unsynced or pending. |
| DiskLogConsumer.NextSleep | src/storage/write_ahead_log/disk_log_consumer_task.cpp:104-105 | The next wait is the persist interval after a signalled wait and twice the current wait after a timeout. It is capped at 10000 µs either way. |
| DiskLogConsumer.IdleSleepDoubles | src/storage/write_ahead_log/disk_log_consumer_task.cpp:92-105 | After k timed-out waits in a row starting from s, the wait is min(s·2^k, 10000). |
| DiskLogConsumer.BackOffStep | src/storage/write_ahead_log/disk_log_consumer_task.cpp:92-105 | A wait chosen by the back-off rule from the previous wait and its outcome extends a back-off schedule. |
| DiskLogConsumer.IdleWaitsFollow | src/storage/write_ahead_log/disk_log_consumer_task.cpp:92-105 | In a back-off schedule, the wait after n timed-out waits from the k-th is `IdleSleep` of the k-th wait. |
| DiskLogConsumer.IdleWaitsDouble | src/storage/write_ahead_log/disk_log_consumer_task.cpp:92-105 | In a back-off schedule, the wait after n timed-out waits from the k-th is min(sleeps[k]·2^n, 10000). |
| DiskLogConsumer.SignalResets | src/storage/write_ahead_log/disk_log_consumer_task.cpp:102-105 | In a back-off schedule, the wait after a signalled one is the persist interval, capped at 10000 µs. |
| DiskLogConsumer.IdleTicksDouble | src/storage/write_ahead_log/disk_log_consumer_task.cpp:92-105 | Over a whole run, n ticks in a row that bring no work, ask for no flush and do not stop the task double the wait each time: the wait after them is min(sleeps[k]·2^n, 10000). |
| DiskLogConsumer.WakingTickResets | src/storage/write_ahead_log/disk_log_consumer_task.cpp:102-105 | Over a whole run, after a tick that brings work, asks for a flush or stops the task, the next wait is the persist interval, capped at 10000 µs. |
| DiskLogConsumer.ScheduleStep | src/storage/write_ahead_log/disk_log_consumer_task.cpp:92-105 | One iteration extends the run's schedule: its wait, whether the tick woke it, and the next wait chosen by the back-off rule. |
| DiskLogConsumer.FirstTerminate | src/storage/write_ahead_log/disk_log_consumer_task.cpp:145 | This is the first tick at which the task is told to stop; no earlier tick stops it. |
| DiskLogConsumer.DiskLogConsumerTask.Terminate | src/storage/write_ahead_log/disk_log_consumer_task.cpp:25-32 | Requires that `run_task_` is set, then clears it. |
| DiskLogConsumer.DiskLogConsumerTask.DequeueAndFlush | src/storage/write_ahead_log/disk_log_consumer_task.cpp:39-49 | Removes the front unit and writes its bytes. It adds their count, appends the unit's callbacks and recycles its buffer if it is non-null. |
| DiskLogConsumer.DiskLogConsumerTask.WriteBuffersToLogFile | src/storage/write_ahead_log/disk_log_consumer_task.cpp:34-51 | Empties the filled queue, drains its units in order and adds exactly their byte count. It appends their callbacks in order and recycles exactly their non-null buffers. It persists and fires nothing, and keeps `Valid()`. |
| DiskLogConsumer.DiskLogConsumerTask.PersistLogFile | src/storage/write_ahead_log/disk_log_consumer_task.cpp:53-64 | Fires every pending callback in order and then clears the list. Afterwards no byte is unsynced. Returns the number of callbacks. |
| DiskLogConsumer.DiskLogConsumerTask.AwaitWork | src/storage/write_ahead_log/disk_log_consumer_task.cpp:92-106 | The current wait becomes the scheduled one. `signaled` is the wait predicate, and the next wait follows the back-off rule. |
| DiskLogConsumer.DiskLogConsumerTask.PersistAndReset | src/storage/write_ahead_log/disk_log_consumer_task.cpp:119-130 | Persists and fires, then zeroes `current_data_written_`, clears `force_flush_` and records the persist time. |
| DiskLogConsumer.DiskLogConsumerTask.PersistIfDue | src/storage/write_ahead_log/disk_log_consumer_task.cpp:116-130 | Persists exactly when the elapsed time exceeds the current wait, or more than the threshold was written, or a flush is forced, or the task is stopping. It reports those inputs. A persist empties the pending callbacks, zeroes the byte counter, clears the flag and restarts the interval. Otherwise nothing changes. |
| DiskLogConsumer.DiskLogConsumerTask.DrainThenPersistIfDue | src/storage/write_ahead_log/disk_log_consumer_task.cpp:108-130 | Drains the whole filled queue, then persists exactly when `ShouldPersist` holds with the bytes just drained counted. A persist leaves nothing unsynced or pending and resets the counter, the flag and the persist time. Otherwise the counter has grown by the drained bytes and the flag and time are unchanged. |
| DiskLogConsumer.DiskLogConsumerTask.WaitThenWork | src/storage/write_ahead_log/disk_log_consumer_task.cpp:92-130 | The wait is the scheduled one. It is signalled exactly when a flush is forced, work is queued or the task is stopping, and the next wait follows the back-off rule. Then it drains and persists exactly when `ShouldPersist` holds, with the resets of `DrainThenPersistIfDue`. |
| DiskLogConsumer.DiskLogConsumerTask.Iteration | src/storage/write_ahead_log/disk_log_consumer_task.cpp:86-145 | The environment's tick, then one loop iteration. The wait is signalled exactly when a flush was forced or requested, units were queued or arrived, or the tick stops the task, and the next wait follows the back-off rule. The iteration persists exactly when `ShouldPersist` holds for this iteration's clock, bytes and flags, with the resets after a persist. It drains everything that arrived, ends with no flush pending, and the task keeps running exactly when it was not told to stop. |
| DiskLogConsumer.DiskLogConsumerTask.Iterate | src/storage/write_ahead_log/disk_log_consumer_task.cpp:86-145 | The `do … while (run_task_)` loop runs exactly up to and including the first stopping tick. The first wait is the persist interval and every later one is at most 10000 µs. Each wait after the first follows the back-off rule from the previous wait and how that one ended. Wait k was signalled exactly when tick k brought work, asked for a flush or stopped the task; the first wait was also signalled when work or a flush was already pending at the start. |
| DiskLogConsumer.DiskLogConsumerTask.DrainAndPersistAll | src/storage/write_ahead_log/disk_log_consumer_task.cpp:146-148 | The final drain and persist leave the queue empty, nothing pending and nothing unsynced. The log file is all submitted bytes in order, every callback has fired, in order and after a persist, and every non-null buffer is back in the empty queue. |
| DiskLogConsumer.DiskLogConsumerTask.DiskLogConsumerTaskLoop | src/storage/write_ahead_log/disk_log_consumer_task.cpp:66-149 | The whole loop: the file holds every submitted unit's bytes in order, and every callback fires in submission order. The trace is fire-safe and fire-ordered: no callback fires before its bytes are persisted or before its unit is drained. All non-null buffers are recycled. Every wait after the first is at most 10000 µs and follows the back-off rule. Wait k was signalled exactly when tick k brought work, asked for a flush or stopped the task; the first wait was also signalled when work or a flush was already pending at the start. |
| DiskLogConsumer.DiskLogConsumerTask.RunTask | src/storage/write_ahead_log/disk_log_consumer_task.cpp:20-23 | Sets `run_task_` and runs the loop, with the loop's whole-run guarantees: the file contents, the callback order, fire-safety, fire-order, the recycled buffers, the back-off schedule and which waits were signalled. |
| ConnectionHandle.Delta | src/network/connection_handle.cpp:21-70 | `TERMINATE` always leads to closing with `TryCloseConnection`, and `WAKEUP` never changes the state. `PROCEED` cycles read → process → write → process and is undefined in closing. Exactly the pairs missing from each state's switch are undefined. |
| ConnectionHandle.NextTransition | src/network/connection_handle.cpp:133-139 | An action that throws continues with `TERMINATE`; otherwise the machine continues with the action's result. |
| ConnectionHandle.CompletedRunStopsAtFirstNone | src/network/connection_handle.cpp:127-141 | A completed `Accept` run stops at the first action that returned `NONE`; no earlier action did. |
| ConnectionHandle.FirstNoneCompletes | src/network/connection_handle.cpp:127-141 | If the first action returns `NONE`, the run completes after performing just that action, in the new state. |
| ConnectionHandle.RaisedLeadsToClose | src/network/connection_handle.cpp:133-139 | After an action throws, the next action performed is `TryCloseConnection` from the closing state. |
| ConnectionHandle.CloseOutcomesAdmissible | src/network/connection_handle.cpp:269-286 | The transitions `TryCloseConnection` can return are exactly those `CloseResult` produces: everything but `PROCEED`. |
| ConnectionHandle.PerformedWithinOutcomes | src/network/connection_handle.cpp:127-141 | A run performs at most one action per outcome. |
| ConnectionHandle.RunFirstStep | src/network/connection_handle.cpp:127-141 | A run's first action is the one `Delta` gives. Its outcome is admissible, and the rest of the run has admissible outcomes too. |
| ConnectionHandle.WaitsEndRuns | src/network/connection_handle.cpp:88-111 | With admissible outcomes, a wait that returns ends the run: every wait before the last action performed threw. |
| ConnectionHandle.GetResultThenWrite | src/network/connection_handle.cpp:36-46 | With admissible outcomes, a `GetResult` that returns is always followed by `TryWrite`. |
| ConnectionHandle.ReadWaitCompletes | src/network/connection_handle.cpp:89-92 | `NEED_READ` in the read state re-arms the read event and the run completes after that one action, unless it throws. |
| ConnectionHandle.StateMachine.Accept | src/network/connection_handle.cpp:127-141 | Given admissible outcomes, the loop performs exactly the actions of the run the table defines and ends in that run's state. |
| ConnectionHandle.EventTransition | src/network/connection_handle.cpp:166-174 | The transition is `TERMINATE` exactly when the `EV_TIMEOUT` bit is set, and `WAKEUP` otherwise. |
| ConnectionHandle.ConnectionHandle.HandleEvent | src/network/connection_handle.cpp:166-176 | Given admissible outcomes, runs the state machine on the event's transition: `TERMINATE` for a timeout, `WAKEUP` otherwise. |
| ConnectionHandle.CloseResult | src/network/connection_handle.cpp:276-285 | Returns `Close()`'s result unless it is `PROCEED`, and `NONE` then. |
| ConnectionHandle.WriteResult | src/network/connection_handle.cpp:217-252 | `TryWrite` returns `PROCEED` when there is nothing to flush, and the flush's result otherwise. What that result does to the run is stated by `TryWriteSteers`. |
| ConnectionHandle.TryWriteSteers | src/network/connection_handle.cpp:217-252 | Partner of `WriteResult` in a run that performs `TryWrite`. With nothing to flush, or once the flush went through, the machine goes on to `Process` in the processing state, with the rest of the run unchanged. A flush that must wait for the socket performs `WaitForWrite`, and the run completes there. A flush that returns `NONE` completes the run after `TryWrite`. |
| ConnectionHandle.RunStep | src/network/connection_handle.cpp:130-139 | One step of `Accept`: the action `Delta` picks is performed first, and the rest of the run continues from its state on that action's outcome. |
| ConnectionHandle.ConnectionHandle.TryCloseConnection | src/network/connection_handle.cpp:269-286 | Tears down the interpreter once. It unregisters the network and work-pool events only when `Close()` returned `PROCEED`, and returns `CloseResult`. |
| ConnectionHandle.ConnectionHandle.ResetForReuse | src/network/connection_handle.cpp:318-330 | A fresh state machine in `READ`, the new connection id and both events null. |
| MathUtil.AlignTo | src/execution/exec/execution_context.cpp:31-32 | The result is aligned and lies in [value, value + alignment). An already aligned value is kept. |
| MathUtil.AlignToIsLeast | src/execution/exec/execution_context.cpp:31-32 | No aligned offset at or above the value is smaller than `AlignTo`'s. |
| MathUtil.OffsetOf | src/execution/exec/execution_context.cpp:29-34 | Every column's offset is aligned to its type, and the column fits inside the tuple. |
| MathUtil.LayoutPrefixMonotone | src/execution/exec/execution_context.cpp:29-35 | Adding columns never shrinks the tuple size. |
| MathUtil.LayoutCoversSizes | src/execution/exec/execution_context.cpp:29-35 | The tuple size is at least the sum of the column sizes. |
| MathUtil.LayoutOfAlignedIsSum | src/execution/exec/execution_context.cpp:29-35 | When every running size is already aligned, the tuple size is exactly the sum of the sizes. |
| ExecutionContext.ComputeTupleSize | src/execution/exec/execution_context.cpp:27-37 | The loop returns the aligned layout's end. That is at least the sum of the sizes, and equals it when no padding is needed. |
| ExecutionContext.OutputBufferNew | src/execution/exec/execution_context.cpp:15-25 | Returns null exactly when there is no schema. Otherwise the buffer has the schema's column count and tuple size. |
| ExecutionContext.BlockingFeatures | src/execution/exec/execution_context.cpp:139-145 | Exactly the features of the pipeline whose type is blocking. |
| ExecutionContext.ParallelUnits | src/execution/exec/execution_context.cpp:152-168 | Only blocking types have parallel units: at most two, none of them blocking. |
| ExecutionContext.ParallelUnitsCoverBlocking | src/execution/exec/execution_context.cpp:152-168 | A type has no parallel form exactly when it is not blocking or is the top-k sort build. |
| ExecutionContext.FindBlocking | src/execution/exec/execution_context.cpp:136-150 | The scan reports more than one blocking feature, or none, or exactly the one there is. |
| ExecutionContext.BlockingPrefixGrows | src/execution/exec/execution_context.cpp:139-142 | Once the scan has seen two blocking features, the whole pipeline has more than one. So stopping early is sound. |
| ExecutionContext.BuildParallelFeatures | src/execution/exec/execution_context.cpp:152-173 | One copy of the blocking feature per parallel unit, in order, each with the concurrency estimate. |
| ExecutionContext.ExecutionContext.InitHooks | src/execution/exec/execution_context.cpp:191 | After the resize the table has exactly `n` slots. Surviving slots keep their hooks and new slots are null. The capacity never shrinks and is at least `n`. |
| ExecutionContext.ExecutionContext.RegisterHook | src/execution/exec/execution_context.cpp:180-183 | Sets exactly slot `i`, for `i` below the table's size, and leaves the other slots alone. |
| ExecutionContext.ExecutionContext.RegisterHookAsWritten | src/execution/exec/execution_context.cpp:180-183 | With only the capacity guard, the store lands exactly when `i` is below the size. A slot between size and capacity is not in the table. |
| ExecutionContext.ShrunkHooksAdmitMissingSlot | src/execution/exec/execution_context.cpp:180-191 | After `InitHooks(4)` and `InitHooks(2)`, the capacity is at least 4. Slot 3 passes the capacity guard although the table has two slots. |
| ExecutionContext.ExecutionContext.InvokeHook | src/execution/exec/execution_context.cpp:185-189 | Calls the hook with the query state exactly when the index is in range and the slot is non-null; otherwise nothing happens. |
| ExecutionContext.ExecutionContext.InitializeOUFeatureVector | src/execution/exec/execution_context.cpp:116-128 | The vector has the pipeline id and a copy of the pipeline's features, each with the concurrency estimate. |
| ExecutionContext.ExecutionContext.InitializeParallelOUFeatureVector | src/execution/exec/execution_context.cpp:130-174 | Fails with a distinct error exactly when there is more than one blocking feature, or none, or the one has no parallel form. Otherwise it builds that feature's parallel units with the concurrency estimate. |
| StateDescriptor.InsertBySize | src/execution/compiler/state_descriptor.cpp:51-57 | Inserting into a list sorted by non-increasing size keeps it sorted and adds exactly the one slot. |
| StateDescriptor.SortBySize | src/execution/compiler/state_descriptor.cpp:51-57 | The result is sorted by non-increasing type size and is a permutation of the slots. |
| StateDescriptor.StructSize | src/execution/compiler/state_descriptor.cpp:71 | The struct size is a multiple of its alignment and at least the sum of its field sizes. |
| StateDescriptor.StateDescriptor.DeclareStateEntry | src/execution/compiler/state_descriptor.cpp:35-41 | Only before finalisation: appends exactly one slot at the end and returns its entry. |
| StateDescriptor.StateDescriptor.ConstructFinalType | src/execution/compiler/state_descriptor.cpp:43-66 | Once built, later calls return the cached type and leave the slots alone. With reordering the slots become a size-sorted permutation; without it they are unchanged. There is one field per slot, in slot order. |
| StateDescriptor.StateDescriptor.GetSize | src/execution/compiler/state_descriptor.cpp:68-72 | Only after finalisation: the struct's size, at least the sum of its field sizes. |
| NetworkMetric.AggregateCap | src/include/metrics/network_metric.h:28 | The largest number of records that fits in 32768 bytes. |
| NetworkMetric.TransferCount | src/include/metrics/network_metric.h:27-33 | Moves at most what the source holds. A full target gets nothing and a target below the cap never exceeds it. Everything moves when it fits. |
| NetworkMetric.NetworkMetricRawData.Aggregate | src/include/metrics/network_metric.h:25-35 | This becomes its old contents followed by a prefix of the other's, of `TransferCount` length and in order. The other ends empty even when records were dropped. |
| NetworkMetric.NetworkMetricRawData.RecordNetworkData | src/include/metrics/network_metric.h:79-82 | Appends exactly one record at the back. |
| NetworkMetric.NetworkMetricRawData.ToCSV | src/include/metrics/network_metric.h:46-63 | Writes one row per record, in order, and leaves the data empty. |
| PerfMonitor.WrappingSub | src/include/common/perf_monitor.h:81-88 | The `uint64_t` difference: adding the subtrahend back gives the minuend modulo 2^64, with a wrap exactly when it is larger. |
| PerfMonitor.Difference | src/include/common/perf_monitor.h:80-90 | Each of the five counted fields is the wrapping difference and `num_counters_` is the left operand's. |
| PerfMonitor.DifferenceRoundTrip | src/include/common/perf_monitor.h:80-90 | Adding the right operand back to the difference restores the left operand. |
| PerfMonitor.SelfDifferenceIsZero | src/include/common/perf_monitor.h:80-90 | `x - x` has all five counted fields zero and keeps `x`'s `num_counters_`. |
| PerfMonitor.PerfCounters.SubtractAssign | src/include/common/perf_monitor.h:80-90 | `-=` leaves the difference of the old values in place. |
| PerfMonitor.Subtract | src/include/common/perf_monitor.h:98-101 | `-` returns a new object holding the difference and leaves both operands unchanged. |

## Left out

- The mutex, the two condition variables, `notify_one`/`notify_all` and the `yield` loop in `Terminate` are not modelled. The consumer loop is sequential. `Terminate` requires `run_task_` instead of spinning until it is set.
- Producers and the other threads act only between loop iterations. `SubmitUnit`, `RequestForceFlush` and `ApplyTick` stand for the serializer adding units, a forced flush and `Terminate`. How the serializer takes buffers from the empty queue is not modelled.
- The wait result is the wait predicate. A spurious time-out while work is queued is not modelled.
- The disk consumer model assumes a run that is eventually told to stop: the ticks contain a terminating one.
- `high_resolution_clock` readings are inputs (`nowCheck`, `nowPersist`). Durations are integer microseconds.
- Folly tracepoints, the metrics-store checks, `metrics_running_`, `num_bytes`/`num_buffers` and the `mem_factor` float cast are left out. They are an observability side channel.
- `FlushBuffer()` and `Persist()` perform file I/O. The model records them only as events in a ghost trace: a flush writes a buffer's whole content and reports its length.
- DiskLogConsumer.DiskLogConsumerTask.PersistLogFile: the contract does not count `Persist()` calls. `PersistKeepsCoherence` proves the one-`Persist()`-iff-bytes-were-written rule for the trace the body builds.
- DiskLogConsumer.DiskLogConsumerTask.WriteBuffersToLogFile: `current_data_written_` is unbounded; its `uint64_t` wrap-around is not modelled.
- libevent registration, `NetworkIoWrapper`, the protocol interpreter and `UpdateEventFlags` are not modelled. The outcome of each action, a returned transition or a `NetworkProcessException`, is an input to `Accept`. `Admissible` restricts it to what the action's code returns. The four waits return `NONE`, `GetResult` returns `PROCEED` and `TryCloseConnection` never returns `PROCEED`. The results of `Process`, `TryRead` and `TryWrite` come from the interpreter and the socket and are left free. `WriteResult` models how `TryWrite` forms its result from whether there is data to flush and what the flush returned; `TryWriteSteers` follows that result through the run.
- `Accept` is given a finite list of action outcomes. The `OutOfInput` status marks a run whose list ran out before an action returned `NONE`; that status belongs to the model, not to the server.
- An undefined pair throws `std::runtime_error`, which `Accept` does not catch. The model ends the run with status `UndefinedTransition` instead of unwinding.
- The `default` branch of `Delta` over states cannot be reached in Dafny, because the state type is closed.
- `OperatingUnitUtil::IsOperatingUnitTypeBlocking` (src/brain/operating_unit_util.h) is not part of this model. The blocking set is taken to be `HASHJOIN_BUILD`, `SORT_BUILD`, `SORT_TOPK_BUILD`, `AGGREGATE_BUILD` and `CREATE_INDEX`.
- `GetSqlAlignment`/`GetSqlSize` are not part of this model. Each column carries its size and alignment.
- ExecutionContext.ExecutionContext.InitHooks: the capacity after a growing resize is only bounded below by `n`, because `std::vector` leaves the growth factor to the implementation.
- ExecutionContext.ComputeTupleSize: the `uint32_t` truncation of the running size is not modelled.
- ExecutionContext.ExecutionContext.InitializeParallelOUFeatureVector: debug assertions are modelled as error results. The release-build behaviour (the last blocking feature wins, and an empty vector without a blocking feature or for an unsupported type) is not modelled.
- The memory pool, placement `new` and `OutputBuffer`'s callback are not modelled. A buffer is its column count and tuple size.
- The layout rule of `ast::StructType` is not part of this model. `StructSize` assumes C layout: aligned running offsets, rounded up to the largest alignment.
- `std::sort` is not stable. The model sorts by insertion, and its contract states only order and permutation, which is what the source guarantees.
- `CodeGen` identifier generation and field construction are not modelled. Identifiers and type representations are given values.
- `dynamic_cast` in `Aggregate` is not modelled: the other object is a network raw data. `sizeof(NetworkData)` is the parameter `recordSize`.
- NetworkMetric.NetworkMetricRawData.Aggregate: requires `other != this`, so aggregating an object into itself is not modelled. In the source, that case with a non-empty buffer below the cap never ends: each pass moves the front record to the back and the size never changes. At or above the cap, the loop does not run and the final `clear()` empties the buffer.
- `ToCSV` writing to output streams is modelled as appending the records to a list of written rows. The formatting of each row and the file-count assertions are not modelled.

## Findings

| source | as written | input that shows it | evidently intended | confidence | as-written member | corrected member |
|---|---|---|---|---|---|---|
| src/execution/exec/execution_context.cpp:180-182 | `RegisterHook` guards `hook_idx < hooks_.capacity()` but then writes `hooks_[hook_idx]`, an element that exists only below `hooks_.size()` | `InitHooks(4)`, then `InitHooks(2)` (the capacity stays at least 4), then `RegisterHook(3, h)`: the guard holds but slot 3 is past the end of the table | guard `hook_idx < hooks_.size()` | not executed | ExecutionContext.ShrunkHooksAdmitMissingSlot | ExecutionContext.ExecutionContext.RegisterHook |
