# ProfilerManager, modelled in Dafny

This project models the sampling orchestrator of `ml_profiler`: the
`ProfilerManager` class. The manager runs a list of collectors once per tick
and merges their dicts into one sample. It appends the sample to an in-memory
history and streams it to every exporter that has `on_sample`. On `stop` it
hands the whole history to every exporter's `export`. Each collector call and
each exporter call sits inside its own failure boundary.

The model is functional. There is no thread and no clock.

- A collector call on one tick is a `CollectOutcome`: `Returned(map)`, `NotAMap` or `Raised`.
- An exporter is a pair of optional hooks. Each hook is `Missing`, or `Defined`
  with a function saying for which arguments it raises.
- The manager is a `State`: phase `Idle | Running(nextIndex)`, the history,
  and the traces of the `on_sample` and `export` calls made so far.
- `start`, one iteration of the background loop, and `stop` are the
  transitions `Start`, `Tick` and `Stop`. `__enter__`/`__exit__` are `Enter`/`Exit`.
  `Tick` is `Merge` followed by `Advance`, the part of the loop body after
  the sample is collected.
- A run of the loop is `RunTicks`, a fold of `Tick` over a finite sequence of
  per-tick outcome vectors. `Run` folds `Advance` over samples already
  merged, and `RunTicksIsRun` shows the two agree. An arbitrary interleaving
  of calls is `Session.Replay`.

Files, one module each:

- `wrappers.dfy`: `Option`.
- `samples.dfy`: keys, values, samples, and the `collector_errors` and `timestamp` keys.
- `plugins.dfy`: collector outcomes, exporter hooks, call traces, and the
  failure-isolated `Broadcast` that both dispatch loops share.
- `collect.dfy`: `_collect_once`, as `Merge`.
- `manager.dfy`: the lifecycle state machine and the loop.
- `session.dfy`: arbitrary event sequences, and the invariant they keep.

## Model

| member | source | states |
|---|---|---|
| Plugins.Broadcast | ml_profiler/instrumentation/profiler_manager.py:43-49 | the dispatch loop shared by `on_sample` (lines 43-49) and `export` (lines 68-72); no contract of its own, characterised by BroadcastCalls, BroadcastReachesEachOnce and BroadcastIgnoresFailures |
| Plugins.BroadcastCalls | ml_profiler/instrumentation/profiler_manager.py:43-49 | every call made goes to an exporter that has the hook, carries the given argument and records whether that hook raised; calls are in strictly increasing exporter order |
| Plugins.BroadcastReachesEachOnce | ml_profiler/instrumentation/profiler_manager.py:43-49 | each exporter with the hook receives the argument exactly once; an exporter without it receives nothing |
| Plugins.BroadcastIgnoresFailures | ml_profiler/instrumentation/profiler_manager.py:46-49 | two exporter lists that differ only in what their hooks raise get the same calls, in the same order, with the same arguments |
| Collect.Step | ml_profiler/instrumentation/profiler_manager.py:25-34 | one collector's outcome folded into the sample; no contract of its own, characterised through Merge by MergeLastWriterWins, MergeCountsErrors, MergeSkipsNotAMap and MergeIsolatesRaisingCollector |
| Collect.Merge | ml_profiler/instrumentation/profiler_manager.py:22-35 | `_collect_once`; no contract of its own, characterised against the independent LastEmitter and CountRaised by MergeLastWriterWins and MergeCountsErrors, and by MergeSkipsNotAMap, MergeIsolatesRaisingCollector, MergeOfNoDictsIsEmpty and MergeAddsNoTimestamp |
| Collect.LastEmitter | ml_profiler/instrumentation/profiler_manager.py:29-30 | the position of the last collector whose dict holds the key, and no later collector's dict holds it; None exactly when no dict holds it |
| Collect.CountRaised | ml_profiler/instrumentation/profiler_manager.py:31-34 | the count of raising collectors is at most the collector count, and it is positive exactly when some collector raised |
| Collect.MergeLastWriterWins | ml_profiler/instrumentation/profiler_manager.py:23-30 | an ordinary key is in the sample iff some collector's dict holds it, and its value is the one from the last such collector in list order |
| Collect.MergeErrorsPresent | ml_profiler/instrumentation/profiler_manager.py:23-34 | `collector_errors` is in the sample iff a collector raised or a dict carried the key |
| Collect.MergeCountsErrors | ml_profiler/instrumentation/profiler_manager.py:23-34 | `collector_errors` is present iff a collector raised or a dict carried the key; its value is the last carried value (else 0) plus one per collector that raised after that dict |
| Collect.MergeErrorsCountRaised | ml_profiler/instrumentation/profiler_manager.py:31-34 | when no dict carries `collector_errors`, it is present iff some collector raised, and it equals the number of raising collectors |
| Collect.MergeSkipsNotAMap | ml_profiler/instrumentation/profiler_manager.py:26-28 | a collector returning a non-dict changes nothing: the sample equals the merge over the other collectors, and the error counter is not touched |
| Collect.MergeIsolatesRaisingCollector | ml_profiler/instrumentation/profiler_manager.py:25-34 | a raising collector leaves every key other than `collector_errors` as the other collectors make it |
| Collect.MergeOfNoDictsIsEmpty | ml_profiler/instrumentation/profiler_manager.py:22-35 | with no collectors, or only non-dict returns, the sample is the empty map |
| Collect.MergeAddsNoTimestamp | ml_profiler/instrumentation/profiler_manager.py:22-35 | the sample has a `timestamp` iff some collector's dict had one; the manager never writes it |
| ProfilerManager.Start | ml_profiler/instrumentation/profiler_manager.py:53-59 | start while running changes nothing; from idle it runs with index 0; history and traces are kept |
| ProfilerManager.Tick | ml_profiler/instrumentation/profiler_manager.py:39-50 | on an idle manager nothing happens; while running, exactly one sample is appended with the old history a prefix, the stream trace only grows, the index advances by one and no export happens |
| ProfilerManager.Advance | ml_profiler/instrumentation/profiler_manager.py:41-50 | the loop body after collection (append, stream with the index, advance the index); no contract of its own, characterised through Tick by TickStreams, TickIgnoresDispatchFailures and RunTicksWhileRunning, and over many samples by RunWhileRunning and RunStreams |
| ProfilerManager.Stop | ml_profiler/instrumentation/profiler_manager.py:61-72 | stop while idle changes nothing; afterwards the manager is idle, history and stream trace are unchanged, and export calls are only appended |
| ProfilerManager.Enter | ml_profiler/instrumentation/profiler_manager.py:75-77 | `__enter__` is `start`: a no-op on a running manager, otherwise running at index 0; history and both traces kept |
| ProfilerManager.Exit | ml_profiler/instrumentation/profiler_manager.py:79-80 | leaving the `with` block always stops: idle afterwards, a no-op when already idle, history and stream trace kept, export calls only appended; the block's exception is never suppressed |
| ProfilerManager.TickIgnoresDispatchFailures | ml_profiler/instrumentation/profiler_manager.py:41-50 | a failing `on_sample` changes nothing: for two exporter lists with the same hooks present, a tick gives the same phase, history and export trace, and the same `on_sample` calls with the same arguments, whatever the hooks raise |
| ProfilerManager.RunTicks | ml_profiler/instrumentation/profiler_manager.py:37-51 | k iterations of `_loop` as a fold of Tick; no contract of its own, characterised by RunTicksWhileIdle, RunTicksWhileRunning, RunTicksStreamsEachSample and RunTicksStreamOrder |
| ProfilerManager.Run | ml_profiler/instrumentation/profiler_manager.py:41-50 | the loop body folded over already merged samples; no contract of its own, characterised by RunWhileRunning and RunStreams, and tied to RunTicks by RunTicksIsRun |
| ProfilerManager.RunTicksIsRun | ml_profiler/instrumentation/profiler_manager.py:39-50 | running the loop over ticks is the same as merging every tick first and running the loop body over the samples |
| ProfilerManager.RunTicksWhileIdle | ml_profiler/instrumentation/profiler_manager.py:37-39 | no loop runs on an idle manager: any number of ticks leaves it unchanged |
| ProfilerManager.RunWhileRunning | ml_profiler/instrumentation/profiler_manager.py:41-50 | the loop body over k samples appends exactly those samples, advances the index by k and exports nothing |
| ProfilerManager.RunStreams | ml_profiler/instrumentation/profiler_manager.py:41-50 | the loop body over k samples appends to the stream trace one broadcast per sample, in sample order, numbered from the loop's index |
| ProfilerManager.RunTicksWhileRunning | ml_profiler/instrumentation/profiler_manager.py:37-50 | k ticks append exactly the k merged samples in tick order, advance the index by k and export nothing |
| ProfilerManager.TickStreams | ml_profiler/instrumentation/profiler_manager.py:40-49 | one tick delivers its sample with the current index exactly once to each exporter with `on_sample` and to no other |
| ProfilerManager.DeliveriesReachEachHook | ml_profiler/instrumentation/profiler_manager.py:43-50 | over consecutive samples, each exporter with `on_sample` receives every sample once, in order, with consecutive indices; others receive nothing |
| ProfilerManager.RunTicksStreamsEachSample | ml_profiler/instrumentation/profiler_manager.py:37-50 | over k ticks each exporter with `on_sample` receives the k samples in order with consecutive indices from the loop's index; others receive nothing |
| ProfilerManager.TickOrderedAppend | ml_profiler/instrumentation/profiler_manager.py:43-50 | appending one tick's calls, in exporter order, to an ordered stretch of earlier ticks keeps it ordered by (index, exporter) |
| ProfilerManager.DeliveriesOrdered | ml_profiler/instrumentation/profiler_manager.py:43-50 | the streaming calls for consecutive samples are ordered by index and, for one sample, by exporter position |
| ProfilerManager.RunTicksStreamOrder | ml_profiler/instrumentation/profiler_manager.py:39-50 | the loop's `on_sample` calls are ordered by tick index and, within a tick, by exporter position; earlier calls are untouched |
| ProfilerManager.StopFlushesHistory | ml_profiler/instrumentation/profiler_manager.py:68-72 | stopping a running manager gives each exporter with `export` exactly one call with the full history; exporters without it get none |
| ProfilerManager.ExitFlushes | ml_profiler/instrumentation/profiler_manager.py:79-80 | leaving a `with` block on a running manager, whether or not the block raised, gives each exporter with `export` the full history exactly once and makes no `on_sample` call |
| ProfilerManager.StopFlushOrder | ml_profiler/instrumentation/profiler_manager.py:68-72 | the export calls of one stop go out in exporter-list order, each with the full history |
| ProfilerManager.RunThenStop | ml_profiler/instrumentation/profiler_manager.py:37-72 | a run of k ticks ended by stop leaves the manager idle with the k samples appended; streaming exporters got them numbered from the loop's index, then each `export` got the whole history once |
| ProfilerManager.ScopedRun | ml_profiler/instrumentation/profiler_manager.py:75-80 | a `with` block over a new manager yields one sample per tick; streaming exporters see index k with `history[k]`; each `export` gets the full history once; the block's exception propagates |
| ProfilerManager.FirstRunSpelledOut | ml_profiler/instrumentation/profiler_manager.py:53-72 | start, k ticks and stop on a new manager: idle, the k samples as history, streamed numbered from 0, each `export` given that history once |
| ProfilerManager.RestartKeepsHistory | ml_profiler/instrumentation/profiler_manager.py:37-72 | after stop and a second start, the history keeps the first run's samples, and the second stop exports both runs' samples, after the first stop's export |
| ProfilerManager.RestartRestartsIndex | ml_profiler/instrumentation/profiler_manager.py:37-59 | after a restart the stream index starts again at 0: a streaming exporter sees both runs numbered from 0 |
| ProfilerManager.LifecycleIdempotent | ml_profiler/instrumentation/profiler_manager.py:53-63 | a second `start` or a second `stop` in a row is a no-op |
| Session.ApplyKeepsConsistent | ml_profiler/instrumentation/profiler_manager.py:37-72 | every transition keeps the invariant, only appends to history and traces, and only `stop` makes export calls |
| Session.ReplayKeepsConsistent | ml_profiler/instrumentation/profiler_manager.py:37-72 | any sequence of start/tick/stop keeps the invariant and only appends to history and traces |
| Session.SessionStreamsMatchHistory | ml_profiler/instrumentation/profiler_manager.py:37-59 | for any interleaving of start, ticks and stop from a new manager, across restarts, each exporter with `on_sample` has received exactly the history's samples in history order; any other exporter none |
| Session.SessionsAreConsistent | ml_profiler/instrumentation/profiler_manager.py:14-20 | from a new manager, every reachable state has index <= history length, export arguments that are prefixes of the history, and only history samples streamed |

## Behaviour of the code worth knowing

- A collector that returns a non-dict is skipped silently. It does not
  increment `collector_errors` (`profiler_manager.py:27-28`).
- The manager never adds a `timestamp`. A sample has one only if a collector
  supplied it, so with zero collectors the sample is the empty map
  (`profiler_manager.py:23,35`).
- The tick index is local to `_loop`, so it restarts at 0 on every `start`.
  The history is never cleared. So once an earlier run has produced at least
  one sample, the index passed to `on_sample` after a restart is not the
  sample's position in the history (`ProfilerManager.RestartRestartsIndex`).
- The two hooks are looked up differently. `on_sample` is fetched with
  `getattr(e, "on_sample", None)` outside the failure boundary
  (`profiler_manager.py:44`), so only a missing attribute is tolerated
  there. `export` is fetched inside the boundary (`profiler_manager.py:69-72`),
  so any failure to fetch it is swallowed.
- `stop` calls `export` on every exporter without checking that it exists
  (`profiler_manager.py:68-72`). For an exporter without a callable `export`
  the call raises inside the failure boundary and delivers nothing, so the
  model records no call for it, as for a missing `on_sample`.
- The `collector_errors` counter can be seeded by a collector that returns
  that key: a later raising collector adds one to the returned value
  (`Collect.MergeCountsErrors`).

## Left out

- Threading: the daemon thread, `thread.join` and the `running` flag read
  across threads are not modelled. Ticks are the transitions between `Start`
  and `Stop`. "No sample after stop returns" is the model's boundary, not a
  proof about concurrency.
- The `time.sleep(interval)` pacing and the `interval` parameter: they affect
  only how many ticks happen, and the core never validates the interval.
- Timestamps and their monotonicity: they come from collectors' `time.time()` calls, not from the manager.
- The concrete collectors and exporters, the command-line entry point, logging and the example scripts.
  They are I/O wrappers around psutil, NVML, torch, files, TensorBoard and HTTP.
- Metric values are exact `real`s. Float rounding of the `+= 1` on a huge
  counter is not modelled.
- A collector that returns a non-numeric `collector_errors` is not modelled.
  In the code, a later raising collector's `+= 1` would then raise inside the
  handler and end the loop.
- Exceptions that are not `Exception` subclasses, such as `KeyboardInterrupt`,
  are not modelled. They escape the failure boundaries.
- Exporters that mutate the sample dict or the history list they are handed are not modelled.
  In the code, that would alter the shared history.
- ProfilerManager.RestartKeepsHistory: the model records each `export`
  argument as a value, the history at the time of the call. In the code,
  `e.export(self.data)` (`profiler_manager.py:70`) hands over the live list,
  and after a restart the manager keeps appending to it. An exporter that
  keeps the reference from the first stop later sees both runs in it.
- Hooks that appear or disappear during a session: the code looks
  `on_sample` up again on every tick (`profiler_manager.py:44`) and `export`
  on every stop (`profiler_manager.py:70`). The model fixes for the whole
  session whether each exporter has each hook (`Plugins.Exporter`).
- Plugins.BroadcastReachesEachOnce, ProfilerManager.TickStreams: an
  `on_sample` lookup that raises something other than `AttributeError`
  (a property that raises, say) is not modelled. In the code the lookup at
  `profiler_manager.py:44` sits outside the `try`, so such an exception ends
  `_loop` after the sample is appended. Later exporters miss that sample, no
  further tick happens, and `running` stays true. The model treats an
  `on_sample` hook as either missing or callable.
- Stateful exporters: whether a hook raises is a function of its arguments
  only. This is enough, because a raise never changes what the manager does.
- The return value of `start()` (`self`, or `None` when already running) is not modelled.
- Dict key order within a sample is not modelled. Samples are maps.
