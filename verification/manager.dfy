/**
  The profiler manager's lifecycle as a state machine. `start` moves Idle to
  Running with a fresh tick index 0; every tick of the background loop
  merges the collectors' outcomes, appends the sample to the history and
  streams it to every exporter's `on_sample`; `stop` moves Running to Idle and
  flushes the whole history to every exporter's `export`. The exporter list is
  fixed at construction and passed to each transition.

  The background thread is abstracted away: the loop's iterations are the
  `Tick` transitions that happen between a `Start` and the next `Stop`, and a
  `Tick` on an Idle manager (no thread) changes nothing.
 */
module ProfilerManager {
  import opened Samples
  import opened Plugins
  import opened Collect

  /** Idle, or Running with the index the loop will pass with its next sample. */
  datatype Phase = Idle | Running(nextIndex: nat)

  /**
    The manager's state: its phase, the accumulated history, and the traces of
    the `on_sample` and `export` calls it has made so far.
   */
  datatype State = State(
    phase: Phase,
    history: seq<Sample>,
    streamed: seq<Call<Delivery>>,
    exported: seq<Call<seq<Sample>>>)

  /** A newly constructed manager: not running, empty history, no calls made. */
  const Fresh: State := State(Idle, [], [], [])

  /** `start`: a no-op while running; otherwise begin a loop whose index starts at 0. */
  function Start(s: State): (r: State)
    ensures r.phase.Running?
    ensures s.phase.Running? ==> r == s
    ensures s.phase.Idle? ==> r.phase.nextIndex == 0
    ensures r.history == s.history && r.streamed == s.streamed && r.exported == s.exported
  {
    if s.phase.Running? then s else s.(phase := Running(0))
  }

  /**
    The loop body once the sample is collected: append it to the history,
    stream it with the loop's current index to every exporter in list order,
    and advance the index. Without a running loop nothing happens.
   */
  function Advance(exporters: seq<Exporter>, s: State, sample: Sample): State
  {
    match s.phase
    case Idle => s
    case Running(idx) =>
      var d: Delivery := (sample, idx);
      State(Running(idx + 1), s.history + [sample], s.streamed + Broadcast(StreamHooks(exporters), d), s.exported)
  }

  /**
    One iteration of the background loop, given what each collector's
    `collect()` did: merge, then append, stream and advance.
   */
  function Tick(exporters: seq<Exporter>, s: State, outcomes: seq<CollectOutcome>): (r: State)
    ensures s.phase.Idle? ==> r == s
    ensures s.phase.Running? ==>
              && r.phase == Running(s.phase.nextIndex + 1)
              && |r.history| == |s.history| + 1
              && s.history <= r.history
              && s.streamed <= r.streamed
              && r.exported == s.exported
  {
    Advance(exporters, s, Merge(outcomes))
  }

  /** `stop`: a no-op while idle; otherwise go idle, then hand the full history to every `export`. */
  function Stop(exporters: seq<Exporter>, s: State): (r: State)
    ensures r.phase.Idle?
    ensures s.phase.Idle? ==> r == s
    ensures r.history == s.history && r.streamed == s.streamed
    ensures s.exported <= r.exported
  {
    match s.phase
    case Idle => s
    case Running(_) =>
      State(Idle, s.history, s.streamed, s.exported + Broadcast(ExportHooks(exporters), s.history))
  }

  /** `__enter__`: exactly `start`, so a no-op while running and a fresh index 0 otherwise. */
  function Enter(s: State): (r: State)
    ensures r.phase.Running?
    ensures s.phase.Running? ==> r == s
    ensures s.phase.Idle? ==> r.phase == Running(0)
    ensures r.history == s.history && r.streamed == s.streamed && r.exported == s.exported
  {
    Start(s)
  }

  /**
    `__exit__`: stop, on every way out of the `with` block. It returns
    nothing, so an exception raised by the block is never suppressed; the
    second component says whether the block's exception propagates.
   */
  function Exit(exporters: seq<Exporter>, s: State, bodyRaised: bool): (r: (State, bool))
    ensures r.0.phase.Idle?
    ensures s.phase.Idle? ==> r.0 == s
    ensures r.0.history == s.history && r.0.streamed == s.streamed
    ensures s.exported <= r.0.exported
    ensures r.1 == bodyRaised
  {
    (Stop(exporters, s), bodyRaised)
  }

  /** The loop running for a number of ticks, each given by its collectors' outcomes. */
  function RunTicks(exporters: seq<Exporter>, s: State, ticks: seq<seq<CollectOutcome>>): State
  {
    if |ticks| == 0 then s
    else Tick(exporters, RunTicks(exporters, s, ticks[..|ticks| - 1]), ticks[|ticks| - 1])
  }

  /** The loop running over samples already collected: `Advance` once per sample. */
  function Run(exporters: seq<Exporter>, s: State, samples: seq<Sample>): State
  {
    if |samples| == 0 then s
    else Advance(exporters, Run(exporters, s, samples[..|samples| - 1]), samples[|samples| - 1])
  }

  /** The samples a sequence of ticks produces, one merge per tick. */
  function SamplesOf(ticks: seq<seq<CollectOutcome>>): seq<Sample>
  {
    seq(|ticks|, t requires 0 <= t < |ticks| => Merge(ticks[t]))
  }

  /** Samples paired with consecutive indices from `first` on: what a streaming exporter sees. */
  function Numbered(samples: seq<Sample>, first: nat): seq<Delivery>
  {
    seq(|samples|, t requires 0 <= t < |samples| => (samples[t], first + t))
  }

  /**
    The `on_sample` calls a running loop makes while it streams `samples`,
    numbered from `first` on: one broadcast per sample, in order.
   */
  function Deliveries(hooks: seq<Hook<Delivery>>, samples: seq<Sample>, first: nat): seq<Call<Delivery>>
  {
    if |samples| == 0 then []
    else
      var n := |samples| - 1;
      var d: Delivery := (samples[n], first + n);
      Deliveries(hooks, samples[..n], first) + Broadcast(hooks, d)
  }

  lemma SamplesOfPrefix(ticks: seq<seq<CollectOutcome>>)
    requires |ticks| > 0
    ensures |SamplesOf(ticks)| == |ticks|
    ensures SamplesOf(ticks)[..|ticks| - 1] == SamplesOf(ticks[..|ticks| - 1])
    ensures SamplesOf(ticks)[|ticks| - 1] == Merge(ticks[|ticks| - 1])
  {
  }

  lemma NumberedSnoc(samples: seq<Sample>, sample: Sample, first: nat)
    ensures Numbered(samples + [sample], first) == Numbered(samples, first) + [(sample, first + |samples|)]
  {
  }

  /** Solver hint: associativity of `+`, stated once so that call sites stay small. */
  lemma AppendAssoc<T>(a: seq<T>, b: seq<T>, c: seq<T>)
    ensures a + b + c == a + (b + c)
  {
  }

  /** Solver hint: chains two appends; it keeps the streaming step's proof obligation small. */
  lemma ChainAppend<T>(got: seq<T>, mid: seq<T>, base: seq<T>, prev: seq<T>, calls: seq<T>, all: seq<T>)
    requires mid == base + prev
    requires got == mid + calls
    requires all == prev + calls
    ensures got == base + all
  {
  }

  lemma DeliveriesLast(hooks: seq<Hook<Delivery>>, samples: seq<Sample>, first: nat, d: Delivery)
    requires |samples| > 0
    requires d == (samples[|samples| - 1], first + |samples| - 1)
    ensures Deliveries(hooks, samples, first) == Deliveries(hooks, samples[..|samples| - 1], first) + Broadcast(hooks, d)
  {
  }

  /** The last step of a run over samples: its stream calls, in terms of the run before it. */
  lemma RunStep(exporters: seq<Exporter>, s: State, samples: seq<Sample>, idx: nat, d: Delivery)
    requires |samples| > 0
    requires Run(exporters, s, samples[..|samples| - 1]).phase == Running(idx)
    requires d == (samples[|samples| - 1], idx)
    ensures Run(exporters, s, samples).streamed ==
              Run(exporters, s, samples[..|samples| - 1]).streamed + Broadcast(StreamHooks(exporters), d)
  {
  }

  /** Running the ticks is running their merged samples: collection and dispatch do not interact. */
  lemma {:induction false} RunTicksIsRun(exporters: seq<Exporter>, s: State, ticks: seq<seq<CollectOutcome>>)
    ensures RunTicks(exporters, s, ticks) == Run(exporters, s, SamplesOf(ticks))
  {
    if |ticks| > 0 {
      var n := |ticks| - 1;
      RunTicksIsRun(exporters, s, ticks[..n]);
      SamplesOfPrefix(ticks);
    }
  }

  /** No background loop runs on an idle manager: ticks change nothing. */
  lemma {:induction false} RunTicksWhileIdle(exporters: seq<Exporter>, s: State, ticks: seq<seq<CollectOutcome>>)
    requires s.phase.Idle?
    ensures RunTicks(exporters, s, ticks) == s
  {
    if |ticks| > 0 {
      RunTicksWhileIdle(exporters, s, ticks[..|ticks| - 1]);
    }
  }

  /** Helper: one tick of a running loop, spelled out. */
  lemma TickWhileRunning(exporters: seq<Exporter>, s: State, outcomes: seq<CollectOutcome>)
    requires s.phase.Running?
    ensures Tick(exporters, s, outcomes).history == s.history + [Merge(outcomes)]
    ensures Tick(exporters, s, outcomes).streamed ==
              s.streamed + Broadcast(StreamHooks(exporters), (Merge(outcomes), s.phase.nextIndex))
  {
  }

  /**
    A failing `on_sample` changes nothing in the manager: two exporter lists
    that agree on which exporters have the hook give the same phase, history
    and export trace after a tick, and the same `on_sample` calls with the
    same arguments, whatever the hooks raise.
   */
  lemma TickIgnoresDispatchFailures(exporters: seq<Exporter>, exporters': seq<Exporter>, s: State, outcomes: seq<CollectOutcome>)
    requires |exporters| == |exporters'|
    requires forall j :: 0 <= j < |exporters| ==> (Streams(exporters, j) <==> Streams(exporters', j))
    ensures Tick(exporters, s, outcomes).phase == Tick(exporters', s, outcomes).phase
    ensures Tick(exporters, s, outcomes).history == Tick(exporters', s, outcomes).history
    ensures Tick(exporters, s, outcomes).exported == Tick(exporters', s, outcomes).exported
    ensures |Tick(exporters, s, outcomes).streamed| == |Tick(exporters', s, outcomes).streamed|
    ensures forall i :: 0 <= i < |Tick(exporters, s, outcomes).streamed| ==>
              && Tick(exporters, s, outcomes).streamed[i].target == Tick(exporters', s, outcomes).streamed[i].target
              && Tick(exporters, s, outcomes).streamed[i].arg == Tick(exporters', s, outcomes).streamed[i].arg
  {
    if s.phase.Running? {
      var d: Delivery := (Merge(outcomes), s.phase.nextIndex);
      var calls := Broadcast(StreamHooks(exporters), d);
      var calls' := Broadcast(StreamHooks(exporters'), d);
      forall j | 0 <= j < |exporters|
        ensures StreamHooks(exporters)[j].Defined? <==> StreamHooks(exporters')[j].Defined?
      {
        assert Streams(exporters, j) <==> Streams(exporters', j);
      }
      BroadcastIgnoresFailures(StreamHooks(exporters), StreamHooks(exporters'), d);
      TickWhileRunning(exporters, s, outcomes);
      TickWhileRunning(exporters', s, outcomes);
      forall i | 0 <= i < |Tick(exporters, s, outcomes).streamed|
        ensures && Tick(exporters, s, outcomes).streamed[i].target == Tick(exporters', s, outcomes).streamed[i].target
                && Tick(exporters, s, outcomes).streamed[i].arg == Tick(exporters', s, outcomes).streamed[i].arg
      {
        if i >= |s.streamed| {
          assert Tick(exporters, s, outcomes).streamed[i] == calls[i - |s.streamed|];
          assert Tick(exporters', s, outcomes).streamed[i] == calls'[i - |s.streamed|];
        }
      }
    }
  }

  /**
    The loop over collected samples: the history gains exactly those samples,
    the index advances by their number, and nothing is exported.
   */
  lemma {:induction false} RunWhileRunning(exporters: seq<Exporter>, s: State, samples: seq<Sample>)
    requires s.phase.Running?
    ensures Run(exporters, s, samples).phase == Running(s.phase.nextIndex + |samples|)
    ensures Run(exporters, s, samples).history == s.history + samples
    ensures Run(exporters, s, samples).exported == s.exported
  {
    if |samples| > 0 {
      var n := |samples| - 1;
      RunWhileRunning(exporters, s, samples[..n]);
      assert samples == samples[..n] + [samples[n]];
      AppendAssoc(s.history, samples[..n], [samples[n]]);
    } else {
      assert s.history + samples == s.history;
    }
  }

  /** The loop over collected samples streams one broadcast per sample, in order, after what was streamed before. */
  lemma {:induction false} RunStreams(exporters: seq<Exporter>, s: State, samples: seq<Sample>)
    requires s.phase.Running?
    ensures Run(exporters, s, samples).streamed == s.streamed + Deliveries(StreamHooks(exporters), samples, s.phase.nextIndex)
  {
    if |samples| > 0 {
      var n := |samples| - 1;
      RunStreams(exporters, s, samples[..n]);
      RunWhileRunning(exporters, s, samples[..n]);
      RunStreamsStep(exporters, s, samples);
    } else {
      assert s.streamed + Deliveries(StreamHooks(exporters), samples, s.phase.nextIndex) == s.streamed;
    }
  }

  /** The inductive step of `RunStreams`: one more sample extends both sides by the same broadcast. */
  lemma RunStreamsStep(exporters: seq<Exporter>, s: State, samples: seq<Sample>)
    requires s.phase.Running?
    requires |samples| > 0
    requires Run(exporters, s, samples[..|samples| - 1]).phase == Running(s.phase.nextIndex + |samples| - 1)
    requires Run(exporters, s, samples[..|samples| - 1]).streamed ==
               s.streamed + Deliveries(StreamHooks(exporters), samples[..|samples| - 1], s.phase.nextIndex)
    ensures Run(exporters, s, samples).streamed == s.streamed + Deliveries(StreamHooks(exporters), samples, s.phase.nextIndex)
  {
    var n := |samples| - 1;
    var hooks := StreamHooks(exporters);
    var d: Delivery := (samples[n], s.phase.nextIndex + n);
    var prev := Deliveries(hooks, samples[..n], s.phase.nextIndex);
    var calls := Broadcast(hooks, d);
    RunStep(exporters, s, samples, s.phase.nextIndex + n, d);
    DeliveriesLast(hooks, samples, s.phase.nextIndex, d);
    ChainAppend(Run(exporters, s, samples).streamed, Run(exporters, s, samples[..n]).streamed, s.streamed, prev, calls,
                Deliveries(hooks, samples, s.phase.nextIndex));
  }

  /**
    A running loop: k ticks append exactly the k merged samples in tick
    order, advance the index by k, and export nothing.
   */
  lemma RunTicksWhileRunning(exporters: seq<Exporter>, s: State, ticks: seq<seq<CollectOutcome>>)
    requires s.phase.Running?
    ensures RunTicks(exporters, s, ticks).phase == Running(s.phase.nextIndex + |ticks|)
    ensures RunTicks(exporters, s, ticks).history == s.history + SamplesOf(ticks)
    ensures RunTicks(exporters, s, ticks).exported == s.exported
  {
    RunTicksIsRun(exporters, s, ticks);
    RunWhileRunning(exporters, s, SamplesOf(ticks));
  }

  /** One tick streams its sample, with the loop's current index, once to each exporter with `on_sample`. */
  lemma TickStreams(exporters: seq<Exporter>, s: State, outcomes: seq<CollectOutcome>, j: nat)
    requires s.phase.Running?
    ensures Received(Tick(exporters, s, outcomes).streamed, j) ==
              Received(s.streamed, j) +
              (if Streams(exporters, j) then [(Merge(outcomes), s.phase.nextIndex)] else [])
  {
    var d: Delivery := (Merge(outcomes), s.phase.nextIndex);
    var calls := Broadcast(StreamHooks(exporters), d);
    TickWhileRunning(exporters, s, outcomes);
    ReceivedAppend(s.streamed, calls, j);
    BroadcastReachesEachOnce(StreamHooks(exporters), d, j);
  }

  /** Each defined hook receives every sample once, numbered consecutively from `first`; a missing one receives nothing. */
  lemma {:induction false} DeliveriesReachEachHook(hooks: seq<Hook<Delivery>>, samples: seq<Sample>, first: nat, j: nat)
    ensures Received(Deliveries(hooks, samples, first), j) ==
              if j < |hooks| && hooks[j].Defined? then Numbered(samples, first) else []
  {
    if |samples| > 0 {
      var n := |samples| - 1;
      var d: Delivery := (samples[n], first + n);
      var earlier := Deliveries(hooks, samples[..n], first);
      var calls := Broadcast(hooks, d);
      var reached := j < |hooks| && hooks[j].Defined?;
      DeliveriesLast(hooks, samples, first, d);
      assert Received(earlier, j) == if reached then Numbered(samples[..n], first) else [] by {
        DeliveriesReachEachHook(hooks, samples[..n], first, j);
      }
      assert Received(calls, j) == if reached then [d] else [] by {
        BroadcastReachesEachOnce(hooks, d, j);
      }
      assert Numbered(samples, first) == Numbered(samples[..n], first) + [d] by {
        assert samples == samples[..n] + [samples[n]];
        NumberedSnoc(samples[..n], samples[n], first);
      }
      ReceivedAppend(earlier, calls, j);
    } else {
      assert Numbered(samples, first) == [];
    }
  }

  /**
    Streaming while running: every exporter with `on_sample` receives each
    new sample exactly once, in tick order, with consecutive indices
    continuing from the one the loop was at; an exporter without `on_sample`
    receives nothing.
   */
  lemma RunTicksStreamsEachSample(exporters: seq<Exporter>, s: State, ticks: seq<seq<CollectOutcome>>, j: nat)
    requires s.phase.Running?
    ensures Received(RunTicks(exporters, s, ticks).streamed, j) ==
              Received(s.streamed, j) +
              (if Streams(exporters, j) then Numbered(SamplesOf(ticks), s.phase.nextIndex) else [])
  {
    var hooks := StreamHooks(exporters);
    RunTicksIsRun(exporters, s, ticks);
    RunStreams(exporters, s, SamplesOf(ticks));
    ReceivedAppend(s.streamed, Deliveries(hooks, SamplesOf(ticks), s.phase.nextIndex), j);
    DeliveriesReachEachHook(hooks, SamplesOf(ticks), s.phase.nextIndex, j);
  }

  /**
    A stretch of `on_sample` calls ordered by tick index and, within one
    tick, by exporter position, with every index in `[lo, hi)`.
   */
  predicate TickOrdered(calls: seq<Call<Delivery>>, lo: nat, hi: nat)
  {
    && (forall i :: 0 <= i < |calls| ==> lo <= calls[i].arg.1 < hi)
    && (forall i, i' :: 0 <= i < i' < |calls| ==>
          || calls[i].arg.1 < calls[i'].arg.1
          || (calls[i].arg.1 == calls[i'].arg.1 && calls[i].target < calls[i'].target))
  }

  lemma TickOrderedAppend(before: seq<Call<Delivery>>, calls: seq<Call<Delivery>>, lo: nat, idx: nat)
    requires TickOrdered(before, lo, idx)
    requires lo <= idx
    requires forall i :: 0 <= i < |calls| ==> calls[i].arg.1 == idx
    requires forall i, i' :: 0 <= i < i' < |calls| ==> calls[i].target < calls[i'].target
    ensures TickOrdered(before + calls, lo, idx + 1)
  {
    var all := before + calls;
    forall i, i' | 0 <= i < i' < |all|
      ensures || all[i].arg.1 < all[i'].arg.1
              || (all[i].arg.1 == all[i'].arg.1 && all[i].target < all[i'].target)
    {
      if i' >= |before| && i >= |before| {
        assert all[i] == calls[i - |before|] && all[i'] == calls[i' - |before|];
      } else if i' >= |before| {
        assert all[i] == before[i] && all[i'] == calls[i' - |before|];
      }
    }
  }

  /** The calls for consecutive samples are ordered by index, and for one sample by hook position. */
  lemma {:induction false} DeliveriesOrdered(hooks: seq<Hook<Delivery>>, samples: seq<Sample>, first: nat)
    ensures TickOrdered(Deliveries(hooks, samples, first), first, first + |samples|)
  {
    if |samples| > 0 {
      var n := |samples| - 1;
      var d: Delivery := (samples[n], first + n);
      DeliveriesOrdered(hooks, samples[..n], first);
      BroadcastCalls(hooks, d);
      TickOrderedAppend(Deliveries(hooks, samples[..n], first), Broadcast(hooks, d), first, first + n);
    }
  }

  /**
    Dispatch for one tick completes before the next tick begins: the calls a
    running loop makes are ordered by tick index, and within a tick by
    exporter position, with indices from the loop's current one on.
   */
  lemma RunTicksStreamOrder(exporters: seq<Exporter>, s: State, ticks: seq<seq<CollectOutcome>>)
    requires s.phase.Running?
    ensures |RunTicks(exporters, s, ticks).streamed| >= |s.streamed|
    ensures RunTicks(exporters, s, ticks).streamed[..|s.streamed|] == s.streamed
    ensures TickOrdered(RunTicks(exporters, s, ticks).streamed[|s.streamed|..],
                        s.phase.nextIndex, s.phase.nextIndex + |ticks|)
  {
    var calls := Deliveries(StreamHooks(exporters), SamplesOf(ticks), s.phase.nextIndex);
    RunTicksIsRun(exporters, s, ticks);
    RunStreams(exporters, s, SamplesOf(ticks));
    DeliveriesOrdered(StreamHooks(exporters), SamplesOf(ticks), s.phase.nextIndex);
    assert (s.streamed + calls)[..|s.streamed|] == s.streamed;
    assert (s.streamed + calls)[|s.streamed|..] == calls;
  }

  /**
    Shutdown flush: stopping a running manager makes exactly one `export`
    call to each exporter that has one, with the full history, whatever the
    other exporters raised; an exporter without `export` gets no call.
   */
  lemma StopFlushesHistory(exporters: seq<Exporter>, s: State, j: nat)
    requires s.phase.Running?
    ensures Received(Stop(exporters, s).exported, j) ==
              Received(s.exported, j) + (if Flushes(exporters, j) then [s.history] else [])
  {
    var calls := Broadcast(ExportHooks(exporters), s.history);
    assert Stop(exporters, s).exported == s.exported + calls;
    ReceivedAppend(s.exported, calls, j);
    BroadcastReachesEachOnce(ExportHooks(exporters), s.history, j);
  }

  /**
    Leaving a `with` block on a running manager performs the shutdown flush,
    whether or not the block raised: each exporter with `export` receives the
    full history exactly once, and no `on_sample` call is made.
   */
  lemma ExitFlushes(exporters: seq<Exporter>, s: State, bodyRaised: bool, j: nat)
    requires s.phase.Running?
    ensures Received(Exit(exporters, s, bodyRaised).0.exported, j) ==
              Received(s.exported, j) + (if Flushes(exporters, j) then [s.history] else [])
    ensures Exit(exporters, s, bodyRaised).0.streamed == s.streamed
  {
    StopFlushesHistory(exporters, s, j);
  }

  /** The `export` calls of one stop go out in exporter-list order, each with the full history. */
  lemma StopFlushOrder(exporters: seq<Exporter>, s: State)
    requires s.phase.Running?
    ensures var calls := Stop(exporters, s).exported[|s.exported|..];
            && (forall i :: 0 <= i < |calls| ==> Flushes(exporters, calls[i].target) && calls[i].arg == s.history)
            && (forall i, i' :: 0 <= i < i' < |calls| ==> calls[i].target < calls[i'].target)
  {
    BroadcastCalls(ExportHooks(exporters), s.history);
    assert Stop(exporters, s).exported[|s.exported|..] == Broadcast(ExportHooks(exporters), s.history);
  }

  /**
    A run of the loop ended by `stop`: the history gains one sample per tick,
    each exporter with `on_sample` receives them numbered from the loop's
    index, and each exporter with `export` then receives the whole history once.
   */
  lemma RunThenStop(exporters: seq<Exporter>, s: State, ticks: seq<seq<CollectOutcome>>, j: nat)
    requires s.phase.Running?
    ensures var r := Stop(exporters, RunTicks(exporters, s, ticks));
            && r.phase.Idle?
            && r.history == s.history + SamplesOf(ticks)
            && Received(r.streamed, j) ==
                 Received(s.streamed, j) +
                 (if Streams(exporters, j) then Numbered(SamplesOf(ticks), s.phase.nextIndex) else [])
            && Received(r.exported, j) == Received(s.exported, j) + (if Flushes(exporters, j) then [r.history] else [])
  {
    var running := RunTicks(exporters, s, ticks);
    RunTicksWhileRunning(exporters, s, ticks);
    RunTicksStreamsEachSample(exporters, s, ticks, j);
    StopFlushesHistory(exporters, running, j);
  }

  /**
    The scoped form `with ProfilerManager(...)` on a new manager: entering
    starts it, the body lasts some number of ticks, and leaving stops it
    whether or not the body raised. The history holds one sample per tick; a
    streaming exporter saw indices 0, 1, 2, ... with `history[k]` passed with
    index k; every exporter with `export` got the full history exactly once;
    and the body's exception, if any, propagates.
   */
  lemma ScopedRun(exporters: seq<Exporter>, ticks: seq<seq<CollectOutcome>>, bodyRaised: bool, j: nat)
    ensures var (r, propagates) := Exit(exporters, RunTicks(exporters, Enter(Fresh), ticks), bodyRaised);
            && r.phase.Idle?
            && propagates == bodyRaised
            && r.history == SamplesOf(ticks)
            && Received(r.streamed, j) == (if Streams(exporters, j) then Numbered(r.history, 0) else [])
            && Received(r.exported, j) == (if Flushes(exporters, j) then [r.history] else [])
  {
    assert Enter(Fresh) == State(Running(0), [], [], []);
    RunThenStop(exporters, Enter(Fresh), ticks, j);
    assert [] + SamplesOf(ticks) == SamplesOf(ticks);
  }

  /** The manager after a first run of `first` ticks on a new manager, then `stop`. */
  function FirstRun(exporters: seq<Exporter>, first: seq<seq<CollectOutcome>>): State
  {
    Stop(exporters, RunTicks(exporters, Start(Fresh), first))
  }

  /** The manager after a restart, a second run of `second` ticks, then `stop`. */
  function SecondRun(exporters: seq<Exporter>, first: seq<seq<CollectOutcome>>, second: seq<seq<CollectOutcome>>): State
  {
    Stop(exporters, RunTicks(exporters, Start(FirstRun(exporters, first)), second))
  }

  /** A first run on a new manager: its history, what each exporter streamed and what each exported. */
  lemma FirstRunSpelledOut(exporters: seq<Exporter>, first: seq<seq<CollectOutcome>>, j: nat)
    ensures var s1 := FirstRun(exporters, first);
            && s1.phase.Idle?
            && s1.history == SamplesOf(first)
            && Received(s1.exported, j) == (if Flushes(exporters, j) then [s1.history] else [])
            && Received(s1.streamed, j) == (if Streams(exporters, j) then Numbered(SamplesOf(first), 0) else [])
  {
    var s0 := Start(Fresh);
    assert s0 == State(Running(0), [], [], []);
    RunThenStop(exporters, s0, first, j);
    assert [] + SamplesOf(first) == SamplesOf(first);
  }

  /**
    Restarting after a stop does not clear the history: the second stop
    exports the first run's samples followed by the second run's, so each
    exporter with `export` has received both histories, the first a prefix
    of the second.
   */
  lemma RestartKeepsHistory(exporters: seq<Exporter>, first: seq<seq<CollectOutcome>>, second: seq<seq<CollectOutcome>>, j: nat)
    ensures var s1 := FirstRun(exporters, first);
            var s2 := SecondRun(exporters, first, second);
            && s1.history == SamplesOf(first)
            && s2.history == SamplesOf(first) + SamplesOf(second)
            && Received(s2.exported, j) == (if Flushes(exporters, j) then [s1.history, s2.history] else [])
  {
    var s1 := FirstRun(exporters, first);
    var s2 := SecondRun(exporters, first, second);
    FirstRunSpelledOut(exporters, first, j);
    assert Start(s1) == s1.(phase := Running(0));
    assert && s2.history == s1.history + SamplesOf(second)
           && Received(s2.exported, j) == Received(s1.exported, j) + (if Flushes(exporters, j) then [s2.history] else []) by {
      RunThenStop(exporters, Start(s1), second, j);
    }
  }

  /**
    Restarting after a stop begins a new loop whose index starts again at 0:
    a streaming exporter sees the first run's samples numbered from 0 and
    then the second run's, numbered from 0 again, so once the first run has
    produced a sample, the index in the second run no longer matches the
    sample's position in the history.
   */
  lemma RestartRestartsIndex(exporters: seq<Exporter>, first: seq<seq<CollectOutcome>>, second: seq<seq<CollectOutcome>>, j: nat)
    ensures Received(SecondRun(exporters, first, second).streamed, j) ==
              if Streams(exporters, j) then Numbered(SamplesOf(first), 0) + Numbered(SamplesOf(second), 0) else []
  {
    var s1 := FirstRun(exporters, first);
    FirstRunSpelledOut(exporters, first, j);
    assert Start(s1) == s1.(phase := Running(0));
    assert Received(SecondRun(exporters, first, second).streamed, j) ==
             Received(s1.streamed, j) + (if Streams(exporters, j) then Numbered(SamplesOf(second), 0) else []) by {
      RunThenStop(exporters, Start(s1), second, j);
    }
  }

  /** `start` and `stop` are idempotent: a repeated call is a no-op, and a second `stop` exports nothing. */
  lemma LifecycleIdempotent(exporters: seq<Exporter>, s: State)
    ensures Start(Start(s)) == Start(s)
    ensures Stop(exporters, Stop(exporters, s)) == Stop(exporters, s)
  {
  }
}
