/**
  Any interleaving of `start`, loop iterations and `stop` on one manager, as a
  replay of events. What holds after every such session: the history only
  grows, each `export` call received a prefix of the current history, every
  sample streamed is in the history, and export calls happen only on `stop`.
 */
module Session {
  import opened Samples
  import opened Plugins
  import opened Collect
  import opened ProfilerManager

  /** `start()` (or `__enter__`), one loop iteration, or `stop()` (or `__exit__`). */
  datatype Event =
    | StartCalled
    | Ticked(outcomes: seq<CollectOutcome>)
    | StopCalled

  function Apply(exporters: seq<Exporter>, s: State, e: Event): State
  {
    match e
    case StartCalled => Start(s)
    case Ticked(outcomes) => Tick(exporters, s, outcomes)
    case StopCalled => Stop(exporters, s)
  }

  function Replay(exporters: seq<Exporter>, s: State, events: seq<Event>): State
  {
    if |events| == 0 then s
    else Apply(exporters, Replay(exporters, s, events[..|events| - 1]), events[|events| - 1])
  }

  /**
    What every reachable state satisfies: the loop index never runs ahead of
    the history, every batch export received a prefix of the current history,
    and every streamed sample is one of the history's samples.
   */
  predicate Consistent(s: State)
  {
    && (s.phase.Running? ==> s.phase.nextIndex <= |s.history|)
    && (forall i :: 0 <= i < |s.exported| ==> s.exported[i].arg <= s.history)
    && (forall i :: 0 <= i < |s.streamed| ==> s.streamed[i].arg.0 in s.history)
  }

  /**
    Every event keeps the manager consistent, only ever appends to the
    history and to both call traces, and only `stop` makes `export` calls.
   */
  lemma ApplyKeepsConsistent(exporters: seq<Exporter>, s: State, e: Event)
    requires Consistent(s)
    ensures Consistent(Apply(exporters, s, e))
    ensures s.history <= Apply(exporters, s, e).history
    ensures s.streamed <= Apply(exporters, s, e).streamed
    ensures s.exported <= Apply(exporters, s, e).exported
    ensures !e.StopCalled? ==> Apply(exporters, s, e).exported == s.exported
  {
    var r := Apply(exporters, s, e);
    match e
    case StartCalled =>
    case Ticked(outcomes) =>
      if s.phase.Running? {
        var sample := Merge(outcomes);
        var d: Delivery := (sample, s.phase.nextIndex);
        var calls := Broadcast(StreamHooks(exporters), d);
        BroadcastCalls(StreamHooks(exporters), d);
        TickWhileRunning(exporters, s, outcomes);
        assert r.history == s.history + [sample];
        assert r.streamed == s.streamed + calls;
        forall i | 0 <= i < |r.exported|
          ensures r.exported[i].arg <= r.history
        {
          assert s.exported[i].arg <= s.history;
        }
        forall i | 0 <= i < |r.streamed|
          ensures r.streamed[i].arg.0 in r.history
        {
          if i < |s.streamed| {
            assert r.streamed[i] == s.streamed[i];
          } else {
            assert r.streamed[i] == calls[i - |s.streamed|];
            assert r.history[|s.history|] == sample;
          }
        }
      }
    case StopCalled =>
      if s.phase.Running? {
        var calls := Broadcast(ExportHooks(exporters), s.history);
        BroadcastCalls(ExportHooks(exporters), s.history);
        assert r.exported == s.exported + calls;
        forall i | 0 <= i < |r.exported|
          ensures r.exported[i].arg <= r.history
        {
          if i >= |s.exported| {
            assert r.exported[i] == calls[i - |s.exported|];
          }
        }
      }
  }

  /** A session from a newly constructed manager stays consistent, and its history and traces only grow. */
  lemma {:induction false} ReplayKeepsConsistent(exporters: seq<Exporter>, s: State, events: seq<Event>)
    requires Consistent(s)
    ensures Consistent(Replay(exporters, s, events))
    ensures s.history <= Replay(exporters, s, events).history
    ensures s.streamed <= Replay(exporters, s, events).streamed
    ensures s.exported <= Replay(exporters, s, events).exported
  {
    if |events| > 0 {
      var n := |events| - 1;
      ReplayKeepsConsistent(exporters, s, events[..n]);
      ApplyKeepsConsistent(exporters, Replay(exporters, s, events[..n]), events[n]);
    }
  }

  /** Any session on a newly constructed manager reaches only consistent states. */
  lemma SessionsAreConsistent(exporters: seq<Exporter>, events: seq<Event>)
    ensures Consistent(Replay(exporters, Fresh, events))
  {
    ReplayKeepsConsistent(exporters, Fresh, events);
  }

  /** The samples of a sequence of `on_sample` deliveries, without their indices. */
  function DeliveredSamples(ds: seq<Delivery>): (r: seq<Sample>)
    ensures |r| == |ds|
    ensures forall i :: 0 <= i < |ds| ==> r[i] == ds[i].0
  {
    seq(|ds|, i requires 0 <= i < |ds| => ds[i].0)
  }

  lemma DeliveredSamplesAppend(a: seq<Delivery>, b: seq<Delivery>)
    ensures DeliveredSamples(a + b) == DeliveredSamples(a) + DeliveredSamples(b)
  {
    assert forall i :: 0 <= i < |a| + |b| ==> DeliveredSamples(a + b)[i] == (DeliveredSamples(a) + DeliveredSamples(b))[i];
  }

  /** One event keeps each streaming exporter's received samples equal to the history. */
  lemma ApplyStreamsHistory(exporters: seq<Exporter>, s: State, e: Event, j: nat)
    requires DeliveredSamples(Received(s.streamed, j)) == if Streams(exporters, j) then s.history else []
    ensures DeliveredSamples(Received(Apply(exporters, s, e).streamed, j)) ==
              if Streams(exporters, j) then Apply(exporters, s, e).history else []
  {
    match e
    case StartCalled =>
    case StopCalled =>
    case Ticked(outcomes) =>
      if s.phase.Running? {
        var sample := Merge(outcomes);
        var d: Delivery := (sample, s.phase.nextIndex);
        var calls := Broadcast(StreamHooks(exporters), d);
        TickWhileRunning(exporters, s, outcomes);
        ReceivedAppend(s.streamed, calls, j);
        BroadcastReachesEachOnce(StreamHooks(exporters), d, j);
        DeliveredSamplesAppend(Received(s.streamed, j), Received(calls, j));
        assert DeliveredSamples([d]) == [sample];
      }
  }

  /**
    Whatever the interleaving of `start`, ticks and `stop`, and across
    restarts, every exporter with `on_sample` has received exactly the
    history's samples, in history order; any other exporter has received none.
   */
  lemma {:induction false} SessionStreamsMatchHistory(exporters: seq<Exporter>, events: seq<Event>, j: nat)
    ensures DeliveredSamples(Received(Replay(exporters, Fresh, events).streamed, j)) ==
              if Streams(exporters, j) then Replay(exporters, Fresh, events).history else []
  {
    if |events| > 0 {
      var n := |events| - 1;
      SessionStreamsMatchHistory(exporters, events[..n], j);
      ApplyStreamsHistory(exporters, Replay(exporters, Fresh, events[..n]), events[n], j);
    } else {
      assert DeliveredSamples([]) == [];
    }
  }
}
