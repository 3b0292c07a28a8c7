/**
  The two capabilities the profiler manager consumes. A collector is seen only
  through what one call of its `collect()` did; an exporter is a pair of
  optional hooks, `on_sample(sample, idx)` for streaming and `export(history)`
  for the flush at stop. Every hook call the manager makes is recorded as a
  `Call` in a trace, so that ordering and isolation can be stated about it.
 */
module Plugins {
  import opened Samples

  /** What one call of a collector's `collect()` did during one tick. */
  datatype CollectOutcome =
    | Returned(data: Sample)  // returned a dict
    | NotAMap                 // returned something that is not a dict
    | Raised                  // raised an exception

  /** The collector call returned a dict that holds key `k`. */
  predicate Emits(o: CollectOutcome, k: Key)
  {
    o.Returned? && k in o.data
  }

  /**
    An optional exporter hook. `Missing` stands for an attribute that is
    absent or not callable; `Defined` says for which arguments the hook
    raises. Whether a hook raises never changes what the manager does next,
    which is the point of the isolation lemmas below.
   */
  datatype Hook<-A> = Missing | Defined(raises: A -> bool)

  /** The arguments `on_sample` receives: the merged sample and the tick index. */
  type Delivery = (Sample, nat)

  datatype Exporter = Exporter(onSample: Hook<Delivery>, onExport: Hook<seq<Sample>>)

  /** One invocation of a hook: which exporter (by list position), with what, and whether it raised. */
  datatype Call<A> = Call(target: nat, arg: A, raised: bool)

  function StreamHooks(exporters: seq<Exporter>): (hooks: seq<Hook<Delivery>>)
    ensures |hooks| == |exporters|
    ensures forall j :: 0 <= j < |exporters| ==> hooks[j] == exporters[j].onSample
  {
    seq(|exporters|, j requires 0 <= j < |exporters| => exporters[j].onSample)
  }

  function ExportHooks(exporters: seq<Exporter>): (hooks: seq<Hook<seq<Sample>>>)
    ensures |hooks| == |exporters|
    ensures forall j :: 0 <= j < |exporters| ==> hooks[j] == exporters[j].onExport
  {
    seq(|exporters|, j requires 0 <= j < |exporters| => exporters[j].onExport)
  }

  /** Exporter `j` exists and has a callable `on_sample`. */
  predicate Streams(exporters: seq<Exporter>, j: nat)
  {
    j < |exporters| && exporters[j].onSample.Defined?
  }

  /** Exporter `j` exists and has a callable `export`. */
  predicate Flushes(exporters: seq<Exporter>, j: nat)
  {
    j < |exporters| && exporters[j].onExport.Defined?
  }

  /**
    Offer `arg` to every hook in list order, each call inside its own failure
    boundary. What the calls are is `BroadcastCalls`; that every defined hook
    is reached exactly once is `BroadcastReachesEachOnce`.
   */
  function Broadcast<A>(hooks: seq<Hook<A>>, arg: A): seq<Call<A>>
  {
    if |hooks| == 0 then []
    else
      var n := |hooks| - 1;
      var earlier := Broadcast(hooks[..n], arg);
      match hooks[n]
      case Missing => earlier
      case Defined(raises) =>
        earlier + [Call(n, arg, raises(arg))]
  }

  /**
    What a dispatch loop's calls look like: each goes to a hook that is
    defined, carries `arg` and records whether that hook raised on it, and
    the calls follow list order.
   */
  ghost predicate DispatchedInOrder<A>(hooks: seq<Hook<A>>, arg: A, calls: seq<Call<A>>)
  {
    && (forall i :: 0 <= i < |calls| ==>
          && calls[i].target < |hooks|
          && hooks[calls[i].target].Defined?
          && calls[i].arg == arg
          && calls[i].raised == hooks[calls[i].target].raises(arg))
    && (forall i, i' :: 0 <= i < i' < |calls| ==> calls[i].target < calls[i'].target)
  }

  lemma {:induction false} BroadcastCalls<A>(hooks: seq<Hook<A>>, arg: A)
    ensures DispatchedInOrder(hooks, arg, Broadcast(hooks, arg))
  {
    if |hooks| > 0 {
      var n := |hooks| - 1;
      var earlier := Broadcast(hooks[..n], arg);
      BroadcastCalls(hooks[..n], arg);
      assert forall i :: 0 <= i < |earlier| ==> hooks[..n][earlier[i].target] == hooks[earlier[i].target];
      match hooks[n]
      case Missing =>
        assert Broadcast(hooks, arg) == earlier;
      case Defined(raises) =>
        assert Broadcast(hooks, arg) == earlier + [Call(n, arg, raises(arg))];
    }
  }

  /** The arguments exporter `j` received, in the order the trace records them. */
  function Received<A>(trace: seq<Call<A>>, j: nat): seq<A>
  {
    if |trace| == 0 then []
    else
      var last := trace[|trace| - 1];
      Received(trace[..|trace| - 1], j) + (if last.target == j then [last.arg] else [])
  }

  lemma {:induction false} ReceivedAppend<A>(a: seq<Call<A>>, b: seq<Call<A>>, j: nat)
    ensures Received(a + b, j) == Received(a, j) + Received(b, j)
    decreases |b|
  {
    if |b| > 0 {
      var n := |b| - 1;
      assert (a + b)[..|a + b| - 1] == a + b[..n];
      ReceivedAppend(a, b[..n], j);
    } else {
      assert a + b == a;
    }
  }

  /** Each defined hook is called exactly once with `arg`; a missing one is never called. */
  lemma {:induction false} BroadcastReachesEachOnce<A>(hooks: seq<Hook<A>>, arg: A, j: nat)
    ensures Received(Broadcast(hooks, arg), j) == if j < |hooks| && hooks[j].Defined? then [arg] else []
  {
    if |hooks| > 0 {
      var n := |hooks| - 1;
      var earlier := Broadcast(hooks[..n], arg);
      BroadcastReachesEachOnce(hooks[..n], arg, j);
      assert Received(earlier, j) == if j < n && hooks[j].Defined? then [arg] else [];
      match hooks[n]
      case Missing =>
        assert Broadcast(hooks, arg) == earlier;
      case Defined(raises) =>
        var c := Call(n, arg, raises(arg));
        assert Broadcast(hooks, arg) == earlier + [c];
        ReceivedAppend(earlier, [c], j);
        assert [c][..0] == [];
        assert Received([c], j) == if n == j then [arg] else [];
    }
  }

  /**
    Failure isolation: two exporter lists that agree on which hooks exist get
    the same calls, in the same order, with the same arguments, whatever
    their hooks raise.
   */
  lemma {:induction false} BroadcastIgnoresFailures<A>(hooks: seq<Hook<A>>, hooks': seq<Hook<A>>, arg: A)
    requires |hooks| == |hooks'|
    requires forall j :: 0 <= j < |hooks| ==> (hooks[j].Defined? <==> hooks'[j].Defined?)
    ensures |Broadcast(hooks, arg)| == |Broadcast(hooks', arg)|
    ensures forall i :: 0 <= i < |Broadcast(hooks, arg)| ==>
              && Broadcast(hooks, arg)[i].target == Broadcast(hooks', arg)[i].target
              && Broadcast(hooks, arg)[i].arg == Broadcast(hooks', arg)[i].arg
  {
    if |hooks| > 0 {
      var n := |hooks| - 1;
      BroadcastIgnoresFailures(hooks[..n], hooks'[..n], arg);
    }
  }
}
