/**
  One tick's collect-and-merge (`ProfilerManager._collect_once`): the
  collectors' outcomes, in list order, are folded into one sample. A returned
  dict is merged over what is there (the later collector wins), a non-dict is
  skipped without trace, and a raised exception adds one to `collector_errors`.
  Nothing else is written: in particular the manager adds no timestamp.
 */
module Collect {
  import opened Wrappers
  import opened Samples
  import opened Plugins

  /** Fold one collector's outcome into the sample merged so far. */
  function Step(merged: Sample, o: CollectOutcome): Sample
  {
    match o
    case Returned(d) => merged + d
    case NotAMap => merged
    case Raised =>
      var before := if ErrorsKey in merged then merged[ErrorsKey] else 0.0;
      merged[ErrorsKey := before + 1.0]
  }

  /** The sample of one tick, from the outcomes of the collectors in list order. */
  function Merge(outcomes: seq<CollectOutcome>): Sample
  {
    if |outcomes| == 0 then map[]
    else Step(Merge(outcomes[..|outcomes| - 1]), outcomes[|outcomes| - 1])
  }

  /** The position of the last collector whose returned dict holds `k`, if any. */
  function LastEmitter(outcomes: seq<CollectOutcome>, k: Key): (r: Option<nat>)
    ensures r.Some? ==>
              && r.value < |outcomes|
              && Emits(outcomes[r.value], k)
              && forall j :: r.value < j < |outcomes| ==> !Emits(outcomes[j], k)
    ensures r.None? ==> forall j :: 0 <= j < |outcomes| ==> !Emits(outcomes[j], k)
  {
    if |outcomes| == 0 then None
    else if Emits(outcomes[|outcomes| - 1], k) then Some(|outcomes| - 1)
    else LastEmitter(outcomes[..|outcomes| - 1], k)
  }

  /** How many collectors raised. */
  function CountRaised(outcomes: seq<CollectOutcome>): (n: nat)
    ensures n <= |outcomes|
    ensures n > 0 <==> exists j :: 0 <= j < |outcomes| && outcomes[j].Raised?
  {
    if |outcomes| == 0 then 0
    else
      var n := |outcomes| - 1;
      assert forall j :: 0 <= j < n ==> outcomes[..n][j] == outcomes[j];
      CountRaised(outcomes[..n]) + (if outcomes[n].Raised? then 1 else 0)
  }

  /**
    Last writer wins: an ordinary key is in the sample exactly when some
    collector's dict holds it, and its value is the one from the last such
    collector in list order.
   */
  lemma {:induction false} MergeLastWriterWins(outcomes: seq<CollectOutcome>, k: Key)
    requires k != ErrorsKey
    ensures k in Merge(outcomes) <==> LastEmitter(outcomes, k).Some?
    ensures LastEmitter(outcomes, k).Some? ==>
              Merge(outcomes)[k] == outcomes[LastEmitter(outcomes, k).value].data[k]
  {
    if |outcomes| > 0 {
      var n := |outcomes| - 1;
      MergeLastWriterWins(outcomes[..n], k);
    }
  }

  /** `collector_errors` is present exactly when a collector raised or some dict carried that key. */
  lemma {:induction false} MergeErrorsPresent(outcomes: seq<CollectOutcome>)
    ensures ErrorsKey in Merge(outcomes) <==>
              LastEmitter(outcomes, ErrorsKey).Some? || CountRaised(outcomes) > 0
  {
    if |outcomes| > 0 {
      MergeErrorsPresent(outcomes[..|outcomes| - 1]);
    }
  }

  /** Dropping the last collector from a suffix drops its raise, if any, from the count. */
  lemma CountRaisedSuffix(outcomes: seq<CollectOutcome>, j: nat)
    requires j < |outcomes| - 1
    ensures CountRaised(outcomes[j + 1..]) ==
              CountRaised(outcomes[..|outcomes| - 1][j + 1..]) + (if outcomes[|outcomes| - 1].Raised? then 1 else 0)
  {
    var n := |outcomes| - 1;
    assert outcomes[j + 1..][..|outcomes[j + 1..]| - 1] == outcomes[..n][j + 1..];
  }

  /**
    The value of `collector_errors`: the last carried value (zero when no
    dict carried it) plus one per collector that raised after that dict.
   */
  ghost predicate ErrorsValueHolds(outcomes: seq<CollectOutcome>)
  {
    match LastEmitter(outcomes, ErrorsKey)
    case None =>
      ErrorsKey in Merge(outcomes) ==> Merge(outcomes)[ErrorsKey] == CountRaised(outcomes) as real
    case Some(j) =>
      && ErrorsKey in Merge(outcomes)
      && Merge(outcomes)[ErrorsKey] == outcomes[j].data[ErrorsKey] + CountRaised(outcomes[j + 1..]) as real
  }

  /** A last collector whose dict carries `collector_errors` resets the counter to its value. */
  lemma ErrorsAfterEmitter(outcomes: seq<CollectOutcome>)
    requires |outcomes| > 0 && Emits(outcomes[|outcomes| - 1], ErrorsKey)
    ensures ErrorsValueHolds(outcomes)
  {
    assert outcomes[|outcomes|..] == [];
  }

  /** A last collector that neither raises nor carries `collector_errors` leaves the counter as it was. */
  lemma ErrorsAfterSilent(outcomes: seq<CollectOutcome>)
    requires |outcomes| > 0
    requires !Emits(outcomes[|outcomes| - 1], ErrorsKey) && !outcomes[|outcomes| - 1].Raised?
    requires ErrorsValueHolds(outcomes[..|outcomes| - 1])
    ensures ErrorsValueHolds(outcomes)
  {
    var n := |outcomes| - 1;
    match LastEmitter(outcomes, ErrorsKey)
    case None =>
    case Some(j) =>
      CountRaisedSuffix(outcomes, j);
  }

  /** A last collector that raises adds one to the counter, creating it at one if absent. */
  lemma ErrorsAfterRaise(outcomes: seq<CollectOutcome>)
    requires |outcomes| > 0 && outcomes[|outcomes| - 1].Raised?
    requires ErrorsValueHolds(outcomes[..|outcomes| - 1])
    requires ErrorsKey in Merge(outcomes[..|outcomes| - 1]) <==>
               LastEmitter(outcomes[..|outcomes| - 1], ErrorsKey).Some? || CountRaised(outcomes[..|outcomes| - 1]) > 0
    ensures ErrorsValueHolds(outcomes)
  {
    var n := |outcomes| - 1;
    match LastEmitter(outcomes, ErrorsKey)
    case None =>
    case Some(j) =>
      CountRaisedSuffix(outcomes, j);
  }

  lemma {:induction false} ErrorsValue(outcomes: seq<CollectOutcome>)
    ensures ErrorsValueHolds(outcomes)
  {
    if |outcomes| > 0 {
      var n := |outcomes| - 1;
      ErrorsValue(outcomes[..n]);
      if Emits(outcomes[n], ErrorsKey) {
        ErrorsAfterEmitter(outcomes);
      } else if outcomes[n].Raised? {
        MergeErrorsPresent(outcomes[..n]);
        ErrorsAfterRaise(outcomes);
      } else {
        ErrorsAfterSilent(outcomes);
      }
    }
  }

  /**
    The error counter: `collector_errors` is present exactly when a collector
    raised or some dict carried that key. Its value is the last dict's value
    for it (zero when no dict carried it) plus one for every collector that
    raised after that dict.
   */
  lemma MergeCountsErrors(outcomes: seq<CollectOutcome>)
    ensures ErrorsKey in Merge(outcomes) <==>
              LastEmitter(outcomes, ErrorsKey).Some? || CountRaised(outcomes) > 0
    ensures match LastEmitter(outcomes, ErrorsKey)
            case None =>
              ErrorsKey in Merge(outcomes) ==>
                Merge(outcomes)[ErrorsKey] == CountRaised(outcomes) as real
            case Some(j) =>
              Merge(outcomes)[ErrorsKey] ==
                outcomes[j].data[ErrorsKey] + CountRaised(outcomes[j + 1..]) as real
  {
    MergeErrorsPresent(outcomes);
    ErrorsValue(outcomes);
  }

  /**
    When no collector's dict carries `collector_errors`, the key is present
    exactly when some collector raised, and it counts the collectors that raised.
   */
  lemma MergeErrorsCountRaised(outcomes: seq<CollectOutcome>)
    requires forall j :: 0 <= j < |outcomes| ==> !Emits(outcomes[j], ErrorsKey)
    ensures ErrorsKey in Merge(outcomes) <==> exists j :: 0 <= j < |outcomes| && outcomes[j].Raised?
    ensures ErrorsKey in Merge(outcomes) ==> Merge(outcomes)[ErrorsKey] == CountRaised(outcomes) as real
  {
    MergeCountsErrors(outcomes);
  }

  /** A collector returning something other than a dict changes nothing at all, not even the error counter. */
  lemma {:induction false} MergeSkipsNotAMap(before: seq<CollectOutcome>, after: seq<CollectOutcome>)
    ensures Merge(before + [NotAMap] + after) == Merge(before + after)
    decreases |after|
  {
    if |after| == 0 {
      assert before + [NotAMap] + after == before + [NotAMap];
      assert (before + [NotAMap])[..|before|] == before;
      assert before + after == before;
    } else {
      var n := |after| - 1;
      MergeSkipsNotAMap(before, after[..n]);
      assert (before + [NotAMap] + after)[..|before| + 1 + n] == before + [NotAMap] + after[..n];
      assert (before + after)[..|before| + n] == before + after[..n];
    }
  }

  /**
    A collector that raises disturbs no other collector's keys: with or
    without it, every key but `collector_errors` is present alike and has the
    same value.
   */
  lemma {:induction false} MergeIsolatesRaisingCollector(before: seq<CollectOutcome>, after: seq<CollectOutcome>, k: Key)
    requires k != ErrorsKey
    ensures k in Merge(before + [Raised] + after) <==> k in Merge(before + after)
    ensures k in Merge(before + after) ==> Merge(before + [Raised] + after)[k] == Merge(before + after)[k]
    decreases |after|
  {
    if |after| == 0 {
      assert before + [Raised] + after == before + [Raised];
      assert (before + [Raised])[..|before|] == before;
      assert before + after == before;
    } else {
      var n := |after| - 1;
      MergeIsolatesRaisingCollector(before, after[..n], k);
      assert (before + [Raised] + after)[..|before| + 1 + n] == before + [Raised] + after[..n];
      assert (before + after)[..|before| + n] == before + after[..n];
    }
  }

  /** With no collectors, or only collectors returning non-dicts, the sample is empty. */
  lemma {:induction false} MergeOfNoDictsIsEmpty(outcomes: seq<CollectOutcome>)
    requires forall j :: 0 <= j < |outcomes| ==> outcomes[j].NotAMap?
    ensures Merge(outcomes) == map[]
  {
    if |outcomes| > 0 {
      MergeOfNoDictsIsEmpty(outcomes[..|outcomes| - 1]);
    }
  }

  /** The manager never writes a timestamp: the sample has one exactly when some collector's dict had one. */
  lemma MergeAddsNoTimestamp(outcomes: seq<CollectOutcome>)
    ensures TimestampKey in Merge(outcomes) <==> exists j :: 0 <= j < |outcomes| && Emits(outcomes[j], TimestampKey)
  {
    MergeLastWriterWins(outcomes, TimestampKey);
  }
}
