/** The bounded history of snapshots, src/agent/data_collector.rs:
    `MetricsRotation` (a `Vec` behind a mutex, of fixed capacity
    `max_entries`, evicting the oldest entry) and the per-tick step
    `collect_metrics_with_logging`. The mutex only makes each call atomic and
    is not modelled: the class is used by one caller at a time. */
module DataCollector {
  import opened Util
  import opened Metrics
  import opened SystemData

  /** The contents after `add_metric(m)` on contents `history`: `m` is pushed,
      then index 0 is removed when the length exceeds `maxEntries`. */
  function AfterAdd(history: seq<ExtendedSystemData>, m: ExtendedSystemData, maxEntries: nat): (r: seq<ExtendedSystemData>)
    ensures |history| <= maxEntries ==> |r| <= maxEntries
    ensures |history| < maxEntries ==> r == history + [m]
    ensures |history| == maxEntries > 0 ==> r == history[1..] + [m]
    ensures r == [] <==> history == [] && maxEntries == 0
    ensures r != [] ==> r[|r| - 1] == m
  {
    var pushed := history + [m];
    if |pushed| > maxEntries then pushed[1..] else pushed
  }

  /** The last `n` elements of `xs`, in order (all of them when there are fewer). */
  function Window(xs: seq<ExtendedSystemData>, n: nat): (r: seq<ExtendedSystemData>)
    ensures |r| == Min(|xs|, n)
  {
    xs[|xs| - Min(|xs|, n)..]
  }

  /** The contents of a store made by `new(maxEntries)` after `add_metric` of each of `inputs` in turn. */
  function History(maxEntries: nat, inputs: seq<ExtendedSystemData>): seq<ExtendedSystemData>
  {
    if inputs == [] then []
    else AfterAdd(History(maxEntries, inputs[..|inputs| - 1]), inputs[|inputs| - 1], maxEntries)
  }

  /** Adding to a store that holds the window of its inputs gives the window of the longer input. */
  lemma AfterAddWindow(xs: seq<ExtendedSystemData>, m: ExtendedSystemData, n: nat)
    ensures AfterAdd(Window(xs, n), m, n) == Window(xs + [m], n)
  {
    var w := Window(xs, n);
    if |xs| >= n > 0 {
      assert w[1..] + [m] == (xs + [m])[|xs| + 1 - n..];
    } else if |xs| < n {
      assert w == xs && xs + [m] == (xs + [m])[0..];
    }
  }

  /** After any sequence of adds to a fresh store, it holds the last
      `min(k, maxEntries)` of the `k` inputs, in insertion order; in particular
      it never holds more than `maxEntries` snapshots. */
  lemma {:induction false} HistoryIsWindow(maxEntries: nat, inputs: seq<ExtendedSystemData>)
    ensures History(maxEntries, inputs) == Window(inputs, maxEntries)
    ensures |History(maxEntries, inputs)| <= maxEntries
  {
    if inputs != [] {
      var init := inputs[..|inputs| - 1];
      HistoryIsWindow(maxEntries, init);
      AfterAddWindow(init, inputs[|inputs| - 1], maxEntries);
      assert init + [inputs[|inputs| - 1]] == inputs;
    }
  }

  /** A store of capacity 0 is empty after every add. */
  lemma ZeroCapacityStaysEmpty(inputs: seq<ExtendedSystemData>)
    ensures History(0, inputs) == []
  {
    HistoryIsWindow(0, inputs);
  }

  /** The history store. `metrics` is the `Vec`; the ghost `inputs` records
      every snapshot ever added, so that the object invariant can say which of
      them the store still holds. */
  class MetricsRotation {
    const maxEntries: nat
    var metrics: seq<ExtendedSystemData>
    ghost var inputs: seq<ExtendedSystemData>

    /** The store holds the most recent `maxEntries` inputs, oldest first. */
    ghost predicate Valid()
      reads this
    {
      metrics == Window(inputs, maxEntries)
    }

    /** `MetricsRotation::new`: an empty store of the given capacity. */
    constructor (maxEntries: nat)
      ensures Valid()
      ensures this.maxEntries == maxEntries && metrics == [] && inputs == []
    {
      this.maxEntries := maxEntries;
      metrics := [];
      inputs := [];
    }

    /** `add_metric`: push, then evict the oldest entry when over capacity. */
    method AddMetric(metric: ExtendedSystemData)
      requires Valid()
      modifies this
      ensures Valid()
      ensures inputs == old(inputs) + [metric]
      ensures metrics == AfterAdd(old(metrics), metric, maxEntries)
      ensures |metrics| <= maxEntries
    {
      AfterAddWindow(inputs, metric, maxEntries);
      metrics := metrics + [metric];
      if |metrics| > maxEntries {
        metrics := metrics[1..];
      }
      inputs := inputs + [metric];
    }

    /** `get_metrics`: a copy of the contents. The store is not changed, and since
        the copy is a value, later adds cannot change it either. */
    method GetMetrics() returns (r: seq<ExtendedSystemData>)
      requires Valid()
      ensures r == metrics
      ensures r == Window(inputs, maxEntries) && |r| <= maxEntries
    {
      r := metrics;
    }
  }

  /** `collect_metrics_with_logging`: assemble a snapshot, hand a clone to the
      delivery task (returned here as `offered`; the task's send result is only
      logged), append the snapshot to the store, and return `Ok(())`. */
  method CollectMetricsWithLogging(rotation: MetricsRotation, readings: OsReadings)
    returns (result: Result<(), string>, offered: ExtendedSystemData)
    requires rotation.Valid()
    modifies rotation
    ensures rotation.Valid()
    ensures result == Ok(())
    ensures offered == Assemble(readings)
    ensures rotation.inputs == old(rotation.inputs) + [offered]
    ensures rotation.metrics == AfterAdd(old(rotation.metrics), offered, rotation.maxEntries)
  {
    var data := CollectExtendedMetrics(readings);
    offered := data;
    rotation.AddMetric(data);
    result := Ok(());
  }

  /** A store of capacity 3 given four snapshots in order keeps the last three. */
  lemma CapacityThreeScenario(s1: ExtendedSystemData, s2: ExtendedSystemData, s3: ExtendedSystemData, s4: ExtendedSystemData)
    ensures History(3, [s1, s2, s3]) == [s1, s2, s3]
    ensures History(3, [s1, s2, s3, s4]) == [s2, s3, s4]
  {
    HistoryIsWindow(3, [s1, s2, s3]);
    HistoryIsWindow(3, [s1, s2, s3, s4]);
  }
}
