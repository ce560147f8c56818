/**
 * The heartbeat window accumulator of internal/filter/heartbeat_aggregator.go.
 */
module Heartbeat {

  const DEFAULT_INTERVAL := 10_000_000_000

  datatype Observation = Observation(value: real, anomalous: bool, suppressed: bool)

  datatype Summary = Summary(startTime: int, endTime: int, totalSamples: nat, anomalousCount: nat,
                             suppressedCount: nat, minVal: real, maxVal: real, sumVal: real)

  function Anomalies(w: seq<Observation>): nat {
    if w == [] then 0 else Anomalies(w[..|w| - 1]) + (if w[|w| - 1].anomalous then 1 else 0)
  }

  function Suppressions(w: seq<Observation>): nat {
    if w == [] then 0 else Suppressions(w[..|w| - 1]) + (if w[|w| - 1].suppressed then 1 else 0)
  }

  function Total(w: seq<Observation>): real {
    if w == [] then 0.0 else Total(w[..|w| - 1]) + w[|w| - 1].value
  }

  /** The smallest value observed, or 0 for an empty window. */
  function Least(w: seq<Observation>): real {
    if w == [] then 0.0
    else
      var n := |w| - 1;
      if n == 0 || w[n].value < Least(w[..n]) then w[n].value else Least(w[..n])
  }

  function Greatest(w: seq<Observation>): real {
    if w == [] then 0.0
    else
      var n := |w| - 1;
      if n == 0 || w[n].value > Greatest(w[..n]) then w[n].value else Greatest(w[..n])
  }

  /** They are values of the window, and bound all the others. */
  lemma {:induction false} ExtremesBound(w: seq<Observation>)
    requires w != []
    ensures exists i :: 0 <= i < |w| && w[i].value == Least(w)
    ensures exists i :: 0 <= i < |w| && w[i].value == Greatest(w)
    ensures forall i :: 0 <= i < |w| ==> Least(w) <= w[i].value <= Greatest(w)
  {
    var n := |w| - 1;
    if n > 0 {
      var before := w[..n];
      ExtremesBound(before);
      var i :| 0 <= i < n && before[i].value == Least(before);
      var j :| 0 <= j < n && before[j].value == Greatest(before);
      assert w[i] == before[i] && w[j] == before[j];
      forall k | 0 <= k < |w| ensures Least(w) <= w[k].value <= Greatest(w) {
        if k < n {
          assert w[k] == before[k];
        }
      }
    }
    assert w[n].value == Least(w) || (n > 0 && Least(w) == Least(w[..n]));
    assert w[n].value == Greatest(w) || (n > 0 && Greatest(w) == Greatest(w[..n]));
  }

  /** The summary of a window that ran from `start` to `end`. */
  function SummaryOf(start: int, end: int, w: seq<Observation>): Summary {
    Summary(start, end, |w|, Anomalies(w), Suppressions(w), Least(w), Greatest(w), Total(w))
  }

  lemma WindowNext(w: seq<Observation>, o: Observation)
    ensures Anomalies(w + [o]) == Anomalies(w) + (if o.anomalous then 1 else 0)
    ensures Suppressions(w + [o]) == Suppressions(w) + (if o.suppressed then 1 else 0)
    ensures Total(w + [o]) == Total(w) + o.value
    ensures Least(w + [o]) == if w == [] || o.value < Least(w) then o.value else Least(w)
    ensures Greatest(w + [o]) == if w == [] || o.value > Greatest(w) then o.value else Greatest(w)
  {
    assert (w + [o])[..|w|] == w;
  }

  /** The sum of a window lies between its size times its extremes. */
  lemma {:induction false} SumBetweenExtremes(w: seq<Observation>)
    ensures Least(w) * (|w| as real) <= Total(w) <= Greatest(w) * (|w| as real)
  {
    if w != [] {
      ExtremesBound(w);
      SumBetween(w, Least(w), Greatest(w));
    }
  }

  lemma {:induction false} SumBetween(w: seq<Observation>, lo: real, hi: real)
    requires forall i :: 0 <= i < |w| ==> lo <= w[i].value <= hi
    ensures lo * (|w| as real) <= Total(w) <= hi * (|w| as real)
  {
    if w != [] {
      var n := |w| - 1;
      SumBetween(w[..n], lo, hi);
      assert lo * (|w| as real) == lo * (n as real) + lo;
      assert hi * (|w| as real) == hi * (n as real) + hi;
    }
  }

  /** Every accumulator but the extremes adds up over any split of a window, down to single observations. */
  lemma {:induction false} TotalsAddUp(a: seq<Observation>, b: seq<Observation>)
    ensures Total(a + b) == Total(a) + Total(b)
    ensures Anomalies(a + b) == Anomalies(a) + Anomalies(b)
    ensures Suppressions(a + b) == Suppressions(a) + Suppressions(b)
    ensures |a| == 1 ==>
              && Total(a) == a[0].value && Anomalies(a) == (if a[0].anomalous then 1 else 0)
              && Suppressions(a) == if a[0].suppressed then 1 else 0
  {
    if b == [] {
      assert a + b == a;
      assert |a| == 1 ==> a[..0] == [];
    } else {
      var n := |b| - 1;
      TotalsAddUp(a, b[..n]);
      assert (a + b)[..|a + b| - 1] == a + b[..n];
    }
  }

  /** The accumulators hold the statistics of the window. */
  predicate Tallies(w: seq<Observation>, samples: nat, anomalies: nat, suppressions: nat,
                    lo: real, hi: real, sum: real, hasVal: bool) {
    && samples == |w| && anomalies == Anomalies(w) && suppressions == Suppressions(w)
    && lo == Least(w) && hi == Greatest(w) && sum == Total(w) && (hasVal <==> w != [])
  }

  lemma TallyNext(w: seq<Observation>, o: Observation, samples: nat, anomalies: nat, suppressions: nat,
                  lo: real, hi: real, sum: real, hasVal: bool)
    requires Tallies(w, samples, anomalies, suppressions, lo, hi, sum, hasVal)
    ensures Tallies(w + [o], samples + 1,
                    anomalies + (if o.anomalous then 1 else 0), suppressions + (if o.suppressed then 1 else 0),
                    if !hasVal || o.value < lo then o.value else lo, if !hasVal || o.value > hi then o.value else hi,
                    sum + o.value, true)
  {
    WindowNext(w, o);
  }

  class HeartbeatAggregator {
    const interval: int
    var windowStart: int
    var totalSamples: nat
    var anomalousCount: nat
    var suppressedCount: nat
    var minVal: real
    var maxVal: real
    var sumVal: real
    var hasVal: bool
    ghost var window: seq<Observation> // observed since the last flush

    ghost predicate Valid()
      reads this
    {
      && interval > 0
      && Tallies(window, totalSamples, anomalousCount, suppressedCount, minVal, maxVal, sumVal, hasVal)
    }

    constructor (requested: int, now: int)
      ensures Valid() && window == [] && windowStart == now
      ensures interval == if requested <= 0 then DEFAULT_INTERVAL else requested
    {
      interval := if requested <= 0 then DEFAULT_INTERVAL else requested;
      windowStart := now;
      totalSamples, anomalousCount, suppressedCount := 0, 0, 0;
      minVal, maxVal, sumVal, hasVal := 0.0, 0.0, 0.0, false;
      window := [];
    }

    method Observe(val: real, isAnomalous: bool, isSuppressed: bool)
      requires Valid()
      modifies this
      ensures Valid() && window == old(window) + [Observation(val, isAnomalous, isSuppressed)]
      ensures windowStart == old(windowStart)
    {
      ghost var o := Observation(val, isAnomalous, isSuppressed);
      TallyNext(window, o, totalSamples, anomalousCount, suppressedCount, minVal, maxVal, sumVal, hasVal);
      totalSamples := totalSamples + 1;
      if isAnomalous {
        anomalousCount := anomalousCount + 1;
      }
      if isSuppressed {
        suppressedCount := suppressedCount + 1;
      }
      if !hasVal {
        minVal := val;
        maxVal := val;
        hasVal := true;
      } else {
        if val < minVal {
          minVal := val;
        }
        if val > maxVal {
          maxVal := val;
        }
      }
      sumVal := sumVal + val;
      window := window + [o];
    }

    function ShouldFlush(now: int): bool
      reads this
    {
      windowStart != 0 && now - windowStart >= interval
    }

    method Flush(now: int) returns (res: Summary)
      requires Valid()
      modifies this
      ensures Valid() && window == [] && windowStart == now
      ensures res == SummaryOf(old(windowStart), now, old(window))
    {
      res := Summary(windowStart, now, totalSamples, anomalousCount, suppressedCount, minVal, maxVal, sumVal);
      windowStart := now;
      totalSamples, anomalousCount, suppressedCount := 0, 0, 0;
      minVal, maxVal, sumVal, hasVal := 0.0, 0.0, 0.0, false;
      window := [];
    }

    method Reset(now: int)
      requires Valid()
      modifies this
      ensures Valid() && window == [] && windowStart == now
    {
      windowStart := now;
      totalSamples, anomalousCount, suppressedCount := 0, 0, 0;
      minVal, maxVal, sumVal, hasVal := 0.0, 0.0, 0.0, false;
      window := [];
    }
  }
}
