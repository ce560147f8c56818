/**
 * The dual-metric anomaly and drift detector (internal/engine/detector.go), over exact reals.
 * Scores are kept squared: the source compares hypot(zCPU, zMem) with a positive threshold, which
 * is the comparison of squares made here, and a standard deviation above 1e-12 is a variance above
 * 1e-24. A missing observation (NaN or infinite) is None.
 */
module Detector {
  import opened StreamingStats

  const MIN_VARIANCE := 0.000000000000000000000001

  function Abs(x: real): (a: real)
    ensures a >= 0.0
  {
    if x < 0.0 then -x else x
  }

  function Max(x: real, y: real): real {
    if x < y then y else x
  }

  /** The square of calculateZScore, for the mean and variance before the observation. */
  function ScoreSquared(x: real, mean: real, variance: Option<real>): (z: real)
    ensures z >= 0.0
  {
    if variance.Some? && variance.value > MIN_VARIANCE then
      SquareBelow(0.0, Abs(x - mean));
      Square(x - mean) / variance.value
    else
      SquareBelow(0.0, Abs((x - mean) / Max(1.0, Abs(mean))));
      Square((x - mean) / Max(1.0, Abs(mean)))
  }

  /** How far `x` is from what the stream `before` led one to expect. */
  function Surprise(alpha: real, before: seq<real>, x: real): (z: real)
    requires before != []
    ensures z >= 0.0
  {
    ScoreSquared(x, Mean(alpha, before), if |before| < 2 then None else Some(Vr(alpha, before)))
  }

  /** Divergence of the fast from the slow average, relative to the slow one. */
  function Divergence(fast: real, slow: real): real {
    Abs(fast - slow) / Max(1.0, Abs(slow))
  }

  datatype Settings = Settings(fast: real, slow: real, minSamples: nat, threshold: real, driftThreshold: real) {
    predicate Valid() {
      0.0 < slow < fast <= 1.0 && minSamples > 0 && threshold > 0.0 && driftThreshold > 0.0
    }
  }

  /** Whether the last pair of observations is anomalous against all the earlier ones. */
  predicate Anomalous(s: Settings, cpus: seq<real>, mems: seq<real>)
    requires |cpus| == |mems| && cpus != []
  {
    var n := |cpus| - 1;
    && n >= 1 && |cpus| > s.minSamples
    && Surprise(s.fast, cpus[..n], cpus[n]) + Surprise(s.fast, mems[..n], mems[n]) >= Square(s.threshold)
  }

  /** The square of the score of the last pair; 0 while warming up. */
  function LastScore(s: Settings, cpus: seq<real>, mems: seq<real>): (z: real)
    requires s.Valid() && |cpus| == |mems| && cpus != []
    ensures z >= 0.0
  {
    var n := |cpus| - 1;
    if n + 1 <= s.minSamples then 0.0
    else Surprise(s.fast, cpus[..n], cpus[n]) + Surprise(s.fast, mems[..n], mems[n])
  }

  function DriftIndex(s: Settings, cpus: seq<real>, mems: seq<real>): real
    requires |cpus| == |mems|
  {
    if cpus == [] then 0.0
    else Max(Divergence(Mean(s.fast, cpus), Mean(s.slow, cpus)), Divergence(Mean(s.fast, mems), Mean(s.slow, mems)))
  }

  predicate Drifting(s: Settings, cpus: seq<real>, mems: seq<real>)
    requires |cpus| == |mems|
  {
    |cpus| >= s.minSamples && DriftIndex(s, cpus, mems) > s.driftThreshold
  }

  /** One observation into both horizons of a metric. */
  method Feed(fast: StreamingStats, slow: Ewma, x: real)
    requires fast.Valid() && slow.Valid()
    modifies fast, slow
    ensures fast.Valid() && fast.samples == old(fast.samples) + [x]
    ensures slow.Valid() && slow.samples == old(slow.samples) + [x]
  {
    fast.Update(x);
    slow.Update(x);
  }

  /** Score and verdict of one more pair. */
  lemma JudgeNext(s: Settings, cpus: seq<real>, mems: seq<real>, cpu: real, mem: real)
    requires s.Valid() && |cpus| == |mems|
    ensures var (cpus', mems') := (cpus + [cpu], mems + [mem]);
            var z := if |cpus| + 1 <= s.minSamples then 0.0
                     else Surprise(s.fast, cpus, cpu) + Surprise(s.fast, mems, mem);
            && LastScore(s, cpus', mems') == z
            && (Anomalous(s, cpus', mems') <==> |cpus'| >= s.minSamples && z >= Square(s.threshold))
  {
    var n := |cpus|;
    assert (cpus + [cpu])[..n] == cpus && (mems + [mem])[..n] == mems;
    ZeroBelowThreshold(s.threshold);
  }

  class ZScoreDetector {
    const settings: Settings
    const cpuStats: StreamingStats
    const memStats: StreamingStats
    const cpuSlow: Ewma
    const memSlow: Ewma
    var n: nat
    var lastCpu: real
    var lastMem: real
    var zSquared: Option<real>
    var driftIndex: real
    var drifting: bool
    ghost var cpus: seq<real> // observations accepted since construction or Reset
    ghost var mems: seq<real>

    /** The four accumulators hold exactly the accepted observations. */
    ghost predicate Tracking()
      reads this, cpuStats, memStats, cpuSlow, memSlow
    {
      && settings.Valid()
      && cpuStats != memStats && cpuSlow != memSlow
      && cpuStats.Valid() && memStats.Valid() && cpuSlow.Valid() && memSlow.Valid()
      && cpuStats.alpha == memStats.alpha == settings.fast
      && cpuSlow.alpha == memSlow.alpha == settings.slow
      && cpuStats.samples == cpuSlow.samples == cpus && memStats.samples == memSlow.samples == mems
      && |cpus| == |mems| == n
    }

    ghost predicate Valid()
      reads this, cpuStats, memStats, cpuSlow, memSlow
    {
      && Tracking()
      && driftIndex == DriftIndex(settings, cpus, mems)
      && drifting == Drifting(settings, cpus, mems)
      && zSquared == (if cpus == [] then None else Some(LastScore(settings, cpus, mems)))
    }

    constructor (alphaFast: real, alphaSlow: real, minSamples: nat, threshold: real, driftThreshold: real)
      ensures Valid() && cpus == [] && mems == []
      ensures fresh(cpuStats) && fresh(memStats) && fresh(cpuSlow) && fresh(memSlow)
      ensures settings.fast == ClampAlpha(alphaFast)
      ensures settings.slow == if ClampAlpha(alphaSlow) < settings.fast then ClampAlpha(alphaSlow)
                               else settings.fast * 0.1
      ensures settings.minSamples == if minSamples == 0 then 30 else minSamples
      ensures settings.threshold == if threshold <= 0.0 then 3.5 else threshold
      ensures settings.driftThreshold == if driftThreshold <= 0.0 then 0.15 else driftThreshold
    {
      var fast, slow := ClampAlpha(alphaFast), ClampAlpha(alphaSlow);
      if slow >= fast {
        slow := fast * 0.1;
      }
      settings := Settings(fast, slow,
                           if minSamples == 0 then 30 else minSamples,
                           if threshold <= 0.0 then 3.5 else threshold,
                           if driftThreshold <= 0.0 then 0.15 else driftThreshold);
      cpuStats := new StreamingStats(fast);
      memStats := new StreamingStats(fast);
      cpuSlow := new Ewma(slow);
      memSlow := new Ewma(slow);
      n, lastCpu, lastMem, driftIndex, drifting := 0, 0.0, 0.0, 0.0, false;
      zSquared := None;
      cpus, mems := [], [];
    }

    /** The Chebyshev distance between the two horizons. */
    function CurrentDrift(): (d: real)
      requires Tracking() && n > 0
      reads this, cpuStats, memStats, cpuSlow, memSlow
      ensures d == DriftIndex(settings, cpus, mems)
    {
      Max(Divergence(cpuStats.MeanValue().value, cpuSlow.Value().value),
          Divergence(memStats.MeanValue().value, memSlow.Value().value))
    }

    /** Step 2 of Update: feed every accumulator. */
    method Track(cpu: real, mem: real)
      requires Tracking()
      modifies this`n, this`lastCpu, this`lastMem, this`cpus, this`mems
      modifies cpuStats, memStats, cpuSlow, memSlow
      ensures Tracking()
      ensures cpus == old(cpus) + [cpu] && mems == old(mems) + [mem] && lastCpu == cpu && lastMem == mem
    {
      Feed(cpuStats, cpuSlow, cpu);
      assert memStats.Valid() && memSlow.Valid();
      Feed(memStats, memSlow, mem);
      assert cpuStats.Valid() && cpuSlow.Valid();
      n := n + 1;
      lastCpu, lastMem := cpu, mem;
      cpus, mems := cpus + [cpu], mems + [mem];
    }

    /** Step 1: the combined score of a new pair against the state before it. */
    function Score(cpu: real, mem: real): (z: real)
      requires Tracking() && n > 0
      reads this, cpuStats, memStats, cpuSlow, memSlow
      ensures z == Surprise(settings.fast, cpus, cpu) + Surprise(settings.fast, mems, mem)
    {
      ScoreSquared(cpu, cpuStats.MeanValue().value, cpuStats.Variance())
      + ScoreSquared(mem, memStats.MeanValue().value, memStats.Variance())
    }

    /** Update for a pair of numbers. */
    method Observe(cpu: real, mem: real) returns (anomalous: bool)
      requires Tracking()
      modifies this, cpuStats, memStats, cpuSlow, memSlow
      ensures Valid() && cpus == old(cpus) + [cpu] && mems == old(mems) + [mem]
      ensures lastCpu == cpu && lastMem == mem && anomalous == Anomalous(settings, cpus, mems)
    {
      hide LastScore, Anomalous, Surprise, ScoreSquared, DriftIndex, Divergence, Mean, Vr, Tracks, Square;
      JudgeNext(settings, cpus, mems, cpu, mem);
      var z := 0.0;
      if n + 1 > settings.minSamples {
        z := Score(cpu, mem);
      }
      zSquared := Some(z);
      Track(cpu, mem);
      driftIndex := CurrentDrift();
      drifting := n >= settings.minSamples && driftIndex > settings.driftThreshold;
      anomalous := n >= settings.minSamples && z >= Square(settings.threshold);
    }

    /** The verdict compares the new pair with the earlier stream only, so a spike cannot mask itself. */
    method Update(cpu: Option<real>, mem: Option<real>) returns (anomalous: bool)
      requires Valid()
      modifies this, cpuStats, memStats, cpuSlow, memSlow
      ensures Valid()
      ensures cpu == None || mem == None ==>
                !anomalous && cpus == old(cpus) && mems == old(mems)
      ensures cpu.Some? && mem.Some? ==>
                && cpus == old(cpus) + [cpu.value] && mems == old(mems) + [mem.value]
                && lastCpu == cpu.value && lastMem == mem.value
                && anomalous == Anomalous(settings, cpus, mems)
    {
      if cpu.None? || mem.None? {
        return false;
      }
      anomalous := Observe(cpu.value, mem.value);
    }

    method Reset()
      requires Valid()
      modifies this, cpuStats, memStats, cpuSlow, memSlow
      ensures Valid() && cpus == [] && mems == []
    {
      cpuStats.Reset();
      memStats.Reset();
      cpuSlow.Reset();
      memSlow.Reset();
      n, lastCpu, lastMem, driftIndex, drifting := 0, 0.0, 0.0, 0.0, false;
      zSquared := None;
      cpus, mems := [], [];
    }
  }

  lemma ZeroBelowThreshold(t: real)
    requires t > 0.0
    ensures Square(t) > 0.0
  {
    SquareBelow(0.0, t);
    if Square(t) == 0.0 {
      ProductZero(t, t);
    }
  }

  // --- The verdict on the two streams -----------------------------------------------------------

  /** The deviation of the stream is taken from its variance; otherwise from the size of its mean. */
  predicate Varies(alpha: real, before: seq<real>)
    requires before != []
  {
    |before| >= 2 && Vr(alpha, before) > MIN_VARIANCE
  }

  /** The square of the distance from the mean that scores 1. */
  function SquaredUnit(alpha: real, before: seq<real>): (u: real)
    requires before != []
    ensures u > 0.0
  {
    if Varies(alpha, before) then Vr(alpha, before)
    else
      UnitPositive(Max(1.0, Abs(Mean(alpha, before))));
      Square(Max(1.0, Abs(Mean(alpha, before))))
  }

  lemma UnitPositive(x: real)
    requires x >= 1.0
    ensures Square(x) > 0.0
  {
  }

  lemma QuotientTimes(d: real, u: real)
    requires u > 0.0
    ensures d / u * u == d
  {
  }

  lemma SquaredQuotient(d: real, m: real)
    requires m > 0.0
    ensures Square(d / m) * Square(m) == Square(d)
  {
    var q := d / m;
    QuotientTimes(d, m);
    assert (q * q) * (m * m) == (q * m) * (q * m);
  }

  /** What a surprise measures: the squared distance from the mean, in units of the stream before it. */
  lemma {:induction false} SurpriseIs(alpha: real, before: seq<real>, x: real)
    requires before != []
    ensures |before| >= 2 && Vr(alpha, before) > MIN_VARIANCE ==>
              Surprise(alpha, before, x) * Vr(alpha, before) == Square(x - Mean(alpha, before))
    ensures |before| < 2 || Vr(alpha, before) <= MIN_VARIANCE ==>
              Surprise(alpha, before, x) * Square(Max(1.0, Abs(Mean(alpha, before))))
              == Square(x - Mean(alpha, before))
  {
    hide Mean, Vr, Square;
    var d := x - Mean(alpha, before);
    if Varies(alpha, before) {
      QuotientTimes(Square(d), Vr(alpha, before));
    } else {
      SquaredQuotient(d, Max(1.0, Abs(Mean(alpha, before))));
    }
  }

  lemma {:induction false} SurpriseInUnits(alpha: real, before: seq<real>, x: real)
    requires before != []
    ensures Surprise(alpha, before, x) * SquaredUnit(alpha, before) == Square(x - Mean(alpha, before))
  {
    hide Mean, Vr, Square, Surprise;
    SurpriseIs(alpha, before, x);
  }

  lemma CrossMultiply(p: real, q: real, u: real, v: real, d: real, e: real)
    requires p * u == d && q * v == e
    ensures (p + q) * u * v == d * v + e * u
  {
    assert (p + q) * u * v == (p * u) * v + (q * v) * u;
  }

  lemma CrossOrder(x: real, t: real, w: real)
    requires w > 0.0
    ensures x >= t <==> x * w >= t * w
  {
    assert (x - t) * w == x * w - t * w;
    if x >= t {
      ProductNonnegative(x - t, w);
    } else {
      assert (t - x) * w > 0.0;
    }
  }

  /** A combined score on a common denominator, and its comparison with a threshold. */
  lemma CommonDenominator(p: real, q: real, u: real, v: real, d: real, e: real, t: real)
    requires u > 0.0 && v > 0.0 && p * u == d && q * v == e
    ensures (p + q) * u * v == d * v + e * u
    ensures p + q >= t <==> d * v + e * u >= t * u * v
  {
    CrossMultiply(p, q, u, v, d, e);
    Assoc(p + q, u, v);
    Assoc(t, u, v);
    assert u * v > 0.0;
    CrossOrder(p + q, t, u * v);
  }

  lemma Assoc(x: real, u: real, v: real)
    ensures x * u * v == x * (u * v)
  {
  }

  /** The squared score past the warm-up, free of divisions, and 0 before. */
  lemma {:induction false} LastScoreIs(s: Settings, cpus: seq<real>, mems: seq<real>)
    requires s.Valid() && |cpus| == |mems| && cpus != []
    ensures |cpus| <= s.minSamples ==> LastScore(s, cpus, mems) == 0.0
    ensures |cpus| > s.minSamples ==>
              var (n, a) := (|cpus| - 1, s.fast);
              var (u, v) := (SquaredUnit(a, cpus[..n]), SquaredUnit(a, mems[..n]));
              LastScore(s, cpus, mems) * u * v
              == Square(cpus[n] - Mean(a, cpus[..n])) * v + Square(mems[n] - Mean(a, mems[..n])) * u
  {
    hide Mean, Vr, Square, Surprise, SquaredUnit;
    if |cpus| > s.minSamples {
      var n := |cpus| - 1;
      SurpriseInUnits(s.fast, cpus[..n], cpus[n]);
      SurpriseInUnits(s.fast, mems[..n], mems[n]);
      CrossMultiply(Surprise(s.fast, cpus[..n], cpus[n]), Surprise(s.fast, mems[..n], mems[n]),
                    SquaredUnit(s.fast, cpus[..n]), SquaredUnit(s.fast, mems[..n]),
                    Square(cpus[n] - Mean(s.fast, cpus[..n])), Square(mems[n] - Mean(s.fast, mems[..n])));
    }
  }

  /**
   * The verdict on any two streams, from means and variances alone: past the warm-up, the squared
   * distances of the two metrics, each in units of its own stream, add up to the squared threshold.
   */
  lemma {:induction false} VerdictIff(s: Settings, cpus: seq<real>, mems: seq<real>)
    requires s.Valid() && |cpus| == |mems| && cpus != []
    ensures Anomalous(s, cpus, mems) <==>
            && |cpus| > s.minSamples
            && var (n, a) := (|cpus| - 1, s.fast);
               var (u, v) := (SquaredUnit(a, cpus[..n]), SquaredUnit(a, mems[..n]));
               Square(cpus[n] - Mean(a, cpus[..n])) * v + Square(mems[n] - Mean(a, mems[..n])) * u
               >= Square(s.threshold) * u * v
  {
    hide Mean, Vr, Square, Surprise, SquaredUnit;
    if |cpus| > s.minSamples {
      var n := |cpus| - 1;
      SurpriseInUnits(s.fast, cpus[..n], cpus[n]);
      SurpriseInUnits(s.fast, mems[..n], mems[n]);
      CommonDenominator(Surprise(s.fast, cpus[..n], cpus[n]), Surprise(s.fast, mems[..n], mems[n]),
                        SquaredUnit(s.fast, cpus[..n]), SquaredUnit(s.fast, mems[..n]),
                        Square(cpus[n] - Mean(s.fast, cpus[..n])), Square(mems[n] - Mean(s.fast, mems[..n])),
                        Square(s.threshold));
    }
  }

  /** Two varying baselines: their variances are the units. */
  lemma {:induction false} VaryingVerdict(s: Settings, cpus: seq<real>, mems: seq<real>, x: real, y: real)
    requires s.Valid() && |cpus| == |mems| >= 2 && |cpus| >= s.minSamples
    requires Vr(s.fast, cpus) > MIN_VARIANCE && Vr(s.fast, mems) > MIN_VARIANCE
    ensures Anomalous(s, cpus + [x], mems + [y]) <==>
            Square(x - Mean(s.fast, cpus)) * Vr(s.fast, mems) + Square(y - Mean(s.fast, mems)) * Vr(s.fast, cpus)
            >= Square(s.threshold) * Vr(s.fast, cpus) * Vr(s.fast, mems)
  {
    hide Anomalous, Mean, Vr, Square;
    VerdictIff(s, cpus + [x], mems + [y]);
    assert (cpus + [x])[..|cpus|] == cpus && (mems + [y])[..|mems|] == mems;
  }

  /** One varying metric beside one that is flat or has been seen once: the flat one counts relative to its mean. */
  lemma {:induction false} MixedVerdict(s: Settings, cpus: seq<real>, mems: seq<real>, x: real, y: real)
    requires s.Valid() && |cpus| == |mems| >= 2 && |cpus| >= s.minSamples
    requires Vr(s.fast, cpus) > MIN_VARIANCE && Vr(s.fast, mems) <= MIN_VARIANCE
    ensures var unit := Square(Max(1.0, Abs(Mean(s.fast, mems))));
            Anomalous(s, cpus + [x], mems + [y]) <==>
            Square(x - Mean(s.fast, cpus)) * unit + Square(y - Mean(s.fast, mems)) * Vr(s.fast, cpus)
            >= Square(s.threshold) * Vr(s.fast, cpus) * unit
    ensures Anomalous(s, mems + [y], cpus + [x]) <==> Anomalous(s, cpus + [x], mems + [y])
  {
    hide Mean, Vr, Square, Surprise;
    VerdictIff(s, cpus + [x], mems + [y]);
    assert (cpus + [x])[..|cpus|] == cpus && (mems + [y])[..|mems|] == mems;
  }

  // --- When a drift sets in ---------------------------------------------------------------------

  /** The two horizons of a metric are more than `t` apart, relative to the slow one. */
  predicate Apart(t: real, fast: real, slow: real) {
    Abs(fast - slow) > t * Max(1.0, Abs(slow))
  }

  lemma DivergenceIs(fast: real, slow: real, t: real)
    ensures Divergence(fast, slow) * Max(1.0, Abs(slow)) == Abs(fast - slow)
    ensures Divergence(fast, slow) > t <==> Apart(t, fast, slow)
  {
    hide Abs;
    var d, m := Abs(fast - slow), Max(1.0, Abs(slow));
    QuotientTimes(d, m);
    CrossOrder(t, d / m, m);
  }

  /** The index is the relative gap of one metric and bounds that of the other. */
  lemma {:induction false} DriftIndexIs(s: Settings, cpus: seq<real>, mems: seq<real>)
    requires |cpus| == |mems| && cpus != []
    ensures var (fc, sc) := (Mean(s.fast, cpus), Mean(s.slow, cpus));
            var (fm, sm) := (Mean(s.fast, mems), Mean(s.slow, mems));
            var d := DriftIndex(s, cpus, mems);
            && Abs(fc - sc) <= d * Max(1.0, Abs(sc)) && Abs(fm - sm) <= d * Max(1.0, Abs(sm))
            && (Abs(fc - sc) == d * Max(1.0, Abs(sc)) || Abs(fm - sm) == d * Max(1.0, Abs(sm)))
  {
    hide Mean, Divergence, Abs;
    var d := DriftIndex(s, cpus, mems);
    DivergenceIs(Mean(s.fast, cpus), Mean(s.slow, cpus), d);
    DivergenceIs(Mean(s.fast, mems), Mean(s.slow, mems), d);
  }

  /** A drift is on exactly when, past the warm-up, the horizons of either metric are apart. */
  lemma {:induction false} DriftingIff(s: Settings, cpus: seq<real>, mems: seq<real>)
    requires s.Valid() && |cpus| == |mems|
    ensures Drifting(s, cpus, mems) <==>
            && |cpus| >= s.minSamples
            && (|| Apart(s.driftThreshold, Mean(s.fast, cpus), Mean(s.slow, cpus))
                || Apart(s.driftThreshold, Mean(s.fast, mems), Mean(s.slow, mems)))
  {
    hide Mean, Divergence, Apart;
    if cpus != [] {
      DivergenceIs(Mean(s.fast, cpus), Mean(s.slow, cpus), s.driftThreshold);
      DivergenceIs(Mean(s.fast, mems), Mean(s.slow, mems), s.driftThreshold);
    }
  }

  // --- Two horizons -----------------------------------------------------------------------------

  ghost predicate Nondecreasing(xs: seq<real>) {
    forall i, j :: 0 <= i < j < |xs| ==> xs[i] <= xs[j]
  }

  lemma OrderStep(s: real, f: real, slow: real, fast: real, x: real)
    requires 0.0 < s < f <= 1.0 && slow <= fast <= x
    ensures MeanStep(s, slow, x) <= MeanStep(f, fast, x) <= x
  {
    ProductNonnegative(1.0 - f, x - fast);
    ProductNonnegative(1.0 - f, fast - slow);
    ProductNonnegative(f - s, x - slow);
    assert MeanStep(f, fast, x) - MeanStep(s, slow, x) == (1.0 - f) * (fast - slow) + (f - s) * (x - slow);
    assert x - MeanStep(f, fast, x) == (1.0 - f) * (x - fast);
  }

  /** On a rising stream the slow average trails the fast one, which trails the latest sample. */
  lemma {:induction false} RisingOrder(s: real, f: real, xs: seq<real>)
    requires xs != [] && 0.0 < s < f <= 1.0 && Nondecreasing(xs)
    ensures Mean(s, xs) <= Mean(f, xs) <= xs[|xs| - 1]
  {
    var n := |xs| - 1;
    if n > 0 {
      RisingOrder(s, f, xs[..n]);
      OrderStep(s, f, Mean(s, xs[..n]), Mean(f, xs[..n]), xs[n]);
    }
  }

  ghost predicate Nonincreasing(xs: seq<real>) {
    forall i, j :: 0 <= i < j < |xs| ==> xs[i] >= xs[j]
  }

  function Rescale(k: real, b: real, x: real): real { k * x + b }

  /** The stream in other units. */
  function Rescaled(k: real, b: real, xs: seq<real>): (ys: seq<real>)
    ensures |ys| == |xs| && forall i :: 0 <= i < |xs| ==> ys[i] == Rescale(k, b, xs[i])
  {
    seq(|xs|, i requires 0 <= i < |xs| => Rescale(k, b, xs[i]))
  }

  lemma RescaleStep(alpha: real, k: real, b: real, m: real, v: real, x: real, v': real)
    requires IsTimes(Square(k), v, v')
    ensures MeanStep(alpha, Rescale(k, b, m), Rescale(k, b, x)) == Rescale(k, b, MeanStep(alpha, m, x))
    ensures IsTimes(Square(k), VrStep(alpha, m, v, x), VrStep(alpha, Rescale(k, b, m), v', Rescale(k, b, x)))
  {
    var d := x - m;
    assert Rescale(k, b, x) - Rescale(k, b, m) == k * d;
    RescaleVariance(alpha, k, Square(k), v, v', d, Square(d), Square(k * d));
  }

  lemma RescaleVariance(alpha: real, k: real, kk: real, v: real, v': real, d: real, q: real, q': real)
    requires kk == k * k && v' == kk * v && q == d * d && q' == (k * d) * (k * d)
    ensures Blend(alpha, v', q') == kk * Blend(alpha, v, q)
  {
    assert q' == kk * q;
  }

  lemma {:induction false} RescaledStatistics(alpha: real, xs: seq<real>, k: real, b: real)
    requires xs != []
    ensures Mean(alpha, Rescaled(k, b, xs)) == Rescale(k, b, Mean(alpha, xs))
    ensures IsTimes(Square(k), Vr(alpha, xs), Vr(alpha, Rescaled(k, b, xs)))
  {
    var n := |xs| - 1;
    if n > 0 {
      var before := xs[..n];
      RescaledStatistics(alpha, before, k, b);
      assert Rescaled(k, b, xs)[..n] == Rescaled(k, b, before);
      RescaleStep(alpha, k, b, Mean(alpha, before), Vr(alpha, before), xs[n], Vr(alpha, Rescaled(k, b, before)));
    }
  }

  lemma ScoreRescaled(k: real, x: real, m: real, v: real, x': real, m': real, v': real)
    requires v > MIN_VARIANCE && v' > MIN_VARIANCE
    requires x' - m' == k * (x - m) && IsTimes(Square(k), v, v')
    ensures ScoreSquared(x', m', Some(v')) == ScoreSquared(x, m, Some(v))
  {
    var d, z := x - m, Square(x - m) / v;
    assert z * v == Square(d);
    assert Square(k * d) == Square(k) * Square(d);
    assert Square(k) * (z * v) == z * (Square(k) * v);
    assert Square(x' - m') == z * v';
    assert Square(x' - m') / v' == z;
  }

  /** The score has no unit: rescaling the stream and the sample alike leaves it unchanged. */
  lemma ScoreIsScaleFree(alpha: real, before: seq<real>, x: real, k: real, b: real)
    requires |before| >= 2
    requires Vr(alpha, before) > MIN_VARIANCE && Vr(alpha, Rescaled(k, b, before)) > MIN_VARIANCE
    ensures Surprise(alpha, Rescaled(k, b, before), Rescale(k, b, x)) == Surprise(alpha, before, x)
  {
    var m, after := Mean(alpha, before), Rescaled(k, b, before);
    RescaledStatistics(alpha, before, k, b);
    RescaledGap(k, b, x, m);
    ScoreRescaled(k, x, m, Vr(alpha, before), Rescale(k, b, x), Mean(alpha, after), Vr(alpha, after));
  }

  lemma RescaledGap(k: real, b: real, x: real, m: real)
    ensures Rescale(k, b, x) - Rescale(k, b, m) == k * (x - m)
  {
  }

  /** The mirror image, for a falling stream. */
  lemma FallingOrder(s: real, f: real, xs: seq<real>)
    requires xs != [] && 0.0 < s < f <= 1.0 && Nonincreasing(xs)
    ensures xs[|xs| - 1] <= Mean(f, xs) <= Mean(s, xs)
  {
    RisingOrder(s, f, Rescaled(-1.0, 0.0, xs));
    RescaledStatistics(s, xs, -1.0, 0.0);
    RescaledStatistics(f, xs, -1.0, 0.0);
  }

  /** A stream that stays at `c` for `m` samples and then at `d` for `k`. */
  function StepStream(c: real, m: nat, d: real, k: nat): (xs: seq<real>)
    ensures |xs| == m + k
  {
    seq(m + k, i requires 0 <= i < m + k => if i < m then c else d)
  }

  /** `m` lies at fraction `p` of the way back from `d` to `c`. */
  predicate IsDecayed(c: real, d: real, p: real, m: real) {
    m == d + (c - d) * p
  }

  /** After a step from `c` to `d`, the distance left to `d` decays geometrically. */
  lemma {:induction false} StepResponse(alpha: real, c: real, m: nat, d: real, k: nat)
    requires m > 0
    ensures IsDecayed(c, d, Pow(1.0 - alpha, k), Mean(alpha, StepStream(c, m, d, k)))
    decreases k, m
  {
    var xs := StepStream(c, m, d, k);
    if k == 0 {
      if m > 1 {
        StepResponse(alpha, c, m - 1, d, 0);
        assert xs[..m - 1] == StepStream(c, m - 1, d, 0);
      }
    } else {
      StepResponse(alpha, c, m, d, k - 1);
      assert xs[..m + k - 1] == StepStream(c, m, d, k - 1);
      DecayStep(alpha, c, d, Pow(1.0 - alpha, k - 1), Mean(alpha, StepStream(c, m, d, k - 1)));
    }
  }

  lemma DecayStep(alpha: real, c: real, d: real, p: real, m: real)
    requires IsDecayed(c, d, p, m)
    ensures IsDecayed(c, d, (1.0 - alpha) * p, MeanStep(alpha, m, d))
  {
  }

  lemma {:induction false} PowOrder(a: real, b: real, k: nat)
    requires 0.0 <= a <= b
    ensures 0.0 <= Pow(a, k) <= Pow(b, k)
  {
    if k > 0 {
      PowOrder(a, b, k - 1);
      assert a * Pow(a, k - 1) <= b * Pow(a, k - 1) <= b * Pow(b, k - 1);
    }
  }

  /** The drift signal after a step: size of the step times the difference of the two decays. */
  lemma StepGap(s: real, f: real, c: real, m: nat, d: real, k: nat)
    requires m > 0 && 0.0 < s < f <= 1.0
    ensures var xs := StepStream(c, m, d, k);
            IsTimes(Abs(d - c), Pow(1.0 - s, k) - Pow(1.0 - f, k), Abs(Mean(f, xs) - Mean(s, xs)))
  {
    StepResponse(s, c, m, d, k);
    StepResponse(f, c, m, d, k);
    PowOrder(1.0 - f, 1.0 - s, k);
    var xs := StepStream(c, m, d, k);
    GapAlgebra(c, d, Pow(1.0 - s, k), Pow(1.0 - f, k), Mean(s, xs), Mean(f, xs));
  }

  lemma GapAlgebra(c: real, d: real, ps: real, pf: real, slow: real, fast: real)
    requires ps >= pf && IsDecayed(c, d, ps, slow) && IsDecayed(c, d, pf, fast)
    ensures IsTimes(Abs(d - c), ps - pf, Abs(fast - slow))
  {
    assert fast - slow == (d - c) * (ps - pf);
    if d >= c {
      ProductNonnegative(d - c, ps - pf);
    } else {
      ProductNonnegative(c - d, ps - pf);
      assert (c - d) * (ps - pf) == -((d - c) * (ps - pf));
    }
  }

  // --- Flat baselines ---------------------------------------------------------------------------

  lemma {:induction false} FlatVariance(alpha: real, c: real, m: nat)
    requires m > 0
    ensures Mean(alpha, StepStream(c, m, c, 0)) == c && Vr(alpha, StepStream(c, m, c, 0)) == 0.0
  {
    if m > 1 {
      FlatVariance(alpha, c, m - 1);
      assert StepStream(c, m, c, 0)[..m - 1] == StepStream(c, m - 1, c, 0);
      assert MeanStep(alpha, c, c) == c && VrStep(alpha, c, 0.0, c) == 0.0;
    }
  }

  /** After any flat baseline, an alarm is exactly a large enough combined relative jump. */
  lemma JumpFromFlatBaseline(s: Settings, c: real, e: real, m: nat, x: real, y: real)
    requires s.Valid() && m >= s.minSamples
    ensures var (cpus, mems) := (StepStream(c, m, c, 0) + [x], StepStream(e, m, e, 0) + [y]);
            Anomalous(s, cpus, mems) <==>
            Square((x - c) / Max(1.0, Abs(c))) + Square((y - e) / Max(1.0, Abs(e))) >= Square(s.threshold)
  {
    FlatVariance(s.fast, c, m);
    FlatVariance(s.fast, e, m);
    assert (StepStream(c, m, c, 0) + [x])[..m] == StepStream(c, m, c, 0);
    assert (StepStream(e, m, e, 0) + [y])[..m] == StepStream(e, m, e, 0);
  }

  lemma DivergenceBounds(fast: real, slow: real)
    ensures Divergence(fast, slow) >= 0.0 && (fast == slow ==> Divergence(fast, slow) == 0.0)
  {
  }

  /** The drift of one metric, k samples after it steps from `c` to `d`. */
  function StepDivergence(s: Settings, c: real, d: real, k: nat): real {
    DecayedDivergence(c, d, Pow(1.0 - s.slow, k), Pow(1.0 - s.fast, k))
  }

  function DecayedDivergence(c: real, d: real, ps: real, pf: real): real {
    Abs(d - c) * (ps - pf) / Max(1.0, Abs(d + (c - d) * ps))
  }

  lemma DivergenceOfDecays(c: real, d: real, ps: real, pf: real, slow: real, fast: real)
    requires IsTimes(Abs(d - c), ps - pf, Abs(fast - slow)) && IsDecayed(c, d, ps, slow)
    ensures Divergence(fast, slow) == DecayedDivergence(c, d, ps, pf)
  {
  }

  lemma StepDiverges(s: Settings, c: real, m: nat, d: real, k: nat)
    requires s.Valid() && m > 0
    ensures var xs := StepStream(c, m, d, k);
            Divergence(Mean(s.fast, xs), Mean(s.slow, xs)) == StepDivergence(s, c, d, k)
  {
    var xs := StepStream(c, m, d, k);
    StepGap(s.slow, s.fast, c, m, d, k);
    StepResponse(s.slow, c, m, d, k);
    DivergenceOfDecays(c, d, Pow(1.0 - s.slow, k), Pow(1.0 - s.fast, k), Mean(s.slow, xs), Mean(s.fast, xs));
  }

  /** While the other metric stays flat, that is the drift index. */
  lemma DriftAfterStep(s: Settings, c: real, m: nat, d: real, k: nat, e: real)
    requires s.Valid() && m > 0
    ensures DriftIndex(s, StepStream(c, m, d, k), StepStream(e, m + k, e, 0)) == StepDivergence(s, c, d, k)
    ensures DriftIndex(s, StepStream(e, m + k, e, 0), StepStream(c, m, d, k)) == StepDivergence(s, c, d, k)
  {
    var xs := StepStream(c, m, d, k);
    StepDiverges(s, c, m, d, k);
    DivergenceBounds(Mean(s.fast, xs), Mean(s.slow, xs));
    FlatVariance(s.fast, e, m + k);
    FlatVariance(s.slow, e, m + k);
    DivergenceBounds(e, e);
  }
}
