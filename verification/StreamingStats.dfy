/**
 * Exponentially weighted mean and variance (internal/engine/stats.go, internal/engine/ewma.go),
 * over exact reals. The recurrences are proved equal to batch sums with explicit weights.
 */
module StreamingStats {

  datatype Option<T> = None | Some(value: T) // None stands for NaN

  // --- The recurrences, as functions of the samples so far ---------------------------------------

  /** Smoothing factors as both constructors clamp them. */
  function ClampAlpha(alpha: real): (a: real)
    ensures 0.0 < a <= 1.0
    ensures 0.0 < alpha <= 1.0 ==> a == alpha
  {
    if alpha <= 0.0 then 0.5 else if alpha > 1.0 then 1.0 else alpha
  }

  function Square(x: real): real { x * x }

  function MeanStep(alpha: real, mean: real, x: real): real {
    mean + alpha * (x - mean)
  }

  function Blend(alpha: real, previous: real, latest: real): real {
    (1.0 - alpha) * previous + alpha * latest
  }

  function VrStep(alpha: real, mean: real, vr: real, x: real): real {
    Blend(alpha, vr, Square(x - mean))
  }

  function Mean(alpha: real, xs: seq<real>): real
    requires xs != []
  {
    var n := |xs| - 1;
    if n == 0 then xs[0] else MeanStep(alpha, Mean(alpha, xs[..n]), xs[n])
  }

  function Vr(alpha: real, xs: seq<real>): real
    requires xs != []
  {
    var n := |xs| - 1;
    if n == 0 then 0.0 else VrStep(alpha, Mean(alpha, xs[..n]), Vr(alpha, xs[..n]), xs[n])
  }

  lemma StepsAgree(alpha: real, mean: real, vr: real, x: real, diff: real)
    requires diff == x - mean
    ensures mean + alpha * diff == MeanStep(alpha, mean, x)
    ensures (1.0 - alpha) * vr + alpha * (diff * diff) == VrStep(alpha, mean, vr, x)
  {
  }

  lemma Grow(alpha: real, xs: seq<real>, x: real)
    requires xs != []
    ensures Mean(alpha, xs + [x]) == MeanStep(alpha, Mean(alpha, xs), x)
    ensures Vr(alpha, xs + [x]) == VrStep(alpha, Mean(alpha, xs), Vr(alpha, xs), x)
  {
    assert (xs + [x])[..|xs|] == xs;
  }

  /** The two accumulators hold the statistics of `xs`. */
  predicate Tracks(alpha: real, xs: seq<real>, mean: real, vr: real) {
    xs != [] && mean == Mean(alpha, xs) && vr == Vr(alpha, xs)
  }

  lemma TracksNext(alpha: real, xs: seq<real>, mean: real, vr: real, x: real, diff: real)
    requires Tracks(alpha, xs, mean, vr) && diff == x - mean
    ensures Tracks(alpha, xs + [x], mean + alpha * diff, (1.0 - alpha) * vr + alpha * (diff * diff))
  {
    Grow(alpha, xs, x);
    StepsAgree(alpha, mean, vr, x, diff);
  }

  /** The recurrence of Update. */
  method Step(alpha: real, ghost xs: seq<real>, mean: real, vr: real, x: real) returns (mean': real, vr': real)
    requires Tracks(alpha, xs, mean, vr)
    ensures Tracks(alpha, xs + [x], mean', vr')
  {
    var diff := x - mean;
    TracksNext(alpha, xs, mean, vr, x, diff);
    mean' := mean + alpha * diff;
    vr' := (1.0 - alpha) * vr + alpha * (diff * diff);
  }

  class StreamingStats {
    const alpha: real
    var mean: real
    var vr: real
    var count: nat
    var init: bool
    ghost var samples: seq<real> // fed since construction or the last Reset

    ghost predicate Valid()
      reads this
    {
      && 0.0 < alpha <= 1.0
      && count == |samples| && (init <==> samples != [])
      && (samples != [] ==> Tracks(alpha, samples, mean, vr))
    }

    constructor (requested: real)
      ensures Valid() && samples == [] && alpha == ClampAlpha(requested)
    {
      var a := requested;
      if requested <= 0.0 {
        a := 0.5;
      } else if requested > 1.0 {
        a := 1.0;
      }
      alpha := a;
      mean, vr, count, init, samples := 0.0, 0.0, 0, false, [];
    }

    method Update(x: real)
      requires Valid()
      modifies this
      ensures Valid() && samples == old(samples) + [x]
    {
      count := count + 1;
      if !init {
        mean := x;
        vr := 0.0;
        init := true;
        samples := [x];
        return;
      }
      mean, vr := Step(alpha, samples, mean, vr, x);
      samples := samples + [x];
    }

    function MeanValue(): (m: Option<real>)
      requires Valid()
      reads this
      ensures m == if samples == [] then None else Some(Mean(alpha, samples))
    {
      if !init then None else Some(mean)
    }

    function Variance(): (v: Option<real>)
      requires Valid()
      reads this
      ensures v == if |samples| < 2 then None else Some(Vr(alpha, samples))
    {
      if count < 2 then None else Some(vr)
    }

    method Reset()
      requires Valid()
      modifies this
      ensures Valid() && samples == []
    {
      mean, vr, count, init, samples := 0.0, 0.0, 0, false, [];
    }
  }

  class Ewma {
    const alpha: real
    var value: real
    var init: bool
    ghost var samples: seq<real>

    ghost predicate Valid()
      reads this
    {
      && 0.0 < alpha <= 1.0
      && (init <==> samples != [])
      && (samples != [] ==> value == Mean(alpha, samples))
    }

    constructor (requested: real)
      ensures Valid() && samples == [] && alpha == ClampAlpha(requested)
    {
      var a := requested;
      if requested > 1.0 {
        a := 1.0;
      } else if requested <= 0.0 {
        a := 0.5;
      }
      alpha := a;
      value, init, samples := 0.0, false, [];
    }

    /** Written as alpha*x + (1-alpha)*value, yet it computes the same average as StreamingStats. */
    method Update(x: real)
      requires Valid()
      modifies this
      ensures Valid() && samples == old(samples) + [x]
    {
      if samples != [] {
        Grow(alpha, samples, x);
      }
      samples := samples + [x];
      if !init {
        value := x;
        init := true;
        return;
      }
      value := alpha * x + (1.0 - alpha) * value;
    }

    function Value(): (v: Option<real>)
      requires Valid()
      reads this
      ensures v == if samples == [] then None else Some(Mean(alpha, samples))
    {
      if !init then None else Some(value)
    }

    method Reset()
      requires Valid()
      modifies this
      ensures Valid() && samples == []
    {
      value, init, samples := 0.0, false, [];
    }
  }

  // --- Batch definitions ------------------------------------------------------------------------

  function Pow(b: real, k: nat): real {
    if k == 0 then 1.0 else b * Pow(b, k - 1)
  }

  /** The weight of sample `i` after `n` samples: geometric decay, with the rest on the first. */
  function Weight(alpha: real, n: nat, i: nat): real
    requires i < n
  {
    if i == 0 then Pow(1.0 - alpha, n - 1) else alpha * Pow(1.0 - alpha, n - 1 - i)
  }

  function Weights(alpha: real, n: nat): (w: seq<real>)
    ensures |w| == n
  {
    seq(n, i requires 0 <= i < n => Weight(alpha, n, i))
  }

  function Dot(w: seq<real>, y: seq<real>): real
    requires |w| == |y|
  {
    if w == [] then 0.0
    else Dot(w[..|w| - 1], y[..|w| - 1]) + w[|w| - 1] * y[|w| - 1]
  }

  function Image(xs: seq<real>, f: real -> real): (y: seq<real>)
    ensures |y| == |xs|
  {
    seq(|xs|, i requires 0 <= i < |xs| => f(xs[i]))
  }

  /** The weighted sum of `f` over all samples. */
  function Total(alpha: real, xs: seq<real>, f: real -> real): real {
    Dot(Weights(alpha, |xs|), Image(xs, f))
  }

  predicate IsTimes(q: real, a: real, b: real) { b == q * a }

  ghost predicate Scaled(q: real, w: seq<real>, w': seq<real>) {
    |w| == |w'| && forall i :: 0 <= i < |w| ==> w'[i] == q * w[i]
  }

  lemma {:induction false} DotScales(q: real, w: seq<real>, w': seq<real>, y: seq<real>)
    requires |w| == |y| && Scaled(q, w, w')
    ensures IsTimes(q, Dot(w, y), Dot(w', y))
  {
    if w != [] {
      var n := |w| - 1;
      DotScales(q, w[..n], w'[..n], y[..n]);
      assert (q * w[n]) * y[n] == q * (w[n] * y[n]);
    }
  }

  /** One more sample scales every earlier weight by 1 - alpha. */
  lemma WeightDecays(alpha: real, n: nat, i: nat)
    requires i < n
    ensures Weight(alpha, n + 1, i) == (1.0 - alpha) * Weight(alpha, n, i)
  {
    var q := 1.0 - alpha;
    if i > 0 {
      var p := Pow(q, n - 1 - i);
      assert Pow(q, n - i) == q * p;
      assert alpha * (q * p) == q * (alpha * p);
    } else {
      assert Pow(q, n) == q * Pow(q, n - 1);
    }
  }

  lemma WeightsNext(alpha: real, n: nat)
    requires n > 0
    ensures Weights(alpha, n + 1)[n] == alpha
    ensures Scaled(1.0 - alpha, Weights(alpha, n), Weights(alpha, n + 1)[..n])
  {
    forall i | 0 <= i < n ensures Weights(alpha, n + 1)[..n][i] == (1.0 - alpha) * Weights(alpha, n)[i] {
      WeightDecays(alpha, n, i);
    }
    assert Pow(1.0 - alpha, 0) == 1.0;
  }

  lemma DotSnoc(w: seq<real>, y: seq<real>, a: real, z: real)
    requires |w| == |y|
    ensures Dot(w + [a], y + [z]) == Dot(w, y) + a * z
  {
    assert (w + [a])[..|w|] == w && (y + [z])[..|w|] == y;
  }

  lemma DotNext(alpha: real, w: seq<real>, scaled: seq<real>, y: seq<real>, z: real)
    requires |w| == |y| && Scaled(1.0 - alpha, w, scaled)
    ensures Dot(scaled + [alpha], y + [z]) == Blend(alpha, Dot(w, y), z)
  {
    DotScales(1.0 - alpha, w, scaled, y);
    DotSnoc(scaled, y, alpha, z);
    BlendBy(alpha, Dot(w, y), Dot(scaled, y), z, Dot(scaled + [alpha], y + [z]));
  }

  lemma BlendBy(alpha: real, previous: real, scaled: real, latest: real, total: real)
    requires IsTimes(1.0 - alpha, previous, scaled) && total == scaled + alpha * latest
    ensures total == Blend(alpha, previous, latest)
  {
  }

  lemma TotalNext(alpha: real, xs: seq<real>, x: real, f: real -> real)
    requires xs != []
    ensures Total(alpha, xs + [x], f) == Blend(alpha, Total(alpha, xs, f), f(x))
  {
    WeightsNext(alpha, |xs|);
    assert Image(xs + [x], f) == Image(xs, f) + [f(x)];
    var scaled := Weights(alpha, |xs| + 1)[..|xs|];
    assert Weights(alpha, |xs| + 1) == scaled + [alpha];
    DotNext(alpha, Weights(alpha, |xs|), scaled, Image(xs, f), f(x));
  }

  lemma TotalFirst(alpha: real, xs: seq<real>, f: real -> real)
    requires |xs| == 1
    ensures Total(alpha, xs, f) == f(xs[0])
  {
    var w, y := Weights(alpha, 1), Image(xs, f);
    assert Pow(1.0 - alpha, 0) == 1.0;
    assert w[0] == 1.0 && w[..0] == [] && y[..0] == [];
    assert Dot(w[..0], y[..0]) == 0.0;
  }

  function Unit(x: real): real { 1.0 }

  function Self(x: real): real { x }

  lemma {:induction false} WeightsSumToOne(alpha: real, xs: seq<real>)
    requires xs != []
    ensures Total(alpha, xs, Unit) == 1.0
  {
    var n := |xs| - 1;
    if n == 0 {
      TotalFirst(alpha, xs, Unit);
    } else {
      WeightsSumToOne(alpha, xs[..n]);
      TotalNext(alpha, xs[..n], xs[n], Unit);
      assert xs == xs[..n] + [xs[n]];
    }
  }

  lemma {:induction false} MeanIsWeightedMean(alpha: real, xs: seq<real>)
    requires xs != []
    ensures Mean(alpha, xs) == Total(alpha, xs, Self)
  {
    var n := |xs| - 1;
    if n == 0 {
      TotalFirst(alpha, xs, Self);
    } else {
      MeanIsWeightedMean(alpha, xs[..n]);
      TotalNext(alpha, xs[..n], xs[n], Self);
      assert xs == xs[..n] + [xs[n]];
    }
  }

  function SquareFrom(c: real): real -> real { x => Square(x - c) }

  /** Spread `t` around `c`: the scaled variance, shifted by the distance to the mean. */
  predicate IsSpread(alpha: real, t: real, m: real, v: real, c: real) {
    t == (1.0 - alpha) * v + Square(m - c)
  }

  /** The recurrence's variance measures spread around any centre (the parallel-axis rule). */
  lemma {:induction false} SpreadAround(alpha: real, xs: seq<real>, c: real)
    requires xs != []
    ensures IsSpread(alpha, Total(alpha, xs, SquareFrom(c)), Mean(alpha, xs), Vr(alpha, xs), c)
  {
    var n := |xs| - 1;
    if n == 0 {
      TotalFirst(alpha, xs, SquareFrom(c));
    } else {
      var before, x := xs[..n], xs[n];
      SpreadAround(alpha, before, c);
      TotalNext(alpha, before, x, SquareFrom(c));
      assert xs == before + [x];
      SpreadStep(alpha, Mean(alpha, before), Vr(alpha, before), x, c, Total(alpha, before, SquareFrom(c)));
    }
  }

  lemma SpreadIdentity(a: real, m: real, v: real, x: real, c: real,
                       t: real, t': real, m': real, v': real, mc: real, xc: real, xm: real, mc': real)
    requires mc == (m - c) * (m - c) && xc == (x - c) * (x - c) && xm == (x - m) * (x - m)
    requires m' == m + a * (x - m) && mc' == (m' - c) * (m' - c)
    requires t == (1.0 - a) * v + mc && t' == (1.0 - a) * t + a * xc && v' == (1.0 - a) * v + a * xm
    ensures t' == (1.0 - a) * v' + mc'
  {
  }

  lemma SpreadStep(a: real, m: real, v: real, x: real, c: real, t: real)
    requires IsSpread(a, t, m, v, c)
    ensures IsSpread(a, Blend(a, t, Square(x - c)), MeanStep(a, m, x), VrStep(a, m, v, x), c)
  {
    var m' := MeanStep(a, m, x);
    SpreadIdentity(a, m, v, x, c, t, Blend(a, t, Square(x - c)), m', VrStep(a, m, v, x),
                   Square(m - c), Square(x - c), Square(x - m), Square(m' - c));
  }

  /** What `vr` measures: the weighted variance, inflated by 1/(1 - alpha). */
  lemma VrIsInflatedVariance(alpha: real, xs: seq<real>)
    requires xs != []
    ensures IsTimes(1.0 - alpha, Vr(alpha, xs), Total(alpha, xs, SquareFrom(Mean(alpha, xs))))
  {
    SpreadAround(alpha, xs, Mean(alpha, xs));
    SpreadAtMean(alpha, Total(alpha, xs, SquareFrom(Mean(alpha, xs))), Mean(alpha, xs), Vr(alpha, xs));
  }

  lemma SpreadAtMean(alpha: real, t: real, m: real, v: real)
    requires IsSpread(alpha, t, m, v, m)
    ensures IsTimes(1.0 - alpha, v, t)
  {
  }

  lemma SquareZero(x: real, y: real)
    ensures Square(x - y) >= 0.0 && (Square(x - y) == 0.0 <==> x == y)
  {
    SquareBelow(x - y, if x < y then y - x else x - y);
    if Square(x - y) == 0.0 {
      ProductZero(x - y, x - y);
    }
  }

  /** A proper blend of nonnegative parts vanishes only when both do. */
  lemma BlendZero(alpha: real, previous: real, latest: real)
    requires 0.0 < alpha < 1.0 && previous >= 0.0 && latest >= 0.0
    ensures Blend(alpha, previous, latest) == 0.0 <==> previous == 0.0 && latest == 0.0
  {
    var p, l := (1.0 - alpha) * previous, alpha * latest;
    ProductNonnegative(1.0 - alpha, previous);
    ProductNonnegative(alpha, latest);
    if p == 0.0 {
      ProductZero(1.0 - alpha, previous);
    }
    if l == 0.0 {
      ProductZero(alpha, latest);
    }
  }

  lemma ProductZero(x: real, y: real)
    requires x * y == 0.0
    ensures x == 0.0 || y == 0.0
  {
  }

  ghost predicate Flat(xs: seq<real>) {
    forall i :: 0 <= i < |xs| ==> xs[i] == xs[0]
  }

  lemma {:induction false} FlatMean(alpha: real, xs: seq<real>)
    requires xs != [] && Flat(xs)
    ensures Mean(alpha, xs) == xs[0]
  {
    if |xs| > 1 {
      FlatMean(alpha, xs[..|xs| - 1]);
    }
  }

  /** Below smoothing factor 1, zero variance is a stream that never moved. */
  lemma {:induction false} VrZeroIffFlat(alpha: real, xs: seq<real>)
    requires xs != [] && 0.0 < alpha < 1.0
    ensures Vr(alpha, xs) >= 0.0 && (Vr(alpha, xs) == 0.0 <==> Flat(xs))
  {
    var n := |xs| - 1;
    if n > 0 {
      var before := xs[..n];
      var m, v, q := Mean(alpha, before), Vr(alpha, before), Square(xs[n] - Mean(alpha, before));
      VrZeroIffFlat(alpha, before);
      SquareZero(xs[n], m);
      BlendZero(alpha, v, q);
      BlendNonnegative(alpha, v, q);
      if Flat(before) {
        FlatMean(alpha, before);
      }
      FlatNext(xs);
    }
  }

  lemma BlendNonnegative(alpha: real, previous: real, latest: real)
    requires 0.0 <= alpha <= 1.0 && previous >= 0.0 && latest >= 0.0
    ensures Blend(alpha, previous, latest) >= 0.0
  {
    ProductNonnegative(1.0 - alpha, previous);
    ProductNonnegative(alpha, latest);
  }

  lemma FlatNext(xs: seq<real>)
    requires |xs| > 1
    ensures Flat(xs) <==> Flat(xs[..|xs| - 1]) && xs[|xs| - 1] == xs[0]
  {
    var n := |xs| - 1;
    assert forall i :: 0 <= i < n ==> xs[..n][i] == xs[i];
  }

  /** With smoothing factor 1 only the last sample is remembered. */
  lemma {:induction false} NoMemory(xs: seq<real>)
    requires xs != []
    ensures Mean(1.0, xs) == xs[|xs| - 1]
    ensures Vr(1.0, xs) == if |xs| == 1 then 0.0 else Square(xs[|xs| - 1] - xs[|xs| - 2])
  {
    if |xs| > 1 {
      NoMemory(xs[..|xs| - 1]);
    }
  }

  /** The streams on which the inflation does not show. */
  ghost predicate VarianceExact(alpha: real, xs: seq<real>) {
    if alpha < 1.0 then Flat(xs) else |xs| < 2 || xs[|xs| - 1] == xs[|xs| - 2]
  }

  /**
   * `vr` is the weighted variance exactly on streams that never moved or, with smoothing factor 1,
   * on those whose last two samples agree.
   */
  lemma VrIsVarianceIff(alpha: real, xs: seq<real>)
    requires xs != [] && 0.0 < alpha <= 1.0
    ensures Vr(alpha, xs) == Total(alpha, xs, SquareFrom(Mean(alpha, xs))) <==> VarianceExact(alpha, xs)
  {
    var v := Vr(alpha, xs);
    VrIsInflatedVariance(alpha, xs);
    InflatedIsExact(alpha, v, Total(alpha, xs, SquareFrom(Mean(alpha, xs))));
    if alpha < 1.0 {
      VrZeroIffFlat(alpha, xs);
    } else {
      NoMemory(xs);
      if |xs| > 1 {
        SquareZero(xs[|xs| - 1], xs[|xs| - 2]);
      }
    }
  }

  lemma InflatedIsExact(alpha: real, v: real, t: real)
    requires 0.0 < alpha && IsTimes(1.0 - alpha, v, t)
    ensures v == t <==> v == 0.0
  {
    assert (1.0 - alpha) * v == v - alpha * v;
    if alpha * v == 0.0 {
      ProductZero(alpha, v);
    }
  }

  /** Two samples suffice to tell them apart: after 0 and 1, vr is alpha and the variance less. */
  lemma TwoSamplesInflate(alpha: real)
    requires 0.0 < alpha <= 1.0
    ensures Vr(alpha, [0.0, 1.0]) == alpha
    ensures Total(alpha, [0.0, 1.0], SquareFrom(Mean(alpha, [0.0, 1.0]))) == (1.0 - alpha) * alpha < alpha
  {
    var xs := [0.0, 1.0];
    assert xs[..1] == [0.0];
    assert Mean(alpha, [0.0]) == 0.0 && Vr(alpha, [0.0]) == 0.0;
    assert Vr(alpha, xs) == VrStep(alpha, 0.0, 0.0, 1.0) == alpha;
    VrIsInflatedVariance(alpha, xs);
    SquareZero(alpha, 0.0);
    assert Square(alpha - 0.0) == alpha * alpha;
  }

  ghost predicate Within(xs: seq<real>, lo: real, hi: real) {
    forall i :: 0 <= i < |xs| ==> lo <= xs[i] <= hi
  }

  /** Averages stay in the range of the samples, and the variance within its square. */
  lemma {:induction false} StaysInRange(alpha: real, xs: seq<real>, lo: real, hi: real)
    requires xs != [] && 0.0 < alpha <= 1.0 && Within(xs, lo, hi)
    ensures lo <= Mean(alpha, xs) <= hi
    ensures 0.0 <= Vr(alpha, xs) <= Square(hi - lo)
  {
    var n := |xs| - 1;
    if n == 0 {
      SquareBelow(0.0, hi - lo);
    } else {
      StaysInRange(alpha, xs[..n], lo, hi);
      var m, x := Mean(alpha, xs[..n]), xs[n];
      Between(alpha, m, x, lo, hi);
      SquareBelow(x - m, hi - lo);
      Between(alpha, Vr(alpha, xs[..n]), Square(x - m), 0.0, Square(hi - lo));
    }
  }

  lemma SquareBelow(d: real, r: real)
    requires -r <= d <= r
    ensures 0.0 <= Square(d) <= Square(r)
  {
    ProductNonnegative(r - d, r + d);
    SquareGap(d, r);
    if d >= 0.0 {
      ProductNonnegative(d, d);
    } else {
      ProductNonnegative(-d, -d);
    }
  }

  lemma SquareGap(d: real, r: real)
    ensures (r - d) * (r + d) == r * r - d * d
  {
  }

  lemma ProductNonnegative(x: real, y: real)
    requires x >= 0.0 && y >= 0.0
    ensures x * y >= 0.0
  {
  }

  /** A convex combination lies between its ends, however it is written. */
  lemma Between(a: real, m: real, x: real, lo: real, hi: real)
    requires 0.0 <= a <= 1.0 && lo <= m <= hi && lo <= x <= hi
    ensures lo <= Blend(a, m, x) <= hi
    ensures MeanStep(a, m, x) == Blend(a, m, x)
  {
    ProductNonnegative(a, x - lo);
    ProductNonnegative(1.0 - a, m - lo);
    ProductNonnegative(a, hi - x);
    ProductNonnegative(1.0 - a, hi - m);
    BlendFrom(a, m, x, lo);
    BlendFrom(a, m, x, hi);
    StepIsBlend(a, m, x);
  }

  lemma BlendFrom(a: real, m: real, x: real, c: real)
    ensures Blend(a, m, x) - c == (1.0 - a) * (m - c) + a * (x - c)
    ensures c - Blend(a, m, x) == (1.0 - a) * (c - m) + a * (c - x)
  {
  }

  lemma StepIsBlend(a: real, m: real, x: real)
    ensures MeanStep(a, m, x) == Blend(a, m, x)
  {
  }
}
