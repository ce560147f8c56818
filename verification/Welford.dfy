/**
 * Welford's running mean and variance (internal/engine/welford.go), over exact reals. The state is
 * tied to the batch sums of the samples, and Merge to concatenation, also when an accumulator is
 * merged into itself.
 */
module Welford {
  import opened StreamingStats

  function Sum(xs: seq<real>): real {
    if xs == [] then 0.0 else Sum(xs[..|xs| - 1]) + xs[|xs| - 1]
  }

  /** The sum of squared distances to `c`. */
  function Deviation(xs: seq<real>, c: real): real {
    if xs == [] then 0.0 else Deviation(xs[..|xs| - 1], c) + Square(xs[|xs| - 1] - c)
  }

  /** (count, mean, m2) are the size, average and squared deviation of `xs`. */
  ghost predicate Summarizes(xs: seq<real>, count: nat, mean: real, m2: real) {
    && count == |xs|
    && (if xs == [] then mean == 0.0 else IsTimes(|xs| as real, mean, Sum(xs)))
    && m2 == Deviation(xs, mean)
  }

  lemma SumNext(xs: seq<real>, x: real, c: real)
    ensures Sum(xs + [x]) == Sum(xs) + x
    ensures Deviation(xs + [x], c) == Deviation(xs, c) + Square(x - c)
  {
    assert (xs + [x])[..|xs|] == xs;
  }

  lemma {:induction false} SumAppend(a: seq<real>, b: seq<real>, c: real)
    ensures Sum(a + b) == Sum(a) + Sum(b)
    ensures Deviation(a + b, c) == Deviation(a, c) + Deviation(b, c)
  {
    if b == [] {
      assert a + b == a;
    } else {
      var n := |b| - 1;
      SumAppend(a, b[..n], c);
      SumNext(a + b[..n], b[n], c);
      assert a + b == (a + b[..n]) + [b[n]];
    }
  }

  /** Deviation `t` around `c'` from deviation `s` around `c`, for `n` samples adding up to `total`. */
  predicate IsShifted(n: real, total: real, c: real, s: real, c': real, t: real) {
    t == s + 2.0 * (c - c') * total + n * (c' * c' - c * c)
  }

  /** Moving the centre from `c` to `c'` changes the deviation by a quadratic in the totals. */
  lemma {:induction false} Shift(xs: seq<real>, c: real, c': real)
    ensures IsShifted(|xs| as real, Sum(xs), c, Deviation(xs, c), c', Deviation(xs, c'))
  {
    if xs != [] {
      var n := |xs| - 1;
      Shift(xs[..n], c, c');
      ShiftOne(n as real, Sum(xs[..n]), c, Deviation(xs[..n], c), c', Deviation(xs[..n], c'), xs[n],
               Square(xs[n] - c), Square(xs[n] - c'));
    }
  }

  lemma ShiftOne(n: real, total: real, c: real, s: real, c': real, t: real, x: real, q: real, q': real)
    requires IsShifted(n, total, c, s, c', t) && q == (x - c) * (x - c) && q' == (x - c') * (x - c')
    ensures IsShifted(n + 1.0, total + x, c, s + q, c', t + q')
  {
  }

  lemma SquareNonnegative(x: real)
    ensures Square(x) >= 0.0
  {
  }

  lemma {:induction false} DeviationNonnegative(xs: seq<real>, c: real)
    ensures Deviation(xs, c) >= 0.0
  {
    if xs != [] {
      DeviationNonnegative(xs[..|xs| - 1], c);
      SquareNonnegative(xs[|xs| - 1] - c);
    }
  }

  /** Deviation `t` around `c` from deviation `s` around the mean of `n` samples. */
  predicate IsOffCentre(n: real, mean: real, s: real, c: real, t: real) {
    t == s + n * Square(c - mean)
  }

  /** Around the average, shifting costs n times the squared distance. */
  lemma ShiftFromMean(xs: seq<real>, mean: real, c: real)
    requires IsTimes(|xs| as real, mean, Sum(xs))
    ensures IsOffCentre(|xs| as real, mean, Deviation(xs, mean), c, Deviation(xs, c))
  {
    Shift(xs, mean, c);
    ShiftAlgebra(|xs| as real, mean, c, Sum(xs), Deviation(xs, mean), Deviation(xs, c), Square(c - mean));
  }

  lemma ShiftAlgebra(n: real, m: real, c: real, total: real, s: real, t: real, q: real)
    requires IsTimes(n, m, total) && q == (c - m) * (c - m) && IsShifted(n, total, m, s, c, t)
    ensures t == s + n * q
  {
  }

  /** The recurrence of Update: `m` averages k - 1 samples, `m'` also the next one. */
  lemma UpdateAlgebra(k: real, m: real, total: real, x: real, m': real, s: real, t: real)
    requires k >= 1.0 && IsTimes(k - 1.0, m, total) && m' == m + (x - m) / k
    requires IsOffCentre(k - 1.0, m, s, m', t)
    ensures IsTimes(k, m', total + x)
    ensures t + Square(x - m') == s + (x - m) * (x - m')
  {
    var e := (x - m) / k;
    assert k * e == x - m;
    UpdateSquares(k, m, e, x, total, Square(m' - m), Square(x - m'), (x - m) * (x - m'));
  }

  lemma UpdateSquares(k: real, m: real, e: real, x: real, total: real, qe: real, qd: real, p: real)
    requires x == m + k * e && total == (k - 1.0) * m
    requires qe == e * e && qd == (x - (m + e)) * (x - (m + e)) && p == (x - m) * (x - (m + e))
    ensures total + x == k * (m + e) && (k - 1.0) * qe + qd == p
  {
  }

  /** Merge's update of the mean, and the distance between the streams that it adds to m2. */
  function MergedMean(b: real, n: real, mean: real, delta: real): real
    requires n != 0.0
  {
    mean + delta * b / n
  }

  function Spread(a: real, b: real, n: real, delta: real): real
    requires n != 0.0
  {
    delta * delta * a * b / n
  }

  /** Merge's formulas average the union and add up both deviations around the new mean. */
  lemma MergeAlgebra(a: real, b: real, n: real, ma: real, mb: real, ta: real, tb: real, m: real, q: real)
    requires a > 0.0 && b > 0.0 && n == a + b && IsTimes(a, ma, ta) && IsTimes(b, mb, tb)
    requires m == MergedMean(b, n, ma, mb - ma) && q == Spread(a, b, n, mb - ma)
    ensures IsTimes(n, m, ta + tb)
    ensures forall s, t, s', t' :: IsOffCentre(a, ma, s, m, s') && IsOffCentre(b, mb, t, m, t') ==> s' + t' == s + t + q
  {
    var d := mb - ma;
    var e := d * b / n;
    assert n * e == d * b;
    assert q * n == d * d * a * b;
    MergeMeans(a, b, ma, d, e);
    MergeSquares(a, b, d, e, q, Square(m - ma), Square(m - mb));
  }

  lemma MergeMeans(a: real, b: real, ma: real, d: real, e: real)
    requires (a + b) * e == d * b
    ensures a * ma + b * (ma + d) == (a + b) * (ma + e)
  {
  }

  lemma MergeSquares(a: real, b: real, d: real, e: real, q: real, qa: real, qb: real)
    requires a > 0.0 && b > 0.0 && (a + b) * e == d * b && q * (a + b) == d * d * a * b
    requires qa == e * e && qb == (e - d) * (e - d)
    ensures q == a * qa + b * qb
  {
    var n := a + b;
    assert d * d * a * b == (a * d) * (d * b) == (a * d) * (n * e) == n * (a * d * e);
    assert q == a * d * e;
    assert a * (e * e) + b * ((e - d) * (e - d)) == (n * e) * e - 2.0 * (d * b) * e + (d * b) * d;
    assert (n * e) * e - 2.0 * (d * b) * e + (d * b) * d == (n * e) * d - (n * e) * e;
    assert (n * e) * d - (n * e) * e == a * d * e + (b * d - n * e) * e;
  }

  class Welford {
    var count: nat
    var mean: real
    var m2: real
    ghost var samples: seq<real>

    ghost predicate Valid()
      reads this
    {
      Summarizes(samples, count, mean, m2)
    }

    constructor ()
      ensures Valid() && samples == []
    {
      count, mean, m2, samples := 0, 0.0, 0.0, [];
    }

    method Update(x: real)
      requires Valid()
      modifies this
      ensures Valid() && samples == old(samples) + [x]
    {
      ghost var before := mean;
      count := count + 1;
      var delta := x - mean;
      mean := mean + delta / (count as real);
      var delta2 := x - mean;
      UpdateSummary(samples, before, x, mean);
      m2 := m2 + delta * delta2;
      samples := samples + [x];
    }

    /** `o` may be this very object. */
    method Merge(o: Welford)
      requires Valid() && o.Valid()
      modifies this
      ensures Valid() && samples == old(samples) + old(o.samples)
    {
      if o.count == 0 {
        assert samples + o.samples == samples;
        return;
      }
      if count == 0 {
        assert samples + o.samples == o.samples;
        count, mean, m2, samples := o.count, o.mean, o.m2, o.samples;
        return;
      }
      var total := count + o.count;
      var delta := o.mean - mean;
      ghost var a, b, left, right := samples, o.samples, mean, o.mean;
      mean := MergedMean(o.count as real, total as real, mean, delta);
      m2 := m2 + o.m2 + Spread(count as real, o.count as real, total as real, delta);
      MergeSummary(a, b, left, right, mean);
      count := total;
      samples := a + b;
    }

    function Variance(): (v: Option<real>)
      requires Valid()
      reads this
      ensures v.None? <==> |samples| < 2
      ensures v.Some? ==> v.value * (|samples| as real - 1.0) == Deviation(samples, mean)
    {
      if count < 2 then None else Some(m2 / ((count - 1) as real))
    }

    function PopulationVariance(): (v: Option<real>)
      requires Valid()
      reads this
      ensures v.None? <==> samples == []
      ensures v.Some? ==> v.value * (|samples| as real) == Deviation(samples, mean)
    {
      if count == 0 then None else Some(m2 / (count as real))
    }

    method Reset()
      modifies this
      ensures Valid() && samples == []
    {
      count, mean, m2, samples := 0, 0.0, 0.0, [];
    }
  }

  lemma UpdateSummary(xs: seq<real>, mean: real, x: real, mean': real)
    requires Summarizes(xs, |xs|, mean, Deviation(xs, mean))
    requires mean' == mean + (x - mean) / ((|xs| + 1) as real)
    ensures Summarizes(xs + [x], |xs| + 1, mean', Deviation(xs, mean) + (x - mean) * (x - mean'))
  {
    SumNext(xs, x, mean');
    ShiftFromMean(xs, mean, mean');
    UpdateAlgebra((|xs| + 1) as real, mean, Sum(xs), x, mean', Deviation(xs, mean), Deviation(xs, mean'));
  }

  lemma MergeSummary(a: seq<real>, b: seq<real>, ma: real, mb: real, m: real)
    requires a != [] && b != []
    requires Summarizes(a, |a|, ma, Deviation(a, ma)) && Summarizes(b, |b|, mb, Deviation(b, mb))
    requires m == MergedMean(|b| as real, (|a| + |b|) as real, ma, mb - ma)
    ensures Summarizes(a + b, |a| + |b|, m,
                       Deviation(a, ma) + Deviation(b, mb)
                       + Spread(|a| as real, |b| as real, (|a| + |b|) as real, mb - ma))
  {
    var na, nb, n := |a| as real, |b| as real, (|a| + |b|) as real;
    MergeAlgebra(na, nb, n, ma, mb, Sum(a), Sum(b), m, Spread(na, nb, n, mb - ma));
    SumAppend(a, b, m);
    ShiftFromMean(a, ma, m);
    ShiftFromMean(b, mb, m);
  }

  lemma MeanUnique(n: real, m: real, m': real, total: real)
    requires n > 0.0 && IsTimes(n, m, total) && IsTimes(n, m', total)
    ensures m == m'
  {
  }

  /** A summary depends on nothing but the samples, in any order of merging. */
  lemma MergeOrderIrrelevant(a: seq<real>, b: seq<real>, n: nat, m: real, v: real, n': nat, m': real, v': real)
    requires Summarizes(a + b, n, m, v) && Summarizes(b + a, n', m', v')
    ensures n == n' && m == m' && v == v' && v >= 0.0
  {
    SumAppend(a, b, m);
    SumAppend(b, a, m);
    DeviationNonnegative(a + b, m);
    if a + b == [] {
      assert b + a == [];
    } else {
      assert b + a != [];
      SumAppend(b, a, m');
      MeanUnique(n as real, m, m', Sum(a + b));
    }
  }
}
