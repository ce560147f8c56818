/**
 * The adaptive sampling interval: computeInterval in cmd/agent/main.go and its run over ticks.
 * Durations are integer nanoseconds and scores exact reals; None is NaN.
 */
module Interval {
  import opened StreamingStats

  datatype Limits = Limits(theta: real, driftThreshold: real, tauMin: int, tauMax: int, delta: int) {
    predicate Valid() {
      0.0 < theta && 0.0 < driftThreshold && 0 < tauMin < tauMax && 0 < delta
    }
  }

  datatype Reading = Reading(z: Option<real>, drift: Option<real>)

  function OrZero(x: Option<real>): real {
    if x.None? then 0.0 else x.value
  }

  function MaxReal(x: real, y: real): real { if x < y then y else x }

  function AbsReal(x: real): real { if x < 0.0 then -x else x }

  function Min(x: int, y: int): int { if x < y then x else y }

  function Max(x: int, y: int): int { if x < y then y else x }

  /** The z-score and the drift, on the scale of the z-score. */
  function Effective(l: Limits, r: Reading): real
    requires l.Valid()
  {
    MaxReal(OrZero(r.z), OrZero(r.drift) / l.driftThreshold * l.theta)
  }

  /** How unstable the system is, from 0 (at rest) to 1 (at or past the threshold). */
  function Instability(l: Limits, r: Reading): real
    requires l.Valid()
  {
    var ratio := AbsReal(Effective(l, r)) / l.theta;
    if ratio > 1.0 then 1.0 else ratio
  }

  /** The interval this reading alone would call for. */
  function Target(l: Limits, r: Reading): int
    requires l.Valid()
  {
    (l.tauMax as real - (l.tauMax as real - l.tauMin as real) * Instability(l, r)).Floor
  }

  function ComputeInterval(l: Limits, r: Reading, tauPrev: int): int
    requires l.Valid()
  {
    Max(l.tauMin, Min(Target(l, r), tauPrev + l.delta))
  }

  lemma RatioNonnegative(x: real, y: real)
    requires x >= 0.0 && y > 0.0
    ensures x / y >= 0.0
  {
  }

  lemma InstabilityBounds(l: Limits, r: Reading)
    requires l.Valid()
    ensures 0.0 <= Instability(l, r) <= 1.0
  {
    RatioNonnegative(AbsReal(Effective(l, r)), l.theta);
  }

  lemma FloorBetween(x: real, lo: int, hi: int)
    requires lo as real <= x <= hi as real
    ensures lo <= x.Floor <= hi
  {
  }

  lemma ScaleBounds(span: real, ratio: real)
    requires span >= 0.0 && 0.0 <= ratio <= 1.0
    ensures 0.0 <= span * ratio <= span
  {
  }

  lemma TargetInRange(l: Limits, r: Reading)
    requires l.Valid()
    ensures l.tauMin <= Target(l, r) <= l.tauMax
  {
    InstabilityBounds(l, r);
    var span := l.tauMax as real - l.tauMin as real;
    ScaleBounds(span, Instability(l, r));
    FloorBetween(l.tauMax as real - span * Instability(l, r), l.tauMin, l.tauMax);
  }

  /** A quiet reading: no deviation and no drift, or not a number. */
  predicate Quiet(r: Reading) {
    OrZero(r.z) == 0.0 && OrZero(r.drift) == 0.0
  }

  lemma QuietTarget(l: Limits, r: Reading)
    requires l.Valid() && Quiet(r)
    ensures Target(l, r) == l.tauMax
  {
    assert 0.0 / l.driftThreshold * l.theta == 0.0;
    assert Instability(l, r) == 0.0;
  }

  lemma DivisionOrder(x: real, y: real, d: real)
    requires x <= y && d > 0.0
    ensures x / d <= y / d
  {
  }

  lemma ProductOrder(x: real, y: real, k: real)
    requires x <= y && k >= 0.0
    ensures x * k <= y * k && k * x <= k * y
  {
  }

  lemma QuotientIs(x: real, d: real, p: real)
    requires d > 0.0 && x == p * d
    ensures x / d == p
  {
    var q := x / d;
    assert (q - p) * d == 0.0;
  }

  /** The larger of the score and the drift, each in units of its own threshold, is `p`. */
  predicate Leads(l: Limits, r: Reading, p: real) {
    var (z, drift) := (OrZero(r.z), OrZero(r.drift));
    || (z == p * l.theta && drift <= p * l.driftThreshold)
    || (drift == p * l.driftThreshold && z <= p * l.theta)
  }

  lemma EffectiveIs(l: Limits, r: Reading, p: real)
    requires l.Valid() && Leads(l, r, p)
    ensures Effective(l, r) == p * l.theta
  {
    DivisionOrder(OrZero(r.drift), p * l.driftThreshold, l.driftThreshold);
    QuotientIs(p * l.driftThreshold, l.driftThreshold, p);
    ProductOrder(OrZero(r.drift) / l.driftThreshold, p, l.theta);
  }

  lemma InstabilityIs(l: Limits, r: Reading, p: real)
    requires l.Valid() && Leads(l, r, p)
    ensures Instability(l, r) == if p < -1.0 || 1.0 < p then 1.0 else AbsReal(p)
  {
    hide Leads, Effective;
    EffectiveIs(l, r, p);
    AbsProduct(p, l.theta);
    QuotientIs(AbsReal(p * l.theta), l.theta, AbsReal(p));
  }

  lemma AbsProduct(p: real, k: real)
    requires k > 0.0
    ensures AbsReal(p * k) == AbsReal(p) * k
  {
    if p < 0.0 {
      ProductOrder(p, 0.0, k);
    } else {
      ProductOrder(0.0, p, k);
    }
  }

  lemma LeaderExists(l: Limits, r: Reading)
    requires l.Valid()
    ensures exists p :: Leads(l, r, p)
  {
    var z, drift := OrZero(r.z), OrZero(r.drift);
    var p, q := z / l.theta, drift / l.driftThreshold;
    assert p * l.theta == z && q * l.driftThreshold == drift;
    if q <= p {
      ProductOrder(q, p, l.driftThreshold);
      assert Leads(l, r, p);
    } else {
      ProductOrder(p, q, l.theta);
      assert Leads(l, r, q);
    }
  }

  /**
   * Every target is interpolated: whichever of score and drift leads takes its own fraction of its
   * threshold off the range, up to all of it.
   */
  lemma TargetInterpolates(l: Limits, r: Reading)
    requires l.Valid()
    ensures exists p :: Leads(l, r, p)
    ensures forall p :: Leads(l, r, p) ==>
              var span := l.tauMax as real - l.tauMin as real;
              Target(l, r) == if p < -1.0 || 1.0 < p then l.tauMin
                              else (l.tauMax as real - span * AbsReal(p)).Floor
  {
    LeaderExists(l, r);
    forall p | Leads(l, r, p)
      ensures var span := l.tauMax as real - l.tauMin as real;
              Target(l, r) == if p < -1.0 || 1.0 < p then l.tauMin
                              else (l.tauMax as real - span * AbsReal(p)).Floor
    {
      InstabilityIs(l, r, p);
    }
  }

  /** A drift `p` of the way to its threshold, with no larger score, takes `p` of the range off tauMax. */
  lemma DriftInterpolates(l: Limits, r: Reading, p: real)
    requires l.Valid() && 0.0 <= p <= 1.0
    requires OrZero(r.drift) == p * l.driftThreshold && OrZero(r.z) <= p * l.theta
    ensures Target(l, r) == (l.tauMax as real - (l.tauMax as real - l.tauMin as real) * p).Floor
  {
    hide Instability;
    InstabilityIs(l, r, p);
  }

  /** And so does a score, with no larger drift. */
  lemma ScoreInterpolates(l: Limits, r: Reading, p: real)
    requires l.Valid() && 0.0 <= p <= 1.0
    requires OrZero(r.z) == p * l.theta && OrZero(r.drift) <= p * l.driftThreshold
    ensures Target(l, r) == (l.tauMax as real - (l.tauMax as real - l.tauMin as real) * p).Floor
  {
    hide Instability;
    InstabilityIs(l, r, p);
  }

  lemma FloorOrder(x: real, y: real)
    requires x <= y
    ensures x.Floor <= y.Floor
  {
  }

  lemma EffectiveMonotone(l: Limits, r: Reading, r': Reading)
    requires l.Valid() && 0.0 <= OrZero(r.drift) <= OrZero(r'.drift) && OrZero(r.z) <= OrZero(r'.z)
    ensures 0.0 <= Effective(l, r) <= Effective(l, r')
  {
    var d, d' := OrZero(r.drift) / l.driftThreshold, OrZero(r'.drift) / l.driftThreshold;
    DivisionOrder(OrZero(r.drift), OrZero(r'.drift), l.driftThreshold);
    RatioNonnegative(OrZero(r.drift), l.driftThreshold);
    ProductOrder(d, d', l.theta);
    ProductOrder(0.0, d, l.theta);
  }

  lemma InstabilityMonotone(l: Limits, r: Reading, r': Reading)
    requires l.Valid() && 0.0 <= OrZero(r.drift) <= OrZero(r'.drift) && OrZero(r.z) <= OrZero(r'.z)
    ensures Instability(l, r) <= Instability(l, r')
  {
    EffectiveMonotone(l, r, r');
    DivisionOrder(AbsReal(Effective(l, r)), AbsReal(Effective(l, r')), l.theta);
  }

  /** More deviation or more drift never asks for a longer interval. */
  lemma TargetAntitone(l: Limits, r: Reading, r': Reading)
    requires l.Valid() && 0.0 <= OrZero(r.drift) <= OrZero(r'.drift) && OrZero(r.z) <= OrZero(r'.z)
    ensures Target(l, r') <= Target(l, r)
  {
    InstabilityMonotone(l, r, r');
    var span := l.tauMax as real - l.tauMin as real;
    ProductOrder(Instability(l, r), Instability(l, r'), span);
    FloorOrder(l.tauMax as real - span * Instability(l, r'), l.tauMax as real - span * Instability(l, r));
  }

  /** A reading at or past either threshold drops the interval to its minimum at once. */
  lemma PeakSnapsToMin(l: Limits, r: Reading, tauPrev: int)
    requires l.Valid() && (OrZero(r.z) >= l.theta || OrZero(r.drift) >= l.driftThreshold)
    ensures ComputeInterval(l, r, tauPrev) == l.tauMin
  {
    PeakEffective(l, r);
    DivisionOrder(l.theta, AbsReal(Effective(l, r)), l.theta);
    assert l.theta / l.theta == 1.0;
    assert Instability(l, r) == 1.0;
    assert Target(l, r) == (l.tauMin as real).Floor;
  }

  lemma PeakEffective(l: Limits, r: Reading)
    requires l.Valid() && (OrZero(r.z) >= l.theta || OrZero(r.drift) >= l.driftThreshold)
    ensures Effective(l, r) >= l.theta
  {
    if OrZero(r.drift) >= l.driftThreshold {
      DivisionOrder(l.driftThreshold, OrZero(r.drift), l.driftThreshold);
      ProductOrder(1.0, OrZero(r.drift) / l.driftThreshold, l.theta);
    }
  }

  // --- Runs -------------------------------------------------------------------------------------

  /** The interval after a run of ticks that starts from `start`. */
  function Tau(l: Limits, start: int, rs: seq<Reading>): int
    requires l.Valid()
  {
    if rs == [] then start
    else ComputeInterval(l, rs[|rs| - 1], Tau(l, start, rs[..|rs| - 1]))
  }

  lemma {:induction false} TauInRange(l: Limits, start: int, rs: seq<Reading>)
    requires l.Valid() && l.tauMin <= start <= l.tauMax
    ensures l.tauMin <= Tau(l, start, rs) <= l.tauMax
  {
    if rs != [] {
      TauInRange(l, start, rs[..|rs| - 1]);
      Unclamped(l, rs[|rs| - 1], Tau(l, start, rs[..|rs| - 1]));
    }
  }

  /** In range the lower clamp is idle: each tick takes the target or one recovery step. */
  lemma TauStep(l: Limits, start: int, rs: seq<Reading>)
    requires l.Valid() && l.tauMin <= start <= l.tauMax && rs != []
    ensures Tau(l, start, rs) == Min(Target(l, rs[|rs| - 1]), Tau(l, start, rs[..|rs| - 1]) + l.delta)
  {
    TauInRange(l, start, rs[..|rs| - 1]);
    Unclamped(l, rs[|rs| - 1], Tau(l, start, rs[..|rs| - 1]));
  }

  lemma Unclamped(l: Limits, r: Reading, prev: int)
    requires l.Valid() && l.tauMin <= prev <= l.tauMax
    ensures ComputeInterval(l, r, prev) == Min(Target(l, r), prev + l.delta)
    ensures l.tauMin <= ComputeInterval(l, r, prev) <= l.tauMax
  {
    TargetInRange(l, r);
  }

  /** What reading `j` allows after `n` ticks: its target plus a recovery step for each tick since. */
  function Ceiling(l: Limits, rs: seq<Reading>, j: nat): int
    requires l.Valid() && j < |rs|
  {
    Target(l, rs[j]) + (|rs| - 1 - j) * l.delta
  }

  lemma CeilingLater(l: Limits, rs: seq<Reading>, j: nat)
    requires l.Valid() && j < |rs| - 1
    ensures Ceiling(l, rs, j) == Ceiling(l, rs[..|rs| - 1], j) + l.delta
  {
    assert (|rs| - 1 - j) * l.delta == (|rs| - 2 - j) * l.delta + l.delta;
  }

  ghost predicate BelowCeilings(l: Limits, start: int, rs: seq<Reading>, tau: int)
    requires l.Valid()
  {
    tau <= start + |rs| * l.delta && forall j :: 0 <= j < |rs| ==> tau <= Ceiling(l, rs, j)
  }

  ghost predicate MeetsCeiling(l: Limits, start: int, rs: seq<Reading>, tau: int)
    requires l.Valid()
  {
    tau == start + |rs| * l.delta || exists j :: 0 <= j < |rs| && tau == Ceiling(l, rs, j)
  }

  lemma LastCeiling(l: Limits, rs: seq<Reading>)
    requires l.Valid() && rs != []
    ensures Ceiling(l, rs, |rs| - 1) == Target(l, rs[|rs| - 1])
    ensures |rs| * l.delta == (|rs| - 1) * l.delta + l.delta
  {
  }

  lemma BelowNext(l: Limits, start: int, rs: seq<Reading>, before: int, tau: int)
    requires l.Valid() && rs != [] && BelowCeilings(l, start, rs[..|rs| - 1], before)
    requires tau == Min(Target(l, rs[|rs| - 1]), before + l.delta)
    ensures BelowCeilings(l, start, rs, tau)
  {
    LastCeiling(l, rs);
    forall j | 0 <= j < |rs| ensures tau <= Ceiling(l, rs, j) {
      if j < |rs| - 1 {
        CeilingLater(l, rs, j);
      }
    }
  }

  lemma MeetsNext(l: Limits, start: int, rs: seq<Reading>, before: int, tau: int)
    requires l.Valid() && rs != [] && MeetsCeiling(l, start, rs[..|rs| - 1], before)
    requires tau == Min(Target(l, rs[|rs| - 1]), before + l.delta)
    ensures MeetsCeiling(l, start, rs, tau)
  {
    var n := |rs| - 1;
    LastCeiling(l, rs);
    if tau == Target(l, rs[n]) {
      assert tau == Ceiling(l, rs, n);
    } else if before != start + n * l.delta {
      var j :| 0 <= j < n && before == Ceiling(l, rs[..n], j);
      CeilingLater(l, rs, j);
      assert tau == Ceiling(l, rs, j);
    }
  }

  /** Closed form: the interval is the least of all ceilings and of the undisturbed recovery. */
  lemma {:induction false} TauIsLeastCeiling(l: Limits, start: int, rs: seq<Reading>)
    requires l.Valid() && l.tauMin <= start <= l.tauMax
    ensures BelowCeilings(l, start, rs, Tau(l, start, rs)) && MeetsCeiling(l, start, rs, Tau(l, start, rs))
  {
    if rs != [] {
      var before := rs[..|rs| - 1];
      TauIsLeastCeiling(l, start, before);
      TauStep(l, start, rs);
      BelowNext(l, start, rs, Tau(l, start, before), Tau(l, start, rs));
      MeetsNext(l, start, rs, Tau(l, start, before), Tau(l, start, rs));
    }
  }

  /** Sequences of intervals that respect every target and never grow by more than delta. */
  ghost predicate Admissible(l: Limits, start: int, rs: seq<Reading>, taus: seq<int>)
    requires l.Valid()
  {
    && |taus| == |rs| + 1 && taus[0] <= start
    && forall i :: 0 <= i < |rs| ==> taus[i + 1] <= Target(l, rs[i]) && taus[i + 1] <= taus[i] + l.delta
  }

  /** The controller's own intervals, from `start` on. */
  function Emitted(l: Limits, start: int, rs: seq<Reading>): (taus: seq<int>)
    requires l.Valid()
    ensures |taus| == |rs| + 1
  {
    seq(|rs| + 1, i requires 0 <= i <= |rs| => Tau(l, start, rs[..i]))
  }

  lemma EmittedStep(l: Limits, start: int, rs: seq<Reading>, i: nat)
    requires l.Valid() && l.tauMin <= start <= l.tauMax && i < |rs|
    ensures var taus := Emitted(l, start, rs); taus[i + 1] == Min(Target(l, rs[i]), taus[i] + l.delta)
  {
    TauStep(l, start, rs[..i + 1]);
    assert rs[..i + 1][..i] == rs[..i];
  }

  lemma EmittedIsAdmissible(l: Limits, start: int, rs: seq<Reading>)
    requires l.Valid() && l.tauMin <= start <= l.tauMax
    ensures Admissible(l, start, rs, Emitted(l, start, rs))
  {
    var taus := Emitted(l, start, rs);
    assert rs[..0] == [];
    forall i | 0 <= i < |rs| ensures taus[i + 1] <= Target(l, rs[i]) && taus[i + 1] <= taus[i] + l.delta {
      EmittedStep(l, start, rs, i);
    }
  }

  /** The emitted intervals are admissible, and pointwise the greatest that are. */
  lemma EmittedIsGreatest(l: Limits, start: int, rs: seq<Reading>, taus: seq<int>)
    requires l.Valid() && l.tauMin <= start <= l.tauMax
    ensures Admissible(l, start, rs, Emitted(l, start, rs))
    ensures Admissible(l, start, rs, taus) ==> forall i :: 0 <= i <= |rs| ==> taus[i] <= Emitted(l, start, rs)[i]
  {
    EmittedIsAdmissible(l, start, rs);
    if Admissible(l, start, rs, taus) {
      forall i | 0 <= i <= |rs| ensures taus[i] <= Emitted(l, start, rs)[i] {
        AdmissibleBelow(l, start, rs, taus, i);
      }
    }
  }

  lemma {:induction false} AdmissibleBelow(l: Limits, start: int, rs: seq<Reading>, taus: seq<int>, i: nat)
    requires l.Valid() && l.tauMin <= start <= l.tauMax && Admissible(l, start, rs, taus) && i <= |rs|
    ensures taus[i] <= Tau(l, start, rs[..i])
  {
    if i > 0 {
      AdmissibleBelow(l, start, rs, taus, i - 1);
      TauStep(l, start, rs[..i]);
      assert rs[..i][..i - 1] == rs[..i - 1];
      assert taus[i - 1 + 1] <= Target(l, rs[i - 1]);
    }
  }

  lemma QuietStep(l: Limits, start: int, rs: seq<Reading>, quiet: seq<Reading>)
    requires l.Valid() && l.tauMin <= start <= l.tauMax && quiet != [] && Quiet(quiet[|quiet| - 1])
    ensures Tau(l, start, rs + quiet) == Min(l.tauMax, Tau(l, start, rs + quiet[..|quiet| - 1]) + l.delta)
  {
    var n := |quiet| - 1;
    assert (rs + quiet)[..|rs| + n] == rs + quiet[..n];
    TauStep(l, start, rs + quiet);
    QuietTarget(l, quiet[n]);
  }

  lemma Climb(top: int, from: int, n: nat, d: int)
    requires 0 < d
    ensures Min(top, Min(top, from + n * d) + d) == Min(top, from + (n + 1) * d)
  {
    OneMore(n, d);
  }

  /** Quiet ticks climb by one recovery step each, up to tauMax. */
  lemma {:induction false} QuietTicks(l: Limits, start: int, rs: seq<Reading>, quiet: seq<Reading>)
    requires l.Valid() && l.tauMin <= start <= l.tauMax
    requires forall i :: 0 <= i < |quiet| ==> Quiet(quiet[i])
    ensures Tau(l, start, rs + quiet) == Min(l.tauMax, Tau(l, start, rs) + |quiet| * l.delta)
    decreases |quiet|
  {
    if quiet == [] {
      TauInRange(l, start, rs);
      assert rs + quiet == rs;
    } else {
      QuietTicks(l, start, rs, quiet[..|quiet| - 1]);
      QuietStep(l, start, rs, quiet);
      Climb(l.tauMax, Tau(l, start, rs), |quiet| - 1, l.delta);
    }
  }

  /** Enough quiet ticks to climb from tauMin to tauMax bring any run back to rest. */
  lemma RecoveryInTime(l: Limits, start: int, rs: seq<Reading>, quiet: seq<Reading>)
    requires l.Valid() && l.tauMin <= start <= l.tauMax
    requires (forall i :: 0 <= i < |quiet| ==> Quiet(quiet[i])) && l.tauMax - l.tauMin <= |quiet| * l.delta
    ensures Tau(l, start, rs + quiet) == l.tauMax
  {
    TauInRange(l, start, rs);
    QuietTicks(l, start, rs, quiet);
  }

  lemma OneMore(n: nat, d: int)
    ensures (n + 1) * d == n * d + d
  {
  }

  /** Of two runs, the one that is everywhere at least as unstable samples at least as often. */
  lemma {:induction false} TauAntitone(l: Limits, start: int, rs: seq<Reading>, rs': seq<Reading>)
    requires l.Valid() && |rs| == |rs'|
    requires forall i :: 0 <= i < |rs| ==>
               0.0 <= OrZero(rs[i].drift) <= OrZero(rs'[i].drift) && OrZero(rs[i].z) <= OrZero(rs'[i].z)
    ensures Tau(l, start, rs') <= Tau(l, start, rs)
  {
    if rs != [] {
      var n := |rs| - 1;
      TauAntitone(l, start, rs[..n], rs'[..n]);
      TargetAntitone(l, rs[n], rs'[n]);
    }
  }
}
