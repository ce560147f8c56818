/**
 * The deadband alert suppressor of internal/filter/suppressor.go: a hysteresis machine with a
 * holdoff clock. Times are nanoseconds, and 0 is Go's zero time.
 */
module Suppressor {

  datatype Mode = Normal | Alerting | Suppressed

  datatype Config = Config(holdoff: int, minAnomalies: int, minNormals: int) {
    predicate Valid() {
      holdoff >= 0 && minAnomalies >= 1 && minNormals >= 1
    }
  }

  /** NewSuppressor's repair of out-of-range settings. */
  function Repaired(cfg: Config): (c: Config)
    ensures c.Valid() && (cfg.Valid() ==> c == cfg)
  {
    Config(if cfg.holdoff < 0 then 0 else cfg.holdoff,
           if cfg.minAnomalies <= 0 then 1 else cfg.minAnomalies,
           if cfg.minNormals <= 0 then 3 else cfg.minNormals)
  }

  datatype Sample = Sample(anomalous: bool, now: int)

  datatype State = State(mode: Mode, anomalies: nat, normals: nat, lastAlert: int,
                         totalAnomalies: nat, totalSuppressed: nat, totalFired: nat)

  const Initial := State(Normal, 0, 0, 0, 0, 0, 0)

  /** Whether enough time has passed since the last alert. */
  predicate HoldoffOver(cfg: Config, s: State, now: int) {
    cfg.holdoff == 0 || (s.lastAlert != 0 && now - s.lastAlert >= cfg.holdoff)
  }

  /** Whether this sample fires an alert: the two anomalous branches of Process. */
  predicate Fires(cfg: Config, s: State, x: Sample) {
    x.anomalous && if s.mode == Normal then s.anomalies + 1 >= cfg.minAnomalies else HoldoffOver(cfg, s, x.now)
  }

  function Next(cfg: Config, s: State, x: Sample): State {
    if x.anomalous then
      var s1 := s.(anomalies := s.anomalies + 1, normals := 0, totalAnomalies := s.totalAnomalies + 1);
      if Fires(cfg, s, x) then s1.(mode := Alerting, lastAlert := x.now, totalFired := s.totalFired + 1)
      else if s.mode == Normal then s1
      else s1.(mode := Suppressed, totalSuppressed := s.totalSuppressed + 1)
    else
      s.(anomalies := 0, normals := s.normals + 1,
         mode := if s.normals + 1 >= cfg.minNormals then Normal else s.mode)
  }

  /** The state after a whole trace. */
  function After(cfg: Config, trace: seq<Sample>): State {
    if trace == [] then Initial
    else Next(cfg, After(cfg, trace[..|trace| - 1]), trace[|trace| - 1])
  }

  lemma AfterNext(cfg: Config, trace: seq<Sample>, x: Sample)
    ensures After(cfg, trace + [x]) == Next(cfg, After(cfg, trace), x)
  {
    assert (trace + [x])[..|trace|] == trace;
  }

  class Suppressor {
    const cfg: Config
    var mode: Mode
    var consecutiveAnoms: nat
    var consecutiveNorms: nat
    var lastAlertTime: int
    var totalAnomalies: nat
    var totalSuppressed: nat
    var totalAlertsFired: nat
    ghost var trace: seq<Sample> // processed since construction or the last Reset

    function View(): State
      reads this
    {
      State(mode, consecutiveAnoms, consecutiveNorms, lastAlertTime, totalAnomalies, totalSuppressed, totalAlertsFired)
    }

    ghost predicate Valid()
      reads this
    {
      cfg.Valid() && View() == After(cfg, trace)
    }

    constructor (requested: Config)
      ensures Valid() && trace == [] && cfg == Repaired(requested)
    {
      cfg := Repaired(requested);
      mode, consecutiveAnoms, consecutiveNorms, lastAlertTime := Normal, 0, 0, 0;
      totalAnomalies, totalSuppressed, totalAlertsFired := 0, 0, 0;
      trace := [];
    }

    /** The anomalous half of Process. */
    method ProcessAnomaly(now: int) returns (shouldAlert: bool)
      modifies this
      ensures trace == old(trace) && View() == Next(cfg, old(View()), Sample(true, now))
      ensures shouldAlert == Fires(cfg, old(View()), Sample(true, now))
    {
      totalAnomalies := totalAnomalies + 1;
      consecutiveNorms := 0;
      consecutiveAnoms := consecutiveAnoms + 1;
      match mode
      case Normal =>
        shouldAlert := consecutiveAnoms >= cfg.minAnomalies;
        if shouldAlert {
          mode := Alerting;
          lastAlertTime := now;
          totalAlertsFired := totalAlertsFired + 1;
        }
      case _ =>
        shouldAlert := cfg.holdoff == 0 || (lastAlertTime != 0 && now - lastAlertTime >= cfg.holdoff);
        if shouldAlert {
          mode := Alerting;
          lastAlertTime := now;
          totalAlertsFired := totalAlertsFired + 1;
        } else {
          mode := Suppressed;
          totalSuppressed := totalSuppressed + 1;
        }
    }

    /** The normal half. */
    method ProcessNormal(now: int)
      modifies this
      ensures trace == old(trace) && View() == Next(cfg, old(View()), Sample(false, now))
    {
      consecutiveAnoms := 0;
      consecutiveNorms := consecutiveNorms + 1;
      if consecutiveNorms >= cfg.minNormals {
        mode := Normal;
      }
    }

    method Process(isAnomalous: bool, now: int) returns (shouldAlert: bool, state: Mode)
      requires Valid()
      modifies this
      ensures Valid() && trace == old(trace) + [Sample(isAnomalous, now)]
      ensures shouldAlert == Fires(cfg, After(cfg, old(trace)), Sample(isAnomalous, now))
      ensures state == mode == After(cfg, trace).mode
    {
      AfterNext(cfg, trace, Sample(isAnomalous, now));
      shouldAlert := false;
      if isAnomalous {
        shouldAlert := ProcessAnomaly(now);
      } else {
        ProcessNormal(now);
      }
      trace := trace + [Sample(isAnomalous, now)];
      state := mode;
    }

    method Reset()
      requires Valid()
      modifies this
      ensures Valid() && trace == []
    {
      mode, consecutiveAnoms, consecutiveNorms, lastAlertTime := Normal, 0, 0, 0;
      totalAnomalies, totalSuppressed, totalAlertsFired := 0, 0, 0;
      trace := [];
    }
  }

  // --- Hysteresis -------------------------------------------------------------------------------

  /** The `len` samples before position `end` all read `anomalous`. */
  ghost predicate Streak(trace: seq<Sample>, anomalous: bool, len: int, end: int) {
    0 <= len <= end <= |trace| && forall k :: end - len <= k < end ==> trace[k].anomalous == anomalous
  }

  /** The run counters count the streaks ending at the last sample. */
  lemma {:induction false} CountersAreStreaks(cfg: Config, trace: seq<Sample>)
    ensures var s := After(cfg, trace);
            && (forall len {:trigger Streak(trace, true, len, |trace|)} ::
                  len >= 0 ==> (Streak(trace, true, len, |trace|) <==> len <= s.anomalies))
            && (forall len {:trigger Streak(trace, false, len, |trace|)} ::
                  len >= 0 ==> (Streak(trace, false, len, |trace|) <==> len <= s.normals))
            && s.anomalies <= |trace| && s.normals <= |trace|
  {
    var n, s := |trace|, After(cfg, trace);
    if n > 0 {
      var before, last := trace[..n - 1], trace[n - 1];
      CountersAreStreaks(cfg, before);
      forall len, kind: bool | len >= 0
        ensures Streak(trace, kind, len, n) <==> len <= if kind then s.anomalies else s.normals
      {
        StreakExtends(trace, kind, len);
      }
      assert forall len :: len >= 0 ==> (Streak(trace, true, len, n) <==> len <= s.anomalies);
      assert forall len :: len >= 0 ==> (Streak(trace, false, len, n) <==> len <= s.normals);
    }
  }

  lemma StreakExtends(trace: seq<Sample>, kind: bool, len: int)
    requires trace != [] && len >= 0
    ensures var n := |trace|;
            Streak(trace, kind, len, n)
            <==> len == 0 || (trace[n - 1].anomalous == kind && Streak(trace[..n - 1], kind, len - 1, n - 1))
  {
    var n := |trace|;
    if len > 0 && trace[n - 1].anomalous == kind && Streak(trace[..n - 1], kind, len - 1, n - 1) {
      forall k | n - len <= k < n ensures trace[k].anomalous == kind {
        if k < n - 1 {
          assert trace[..n - 1][k] == trace[k];
        }
      }
    }
    if len > 0 && Streak(trace, kind, len, n) {
      var before := trace[..n - 1];
      assert forall k :: n - len <= k < n - 1 ==> before[k] == trace[k];
      assert trace[n - 1].anomalous == kind;
    }
  }

  /** Tripped by `minAnomalies` in a row at some point, and not cleared by `minNormals` since. */
  ghost predicate Latched(cfg: Config, trace: seq<Sample>) {
    exists i :: 0 <= i <= |trace| && Streak(trace, true, cfg.minAnomalies, i)
                && forall j :: i < j <= |trace| ==> !Streak(trace, false, cfg.minNormals, j)
  }

  lemma StreakInPrefix(trace: seq<Sample>, kind: bool, len: int, end: int)
    requires 0 <= end < |trace|
    ensures Streak(trace, kind, len, end) <==> Streak(trace[..|trace| - 1], kind, len, end)
  {
    assert forall k :: 0 <= k < end ==> trace[..|trace| - 1][k] == trace[k];
  }

  /** Latched, one sample at a time. */
  lemma LatchedStep(cfg: Config, trace: seq<Sample>)
    requires cfg.Valid() && trace != []
    ensures Latched(cfg, trace) <==>
            || Streak(trace, true, cfg.minAnomalies, |trace|)
            || (Latched(cfg, trace[..|trace| - 1]) && !Streak(trace, false, cfg.minNormals, |trace|))
  {
    var n, before := |trace|, trace[..|trace| - 1];
    forall i, kind: bool, len | 0 <= i < n
      ensures Streak(trace, kind, len, i) <==> Streak(before, kind, len, i)
    {
      StreakInPrefix(trace, kind, len, i);
    }
    if Latched(cfg, trace) {
      var i :| 0 <= i <= n && Streak(trace, true, cfg.minAnomalies, i)
               && forall j :: i < j <= n ==> !Streak(trace, false, cfg.minNormals, j);
      if i < n {
        assert Streak(before, true, cfg.minAnomalies, i);
        assert Latched(cfg, before);
      }
    }
    if Latched(cfg, before) && !Streak(trace, false, cfg.minNormals, n) {
      var i :| 0 <= i <= n - 1 && Streak(before, true, cfg.minAnomalies, i)
               && forall j :: i < j <= n - 1 ==> !Streak(before, false, cfg.minNormals, j);
      assert Streak(trace, true, cfg.minAnomalies, i);
    }
  }

  /** The machine's state is its declarative specification, whatever the clock and the holdoff. */
  lemma {:induction false} HysteresisExact(cfg: Config, trace: seq<Sample>)
    requires cfg.Valid()
    ensures After(cfg, trace).mode != Normal <==> Latched(cfg, trace)
  {
    if trace != [] {
      HysteresisExact(cfg, trace[..|trace| - 1]);
      LatchedStep(cfg, trace);
      CountersAreStreaks(cfg, trace);
      CountersAreStreaks(cfg, trace[..|trace| - 1]);
    }
  }

  // --- Ledger -----------------------------------------------------------------------------------

  /** Anomalous samples that left the machine in its normal mode. */
  function Absorbed(cfg: Config, trace: seq<Sample>): nat {
    if trace == [] then 0
    else
      var n := |trace| - 1;
      Absorbed(cfg, trace[..n]) + (if trace[n].anomalous && After(cfg, trace).mode == Normal then 1 else 0)
  }

  /** Samples of `trace` that read anomalous. */
  function AnomalyCount(trace: seq<Sample>): nat {
    if trace == [] then 0
    else AnomalyCount(trace[..|trace| - 1]) + (if trace[|trace| - 1].anomalous then 1 else 0)
  }

  /** Positions of `trace` that fire. */
  function AlertCount(cfg: Config, trace: seq<Sample>): nat {
    if trace == [] then 0
    else
      var n := |trace| - 1;
      AlertCount(cfg, trace[..n]) + (if Fires(cfg, After(cfg, trace[..n]), trace[n]) then 1 else 0)
  }

  /** Every anomaly fires an alert, is suppressed, or is absorbed on the way to the threshold. */
  lemma {:induction false} AnomalyLedger(cfg: Config, trace: seq<Sample>)
    ensures var s := After(cfg, trace);
            && s.totalAnomalies == AnomalyCount(trace) && s.totalFired == AlertCount(cfg, trace)
            && s.totalAnomalies == s.totalFired + s.totalSuppressed + Absorbed(cfg, trace)
  {
    if trace != [] {
      AnomalyLedger(cfg, trace[..|trace| - 1]);
    }
  }

  // --- Alert rate -------------------------------------------------------------------------------

  predicate AlertAt(cfg: Config, trace: seq<Sample>, i: int) {
    0 <= i < |trace| && Fires(cfg, After(cfg, trace[..i]), trace[i])
  }

  /** Consecutive samples are at least `d` apart. */
  ghost predicate Spaced(trace: seq<Sample>, d: int) {
    forall i :: 0 < i < |trace| ==> trace[i - 1].now + d <= trace[i].now
  }

  lemma {:induction false} SpacedSpan(trace: seq<Sample>, d: int, i: int, j: int)
    requires Spaced(trace, d) && d >= 0 && 0 <= i <= j < |trace|
    ensures trace[i].now + (j - i) * d <= trace[j].now
    decreases j - i
  {
    if i < j {
      SpacedSpan(trace, d, i, j - 1);
      assert trace[j - 1].now + d <= trace[j].now;
      assert (j - i) * d == (j - 1 - i) * d + d;
    }
  }

  lemma Later(trace: seq<Sample>, i: int, j: int)
    requires Spaced(trace, 0) && 0 <= i <= j < |trace|
    ensures trace[i].now <= trace[j].now
  {
    SpacedSpan(trace, 0, i, j);
  }

  /**
   * What is known `m` samples into a trace that alerted at `p`: the latest alert `last`, and how
   * the alerts since split into `slow` gaps of at least the holdoff and `cold` gaps in which the
   * machine returned to normal and tripped again.
   */
  ghost predicate Gaps(cfg: Config, trace: seq<Sample>, p: int, m: int, last: int, slow: nat, cold: nat)
    requires cfg.Valid() && 0 <= p <= last < m <= |trace|
  {
    var s := After(cfg, trace[..m]);
    && s.lastAlert == trace[last].now
    && slow * cfg.holdoff <= trace[last].now - trace[p].now
    && cold * (cfg.minAnomalies + cfg.minNormals) <= last - p
    && s.totalFired == After(cfg, trace[..p + 1]).totalFired + slow + cold
    && (s.mode == Normal ==> m - 1 - last >= cfg.minNormals + s.anomalies)
    && (s.mode != Normal ==> m - 1 - last >= s.normals)
  }

  lemma GapGrows(k: nat, unit: int, span: int, span': int)
    requires k * unit <= span && span + unit <= span'
    ensures (k + 1) * unit <= span'
  {
  }

  lemma {:induction false} GapsHold(cfg: Config, trace: seq<Sample>, p: int, m: int)
    returns (last: int, slow: nat, cold: nat)
    requires cfg.Valid() && Spaced(trace, 0) && AlertAt(cfg, trace, p) && p < m <= |trace|
    ensures p <= last < m && Gaps(cfg, trace, p, m, last, slow, cold)
    ensures AlertAt(cfg, trace, m - 1) ==> last == m - 1
    decreases m
  {
    if m == p + 1 {
      FirstGap(cfg, trace, p);
      return p, 0, 0;
    }
    last, slow, cold := GapsHold(cfg, trace, p, m - 1);
    if AlertAt(cfg, trace, m - 1) {
      Later(trace, last, m - 1);
      if After(cfg, trace[..m - 1]).mode == Normal {
        ColdGap(cfg, trace, p, m, last, slow, cold);
        cold := cold + 1;
      } else {
        SlowGap(cfg, trace, p, m, last, slow, cold);
        slow := slow + 1;
      }
      last := m - 1;
    } else {
      QuietSample(cfg, trace, p, m, last, slow, cold);
    }
  }

  lemma QuietSample(cfg: Config, trace: seq<Sample>, p: int, m: int, last: int, slow: nat, cold: nat)
    requires cfg.Valid() && 0 <= p <= last < m - 1 && m <= |trace| && Gaps(cfg, trace, p, m - 1, last, slow, cold)
    requires !AlertAt(cfg, trace, m - 1)
    ensures Gaps(cfg, trace, p, m, last, slow, cold)
  {
    assert trace[..m][..m - 1] == trace[..m - 1];
  }

  lemma FirstGap(cfg: Config, trace: seq<Sample>, p: int)
    requires cfg.Valid() && AlertAt(cfg, trace, p)
    ensures Gaps(cfg, trace, p, p + 1, p, 0, 0)
  {
    assert trace[..p + 1][..p] == trace[..p];
  }

  lemma ColdGap(cfg: Config, trace: seq<Sample>, p: int, m: int, last: int, slow: nat, cold: nat)
    requires cfg.Valid() && 0 <= p <= last < m - 1 && m <= |trace| && Gaps(cfg, trace, p, m - 1, last, slow, cold)
    requires AlertAt(cfg, trace, m - 1) && After(cfg, trace[..m - 1]).mode == Normal
    requires trace[last].now <= trace[m - 1].now
    ensures Gaps(cfg, trace, p, m, m - 1, slow, cold + 1)
  {
    assert trace[..m][..m - 1] == trace[..m - 1];
    GapGrows(cold, cfg.minAnomalies + cfg.minNormals, last - p, m - 1 - p);
  }

  lemma SlowGap(cfg: Config, trace: seq<Sample>, p: int, m: int, last: int, slow: nat, cold: nat)
    requires cfg.Valid() && 0 <= p <= last < m - 1 && m <= |trace| && Gaps(cfg, trace, p, m - 1, last, slow, cold)
    requires AlertAt(cfg, trace, m - 1) && After(cfg, trace[..m - 1]).mode != Normal
    requires trace[last].now <= trace[m - 1].now
    ensures Gaps(cfg, trace, p, m, m - 1, slow + 1, cold)
  {
    assert trace[..m][..m - 1] == trace[..m - 1];
    GapGrows(slow, cfg.holdoff, trace[last].now - trace[p].now, trace[m - 1].now - trace[p].now);
  }

  lemma AtMostQuotient(k: nat, unit: int, span: int)
    requires unit > 0 && k * unit <= span
    ensures k <= span / unit
  {
    var q := span / unit;
    assert span < q * unit + unit;
    if q + 1 <= k {
      ScaledOrder(q + 1, k, unit);
    }
  }

  /** The alerts from `p` to `q`, split by the kind of gap before each. */
  lemma GapsBetween(cfg: Config, trace: seq<Sample>, p: int, q: int) returns (slow: nat, cold: nat)
    requires cfg.Valid() && Spaced(trace, 0) && AlertAt(cfg, trace, p) && AlertAt(cfg, trace, q) && p <= q
    ensures slow * cfg.holdoff <= trace[q].now - trace[p].now
    ensures cold * (cfg.minAnomalies + cfg.minNormals) <= q - p
    ensures AlertCount(cfg, trace[..q + 1]) - AlertCount(cfg, trace[..p + 1]) == slow + cold
  {
    var last;
    last, slow, cold := GapsHold(cfg, trace, p, q + 1);
    assert last == q;
    AnomalyLedger(cfg, trace[..q + 1]);
    AnomalyLedger(cfg, trace[..p + 1]);
  }

  /**
   * The rate of alerts between any alert `p` and any later alert `q`: one for each holdoff period
   * elapsed, plus one for each minAnomalies + minNormals samples taken.
   */
  lemma AlertRateBounded(cfg: Config, trace: seq<Sample>, p: int, q: int)
    requires cfg.Valid() && cfg.holdoff > 0 && Spaced(trace, 0)
    requires AlertAt(cfg, trace, p) && AlertAt(cfg, trace, q) && p <= q
    ensures AlertCount(cfg, trace[..q + 1]) - AlertCount(cfg, trace[..p + 1])
            <= (trace[q].now - trace[p].now) / cfg.holdoff + (q - p) / (cfg.minAnomalies + cfg.minNormals)
  {
    var slow, cold := GapsBetween(cfg, trace, p, q);
    AtMostQuotient(slow, cfg.holdoff, trace[q].now - trace[p].now);
    AtMostQuotient(cold, cfg.minAnomalies + cfg.minNormals, q - p);
  }

  lemma SecondAlertCounts(cfg: Config, trace: seq<Sample>, p: int, q: int)
    requires AlertAt(cfg, trace, q) && 0 <= p < q
    ensures AlertCount(cfg, trace[..p + 1]) < AlertCount(cfg, trace[..q + 1])
  {
    AnomalyLedger(cfg, trace[..p + 1]);
    AnomalyLedger(cfg, trace[..q]);
    FiredMonotone(cfg, trace, p + 1, q);
    assert trace[..q + 1][..q] == trace[..q];
  }

  /** Every gap between alerts is a holdoff long, or long enough to clear and trip again. */
  lemma AlertGap(cfg: Config, trace: seq<Sample>, p: int, q: int)
    requires cfg.Valid() && Spaced(trace, 0)
    requires AlertAt(cfg, trace, p) && AlertAt(cfg, trace, q) && p < q
    ensures trace[q].now - trace[p].now >= cfg.holdoff || q - p >= cfg.minAnomalies + cfg.minNormals
  {
    var slow, cold := GapsBetween(cfg, trace, p, q);
    SecondAlertCounts(cfg, trace, p, q);
    if slow >= 1 {
      AtLeastUnit(slow, cfg.holdoff);
    } else {
      AtLeastUnit(cold, cfg.minAnomalies + cfg.minNormals);
    }
  }

  lemma AtLeastUnit(k: nat, unit: int)
    requires unit >= 0 && k >= 1
    ensures k * unit >= unit
  {
  }

  lemma {:induction false} FiredMonotone(cfg: Config, trace: seq<Sample>, i: int, j: int)
    requires 0 <= i <= j <= |trace|
    ensures After(cfg, trace[..i]).totalFired <= After(cfg, trace[..j]).totalFired
    decreases j - i
  {
    if i < j {
      FiredMonotone(cfg, trace, i, j - 1);
      assert trace[..j][..j - 1] == trace[..j - 1];
    }
  }

  // --- When an alert fires ----------------------------------------------------------------------

  /** No alert among the first `m` samples is later than `last`. */
  ghost predicate NoneAfter(cfg: Config, trace: seq<Sample>, m: int, last: int)
    requires m <= |trace|
  {
    forall p :: 0 <= p < m && AlertAt(cfg, trace, p) ==> trace[p].now <= last
  }

  /** One of them was raised at `last`. */
  ghost predicate SomeAt(cfg: Config, trace: seq<Sample>, m: int, last: int)
    requires m <= |trace|
  {
    exists p :: 0 <= p < m && AlertAt(cfg, trace, p) && trace[p].now == last
  }

  /** The machine after one more sample. */
  lemma ClockStep(cfg: Config, trace: seq<Sample>, m: int)
    requires 0 < m <= |trace|
    ensures var (s, s') := (After(cfg, trace[..m - 1]), After(cfg, trace[..m]));
            && s'.lastAlert == (if AlertAt(cfg, trace, m - 1) then trace[m - 1].now else s.lastAlert)
            && (s'.mode != Normal ==> AlertAt(cfg, trace, m - 1) || s.mode != Normal)
  {
    assert trace[..m][..m - 1] == trace[..m - 1];
  }

  lemma NoneAfterNext(cfg: Config, trace: seq<Sample>, m: int, last: int, last': int)
    requires Spaced(trace, 0) && 0 < m <= |trace| && NoneAfter(cfg, trace, m - 1, last)
    requires last' == if AlertAt(cfg, trace, m - 1) then trace[m - 1].now else last
    ensures NoneAfter(cfg, trace, m, last')
  {
    forall p | 0 <= p < m && AlertAt(cfg, trace, p) ensures trace[p].now <= last' {
      Later(trace, p, m - 1);
    }
  }

  lemma SomeAtNext(cfg: Config, trace: seq<Sample>, m: int, last: int, last': int)
    requires 0 < m <= |trace| && (AlertAt(cfg, trace, m - 1) || SomeAt(cfg, trace, m - 1, last))
    requires last' == if AlertAt(cfg, trace, m - 1) then trace[m - 1].now else last
    ensures SomeAt(cfg, trace, m, last')
  {
    if !AlertAt(cfg, trace, m - 1) {
      var p :| 0 <= p < m - 1 && AlertAt(cfg, trace, p) && trace[p].now == last;
    }
  }

  /** The clock shows the latest alert, and a machine that is not Normal has had one. */
  lemma {:induction false} ClockHolds(cfg: Config, trace: seq<Sample>, m: int)
    requires Spaced(trace, 0) && 0 <= m <= |trace|
    ensures NoneAfter(cfg, trace, m, After(cfg, trace[..m]).lastAlert)
    ensures After(cfg, trace[..m]).mode != Normal ==> SomeAt(cfg, trace, m, After(cfg, trace[..m]).lastAlert)
    decreases m
  {
    if m > 0 {
      var s, s' := After(cfg, trace[..m - 1]), After(cfg, trace[..m]);
      ClockHolds(cfg, trace, m - 1);
      ClockStep(cfg, trace, m);
      NoneAfterNext(cfg, trace, m, s.lastAlert, s'.lastAlert);
      if s'.mode != Normal {
        SomeAtNext(cfg, trace, m, s.lastAlert, s'.lastAlert);
      }
    }
  }

  /** Every earlier alert is at least a holdoff old. */
  ghost predicate Rested(cfg: Config, trace: seq<Sample>, i: int)
    requires 0 <= i < |trace|
  {
    forall p :: 0 <= p < i && AlertAt(cfg, trace, p) ==> trace[i].now - trace[p].now >= cfg.holdoff
  }

  lemma RestedSince(cfg: Config, trace: seq<Sample>, i: int, last: int)
    requires 0 <= i < |trace| && NoneAfter(cfg, trace, i, last) && SomeAt(cfg, trace, i, last)
    ensures trace[i].now - last >= cfg.holdoff <==> Rested(cfg, trace, i)
  {
    var p :| 0 <= p < i && AlertAt(cfg, trace, p) && trace[p].now == last;
  }

  lemma AlertsAfterStart(cfg: Config, trace: seq<Sample>, i: int, last: int)
    requires Spaced(trace, 0) && 0 <= i <= |trace| && SomeAt(cfg, trace, i, last)
    ensures trace[0].now <= last && (i < |trace| ==> last <= trace[i].now)
  {
    var p :| 0 <= p < i && AlertAt(cfg, trace, p) && trace[p].now == last;
    Later(trace, 0, p);
    if i < |trace| {
      Later(trace, p, i);
    }
  }

  lemma HoldoffIsRest(cfg: Config, trace: seq<Sample>, i: int)
    requires cfg.Valid() && Spaced(trace, 0) && 0 <= i < |trace| && trace[0].now > 0
    requires After(cfg, trace[..i]).mode != Normal
    ensures HoldoffOver(cfg, After(cfg, trace[..i]), trace[i].now) <==> Rested(cfg, trace, i)
  {
    var last := After(cfg, trace[..i]).lastAlert;
    ClockHolds(cfg, trace, i);
    RestedSince(cfg, trace, i, last);
    AlertsAfterStart(cfg, trace, i, last);
  }

  /**
   * An alert, without the machine: an anomalous sample that ends a streak of minAnomalies when the
   * machine is not latched, or that finds every earlier alert at least a holdoff old when it is.
   */
  lemma AlertIff(cfg: Config, trace: seq<Sample>, i: int)
    requires cfg.Valid() && Spaced(trace, 0) && 0 <= i < |trace| && trace[0].now > 0
    ensures AlertAt(cfg, trace, i) <==>
              && trace[i].anomalous
              && if Latched(cfg, trace[..i]) then Rested(cfg, trace, i)
                 else Streak(trace, true, cfg.minAnomalies, i + 1)
  {
    HysteresisExact(cfg, trace[..i]);
    if Latched(cfg, trace[..i]) {
      HoldoffIsRest(cfg, trace, i);
    } else {
      StreakAhead(cfg, trace, i);
    }
  }

  lemma StreakAhead(cfg: Config, trace: seq<Sample>, i: int)
    requires cfg.Valid() && 0 <= i < |trace|
    ensures Streak(trace, true, cfg.minAnomalies, i + 1)
            <==> trace[i].anomalous && After(cfg, trace[..i]).anomalies + 1 >= cfg.minAnomalies
  {
    var past, now := trace[..i], trace[..i + 1];
    assert now[..i] == past;
    CountersAreStreaks(cfg, now);
    assert Streak(now, true, cfg.minAnomalies, i + 1) <==> Streak(trace, true, cfg.minAnomalies, i + 1) by {
      assert forall k :: 0 <= k <= i ==> now[k] == trace[k];
    }
  }

  // --- Which of the two latched states ----------------------------------------------------------

  /** Sample `i` is the latest anomalous one. */
  ghost predicate LastAnomaly(trace: seq<Sample>, i: int) {
    0 <= i < |trace| && trace[i].anomalous && forall j :: i < j < |trace| ==> !trace[j].anomalous
  }

  lemma {:induction false} LastAnomalyUnique(trace: seq<Sample>, i: int, j: int)
    requires LastAnomaly(trace, i) && LastAnomaly(trace, j)
    ensures i == j
  {
  }

  lemma {:induction false} LastAnomalyLater(cfg: Config, trace: seq<Sample>, x: Sample, i: int)
    requires LastAnomaly(trace, i) && !x.anomalous
    ensures LastAnomaly(trace + [x], i) && (AlertAt(cfg, trace + [x], i) <==> AlertAt(cfg, trace, i))
  {
    assert (trace + [x])[..i] == trace[..i];
  }

  lemma {:induction false} LastAnomalyNow(cfg: Config, trace: seq<Sample>, x: Sample)
    requires x.anomalous
    ensures LastAnomaly(trace + [x], |trace|)
    ensures AlertAt(cfg, trace + [x], |trace|) <==> Fires(cfg, After(cfg, trace), x)
  {
    assert (trace + [x])[..|trace|] == trace;
  }

  /** A machine that is not Normal shows what its last anomaly did. */
  lemma {:induction false} ModeOfLastAnomaly(cfg: Config, trace: seq<Sample>) returns (i: int)
    ensures var mode := After(cfg, trace).mode;
            mode != Normal ==>
              LastAnomaly(trace, i) && mode == if AlertAt(cfg, trace, i) then Alerting else Suppressed
  {
    hide AlertAt, LastAnomaly;
    i := 0;
    if trace != [] {
      var before, x := trace[..|trace| - 1], trace[|trace| - 1];
      assert trace == before + [x];
      i := ModeOfLastAnomaly(cfg, before);
      AfterNext(cfg, before, x);
      if x.anomalous {
        LastAnomalyNow(cfg, before, x);
        i := |before|;
      } else if After(cfg, before).mode != Normal {
        LastAnomalyLater(cfg, before, x, i);
      }
    }
  }

  /** Over every trace: a latched machine is Alerting exactly when its last anomaly raised an alert. */
  lemma {:induction false} ModeIff(cfg: Config, trace: seq<Sample>)
    requires cfg.Valid()
    ensures After(cfg, trace).mode == Alerting <==>
            Latched(cfg, trace) && exists i :: LastAnomaly(trace, i) && AlertAt(cfg, trace, i)
    ensures After(cfg, trace).mode == Suppressed <==>
            Latched(cfg, trace) && exists i :: LastAnomaly(trace, i) && !AlertAt(cfg, trace, i)
  {
    hide AlertAt, LastAnomaly, Latched, After;
    HysteresisExact(cfg, trace);
    var i := ModeOfLastAnomaly(cfg, trace);
    forall j | LastAnomaly(trace, i) && LastAnomaly(trace, j) ensures i == j {
      LastAnomalyUnique(trace, i, j);
    }
  }

  // --- The documented quiet period --------------------------------------------------------------

  /** `a` anomalies, `n` normal samples and `a` anomalies again, `d` apart. */
  function Flap(a: nat, n: nat, d: int): (trace: seq<Sample>)
    ensures |trace| == a + n + a
  {
    seq(a + n + a, i requires 0 <= i < a + n + a => Sample(i < a || i >= a + n, 1 + i * d))
  }

  /** How the machine moves through the first `i` samples of such a trace. */
  lemma {:induction false} FlapStates(cfg: Config, d: int, i: int)
    requires cfg.Valid() && d >= 0
    requires 0 <= i < 2 * cfg.minAnomalies + cfg.minNormals
    ensures var (a, n) := (cfg.minAnomalies, cfg.minNormals);
            var s := After(cfg, Flap(a, n, d)[..i]);
            && (i < a ==> s.mode == Normal && s.anomalies == i)
            && (a <= i < a + n ==> s.mode == Alerting && s.normals == i - a)
            && (a + n <= i ==> s.mode == Normal && s.anomalies == i - a - n)
  {
    if i > 0 {
      FlapStates(cfg, d, i - 1);
      var trace := Flap(cfg.minAnomalies, cfg.minNormals, d);
      assert trace[..i][..i - 1] == trace[..i - 1];
    }
  }

  lemma FlapSpaced(a: nat, n: nat, d: int)
    requires d >= 0
    ensures Spaced(Flap(a, n, d), d)
  {
    var trace := Flap(a, n, d);
    forall i | 0 < i < |trace| ensures trace[i - 1].now + d <= trace[i].now {
      assert i * d == (i - 1) * d + d;
    }
  }

  /** The promise on HoldoffDuration: "the minimum quiet period between alert triggers". */
  ghost predicate QuietPeriodKept(cfg: Config, d: int) {
    forall trace: seq<Sample>, p: int, q: int ::
      Spaced(trace, d) && AlertAt(cfg, trace, p) && AlertAt(cfg, trace, q) && p < q ==>
        trace[q].now - trace[p].now >= cfg.holdoff
  }

  lemma FlapAlerts(cfg: Config, d: int)
    requires cfg.Valid() && d >= 0
    ensures var (a, n) := (cfg.minAnomalies, cfg.minNormals);
            AlertAt(cfg, Flap(a, n, d), a - 1) && AlertAt(cfg, Flap(a, n, d), a + n + a - 1)
  {
    FlapStates(cfg, d, cfg.minAnomalies - 1);
    FlapStates(cfg, d, cfg.minAnomalies + cfg.minNormals + cfg.minAnomalies - 1);
  }

  lemma TooSoon(cfg: Config, d: int) returns (trace: seq<Sample>, p: int, q: int)
    requires cfg.Valid() && d >= 0
    ensures Spaced(trace, d) && AlertAt(cfg, trace, p) && AlertAt(cfg, trace, q) && p < q
    ensures trace[q].now - trace[p].now == (cfg.minAnomalies + cfg.minNormals) * d
  {
    var a, n := cfg.minAnomalies, cfg.minNormals;
    FlapSpaced(a, n, d);
    FlapAlerts(cfg, d);
    trace, p, q := Flap(a, n, d), a - 1, a + n + a - 1;
    FlapSpan(p, a + n, d, trace);
  }

  lemma QuietPeriodBroken(cfg: Config, d: int)
    requires cfg.Valid() && d >= 0 && (cfg.minAnomalies + cfg.minNormals) * d < cfg.holdoff
    ensures !QuietPeriodKept(cfg, d)
  {
    var trace, p, q := TooSoon(cfg, d);
  }

  lemma FlapSpan(p: int, k: int, d: int, trace: seq<Sample>)
    requires 0 <= p <= p + k < |trace| && trace[p].now == 1 + p * d && trace[p + k].now == 1 + (p + k) * d
    ensures trace[p + k].now - trace[p].now == k * d
  {
  }

  /**
   * The promise does not hold as documented: re-tripping from Normal ignores the holdoff. For
   * samples at least `d` apart it holds exactly when clearing and tripping again takes that long.
   */
  lemma QuietPeriodIff(cfg: Config, d: int)
    requires cfg.Valid() && d >= 0
    ensures QuietPeriodKept(cfg, d) <==> cfg.holdoff <= (cfg.minAnomalies + cfg.minNormals) * d
  {
    if cfg.holdoff <= (cfg.minAnomalies + cfg.minNormals) * d {
      forall trace: seq<Sample>, p: int, q: int
        | Spaced(trace, d) && AlertAt(cfg, trace, p) && AlertAt(cfg, trace, q) && p < q
        ensures trace[q].now - trace[p].now >= cfg.holdoff
      {
        SpacedLoosens(trace, d);
        AlertGap(cfg, trace, p, q);
        SpacedSpan(trace, d, p, q);
        if q - p >= cfg.minAnomalies + cfg.minNormals {
          ScaledOrder(cfg.minAnomalies + cfg.minNormals, q - p, d);
        }
      }
    } else {
      QuietPeriodBroken(cfg, d);
    }
  }

  lemma SpacedLoosens(trace: seq<Sample>, d: int)
    requires Spaced(trace, d) && d >= 0
    ensures Spaced(trace, 0)
  {
  }

  lemma ScaledOrder(k: int, n: int, d: int)
    requires k <= n && d >= 0
    ensures k * d <= n * d
  {
  }
}
