/**
 * What the agent's tick loop (cmd/agent/main.go) has done after any history of ticks: each
 * component's state as a function of that history, and what follows for all of them together.
 * Class Agent is proved to follow these functions.
 */
module AgentSpec {
  import opened StreamingStats
  import S = Suppressor
  import R = RingBuffer
  import H = Heartbeat
  import C = Cgroup
  import I = Interval

  const MILLISECOND := 1_000_000
  const SUPPRESSOR := S.Config(10_000 * MILLISECOND, 2, 3)
  const RECOVERY_STEP := 500 * MILLISECOND
  const CONTEXT := 20
  const HEARTBEAT := 30_000 * MILLISECOND

  /** What one tick has measured, and whether a write to cpu.max would succeed. */
  datatype Tick = Measurements(now: int, cpu: real, mem: real, baselineCpu: real, baselineMem: real,
                       z: real, rawAnomaly: bool, drift: real, drifting: bool,
                       memTotal: nat, memAvailable: nat, throughput: real, writeOk: bool)

  /** IsSaturated with the agent's floor of 5 percent. */
  predicate Saturated(memTotal: nat, memAvailable: nat) {
    memTotal != 0 && memAvailable as real / memTotal as real < 0.05
  }

  predicate Anomalous(t: Tick) {
    t.rawAnomaly || Saturated(t.memTotal, t.memAvailable)
  }

  /** What makes a tick anomalous, in whole numbers: a raw anomaly, or less than a twentieth of memory available. */
  predicate Troubled(t: Tick) {
    t.rawAnomaly || (t.memTotal != 0 && 20 * t.memAvailable < t.memTotal)
  }

  lemma SaturatedIff(total: nat, available: nat)
    ensures Saturated(total, available) <==> total != 0 && 20 * available < total
  {
    if total != 0 {
      var q := available as real / total as real;
      assert q * total as real == available as real;
      if q < 0.05 {
        BelowScaled(q, 0.05, total as real);
      } else {
        AtLeastScaled(q, 0.05, total as real);
      }
    }
  }

  lemma BelowScaled(x: real, y: real, k: real)
    requires x < y && k > 0.0
    ensures x * k < y * k
  {
  }

  lemma AtLeastScaled(x: real, y: real, k: real)
    requires x >= y && k > 0.0
    ensures x * k >= y * k
  {
  }

  lemma AnomalousIff(t: Tick)
    ensures Anomalous(t) <==> Troubled(t)
  {
    SaturatedIff(t.memTotal, t.memAvailable);
  }

  function SampleOf(t: Tick): S.Sample { S.Sample(Anomalous(t), t.now) }

  function EntryOf(t: Tick): R.Entry { R.Entry(t.now, t.cpu, t.z, Anomalous(t)) }

  function ReadingOf(t: Tick): I.Reading { I.Reading(Some(t.z), Some(t.drift)) }

  function Map<A, B>(f: A -> B, xs: seq<A>): (ys: seq<B>)
    ensures |ys| == |xs| && forall i :: 0 <= i < |xs| ==> ys[i] == f(xs[i])
  {
    seq(|xs|, i requires 0 <= i < |xs| => f(xs[i]))
  }

  lemma MapNext<A, B>(f: A -> B, xs: seq<A>, x: A)
    ensures Map(f, xs + [x]) == Map(f, xs) + [f(x)]
  {
  }

  function Samples(h: seq<Tick>): (s: seq<S.Sample>)
    ensures |s| == |h|
  {
    Map(SampleOf, h)
  }

  function Suppression(h: seq<Tick>): S.State { S.After(SUPPRESSOR, Samples(h)) }

  lemma SuppressionNext(h: seq<Tick>, t: Tick)
    ensures Suppression(h + [t]) == S.Next(SUPPRESSOR, Suppression(h), SampleOf(t))
  {
    MapNext(SampleOf, h, t);
    S.AfterNext(SUPPRESSOR, Samples(h), SampleOf(t));
  }

  /** Whether the last tick of `h` raised an alert. */
  predicate Alerts(h: seq<Tick>)
    requires h != []
  {
    S.Fires(SUPPRESSOR, Suppression(h[..|h| - 1]), SampleOf(h[|h| - 1]))
  }

  // --- The governor -----------------------------------------------------------------------------

  datatype Host = Host(readOnly: bool, cores: nat, cpuMax: C.Quota, firstWriteOk: bool, bootTime: int)

  datatype Governor = Governor(prev: S.Mode, quota: C.View)

  /** newAgent: ask for the quiescent quota once. */
  function GovernorStart(host: Host): Governor {
    Governor(S.Normal, C.Asked(C.View(C.Quiescent, false, host.cpuMax), host.readOnly, host.cores, C.Quiescent,
                               host.firstWriteOk))
  }

  /** updateCgroup: act on changes of state only. */
  function GovernorNext(host: Host, g: Governor, mode: S.Mode, writeOk: bool): Governor {
    if mode == g.prev then g
    else
      match mode
      case Alerting => Governor(mode, C.Asked(g.quota, host.readOnly, host.cores, C.Burst, writeOk))
      case Normal => Governor(mode, C.Asked(g.quota, host.readOnly, host.cores, C.Quiescent, writeOk))
      case Suppressed => Governor(mode, g.quota)
  }

  function GovernorAfter(host: Host, h: seq<Tick>): Governor {
    if h == [] then GovernorStart(host)
    else
      GovernorNext(host, GovernorAfter(host, h[..|h| - 1]), Suppression(h).mode, h[|h| - 1].writeOk)
  }

  ghost predicate AllWritesSucceed(host: Host, h: seq<Tick>) {
    host.firstWriteOk && forall i :: 0 <= i < |h| ==> h[i].writeOk
  }

  /** Writable and without write errors, the quota is lifted exactly while the suppressor is not Normal. */
  lemma {:induction false} BurstIffNotNormal(host: Host, h: seq<Tick>)
    requires !host.readOnly && AllWritesSucceed(host, h)
    ensures var g := GovernorAfter(host, h);
            && g.prev == Suppression(h).mode && g.quota.hasMode
            && g.quota.mode == (if Suppression(h).mode == S.Normal then C.Quiescent else C.Burst)
            && g.quota.cpuMax == (if Suppression(h).mode == S.Normal then C.Share(host.cores * 5000) else C.BurstQuota)
  {
    if h != [] {
      var n := |h| - 1;
      BurstIffNotNormal(host, h[..n]);
      SuppressionNext(h[..n], h[n]);
      assert h == h[..n] + [h[n]];
    }
  }

  /** Whatever fails, a recorded mode is the one written in cpu.max; a read-only host is never touched. */
  lemma {:induction false} RecordedModeIsWritten(host: Host, h: seq<Tick>)
    ensures var q := GovernorAfter(host, h).quota;
            && (q.hasMode ==> q.cpuMax == C.QuotaOf(q.mode, host.cores))
            && (host.readOnly ==> q == C.View(C.Quiescent, false, host.cpuMax))
            && GovernorAfter(host, h).prev == Suppression(h).mode
  {
    if h != [] {
      RecordedModeIsWritten(host, h[..|h| - 1]);
    }
  }

  /** A tick that leaves the suppressor where it was, or suppressed, leaves the quota alone. */
  lemma OnlyTransitionsWrite(host: Host, h: seq<Tick>)
    requires h != []
    requires var mode := Suppression(h).mode; mode == S.Suppressed || mode == Suppression(h[..|h| - 1]).mode
    ensures GovernorAfter(host, h).quota == GovernorAfter(host, h[..|h| - 1]).quota
  {
    RecordedModeIsWritten(host, h[..|h| - 1]);
  }

  /** What a change of the suppressor's state asks of the controller. */
  function Asks(before: S.Mode, after: S.Mode): Option<C.Mode> {
    if before == after || after == S.Suppressed then None
    else if after == S.Alerting then Some(C.Burst)
    else Some(C.Quiescent)
  }

  /** The mode asked for by the last request whose write succeeded, counting the one at boot. */
  function LastGranted(host: Host, h: seq<Tick>): Option<C.Mode> {
    if h == [] then (if host.firstWriteOk then Some(C.Quiescent) else None)
    else
      var (before, t) := (h[..|h| - 1], h[|h| - 1]);
      var ask := Asks(Suppression(before).mode, Suppression(h).mode);
      if ask.Some? && t.writeOk then ask else LastGranted(host, before)
  }

  function Granted(host: Host, mode: Option<C.Mode>): C.View {
    if mode.None? then C.View(C.Quiescent, false, host.cpuMax)
    else C.View(mode.value, true, C.QuotaOf(mode.value, host.cores))
  }

  /** On a writable host, mode and file are those of the last request granted, whatever failed. */
  lemma {:induction false} QuotaIsLastGranted(host: Host, h: seq<Tick>)
    requires !host.readOnly
    ensures GovernorAfter(host, h).quota == Granted(host, LastGranted(host, h))
  {
    if h != [] {
      QuotaIsLastGranted(host, h[..|h| - 1]);
      RecordedModeIsWritten(host, h[..|h| - 1]);
    }
  }

  /** The mode that the suppressor's state calls for. */
  function Wanted(h: seq<Tick>): C.Mode {
    if Suppression(h).mode == S.Normal then C.Quiescent else C.Burst
  }

  /** The quota is the wanted one exactly when the last request granted asked for it, or it always was. */
  lemma QuotaAgreesIff(host: Host, h: seq<Tick>)
    requires !host.readOnly
    ensures GovernorAfter(host, h).quota.mode == Wanted(h) <==>
              LastGranted(host, h) == Some(Wanted(h)) || (LastGranted(host, h) == None && Wanted(h) == C.Quiescent)
    ensures GovernorAfter(host, h).quota.cpuMax == C.QuotaOf(Wanted(h), host.cores) <==>
              || LastGranted(host, h) == Some(Wanted(h))
              || (LastGranted(host, h) == None && host.cpuMax == C.QuotaOf(Wanted(h), host.cores))
  {
    QuotaIsLastGranted(host, h);
  }

  /** All ticks are anomalous, within a holdoff of the second one, whose write is the only one to fail. */
  ghost predicate SecondWriteFails(h: seq<Tick>) {
    && (forall i :: 0 <= i < |h| ==> Anomalous(h[i]) && (h[i].writeOk <==> i != 1))
    && (|h| >= 2 ==> h[1].now != 0)
    && (forall i :: 2 <= i < |h| ==> h[i].now - h[1].now < SUPPRESSOR.holdoff)
  }

  lemma {:induction false} AlertThenSuppressed(h: seq<Tick>)
    requires SecondWriteFails(h)
    ensures var s := Suppression(h);
            if |h| < 2 then s.mode == S.Normal && s.anomalies == |h|
            else s.mode == (if |h| == 2 then S.Alerting else S.Suppressed) && s.lastAlert == h[1].now
  {
    if h != [] {
      var n := |h| - 1;
      AlertThenSuppressed(h[..n]);
      SuppressionNext(h[..n], h[n]);
      assert h == h[..n] + [h[n]];
    }
  }

  /** The burst request is denied once, and no later tick asks again. */
  lemma {:induction false} DeniedBurst(host: Host, h: seq<Tick>)
    requires SecondWriteFails(h) && host.firstWriteOk
    ensures LastGranted(host, h) == Some(C.Quiescent)
  {
    if h != [] {
      DeniedBurst(host, h[..|h| - 1]);
      AlertThenSuppressed(h[..|h| - 1]);
      AlertThenSuppressed(h);
    }
  }

  // --- Alerts, on the ticks themselves ----------------------------------------------------------

  /** The `len` ticks before position `end` are all troubled, or all calm. */
  ghost predicate AllTicks(h: seq<Tick>, troubled: bool, len: int, end: int) {
    0 <= len <= end <= |h| && forall k :: end - len <= k < end ==> Troubled(h[k]) == troubled
  }

  /** Two troubled ticks in a row at some point, and no three calm ones in a row since. */
  ghost predicate Unsettled(h: seq<Tick>) {
    exists i :: 0 <= i <= |h| && AllTicks(h, true, 2, i) && forall j :: i < j <= |h| ==> !AllTicks(h, false, 3, j)
  }

  lemma {:induction false} StreakOnTicks(h: seq<Tick>, troubled: bool, len: int, end: int)
    ensures AllTicks(h, troubled, len, end) <==> S.Streak(Samples(h), troubled, len, end)
  {
    forall k | 0 <= k < |h| ensures Samples(h)[k].anomalous <==> Troubled(h[k]) {
      AnomalousIff(h[k]);
    }
  }

  lemma {:induction false} UnsettledIsLatched(h: seq<Tick>)
    ensures Unsettled(h) <==> S.Latched(SUPPRESSOR, Samples(h))
  {
    hide AllTicks, S.Streak;
    forall i ensures AllTicks(h, true, 2, i) <==> S.Streak(Samples(h), true, 2, i) {
      StreakOnTicks(h, true, 2, i);
    }
    forall j ensures AllTicks(h, false, 3, j) <==> S.Streak(Samples(h), false, 3, j) {
      StreakOnTicks(h, false, 3, j);
    }
  }

  lemma {:induction false} AlertsIsAlertAt(h: seq<Tick>, i: int)
    requires 0 <= i < |h|
    ensures Alerts(h[..i + 1]) <==> S.AlertAt(SUPPRESSOR, Samples(h), i)
  {
    assert h[..i + 1][..i] == h[..i];
    assert Samples(h)[..i] == Samples(h[..i]);
  }

  /** Every earlier alert is at least ten seconds old. */
  ghost predicate TenSecondsQuiet(h: seq<Tick>, i: int)
    requires 0 <= i < |h|
  {
    forall p :: 0 <= p < i && Alerts(h[..p + 1]) ==> h[i].now - h[p].now >= 10_000_000_000
  }

  lemma {:induction false} QuietIsRested(h: seq<Tick>, i: int)
    requires 0 <= i < |h|
    ensures TenSecondsQuiet(h, i) <==> S.Rested(SUPPRESSOR, Samples(h), i)
  {
    hide Alerts, S.AlertAt;
    forall p | 0 <= p < i ensures Alerts(h[..p + 1]) <==> S.AlertAt(SUPPRESSOR, Samples(h), p) {
      AlertsIsAlertAt(h, p);
    }
    assert forall p :: 0 <= p < |h| ==> Samples(h)[p].now == h[p].now;
  }

  /**
   * When the daemon alerts, in terms of its ticks alone: on a troubled tick that is the second in a
   * row, or, from then until three calm ones in a row, whenever ten seconds have passed since every
   * alert.
   */
  lemma {:induction false} AlertIffOnTicks(h: seq<Tick>, i: int)
    requires Ordered(h) && 0 <= i < |h| && h[0].now > 0
    ensures Alerts(h[..i + 1]) <==>
              && Troubled(h[i])
              && if Unsettled(h[..i]) then TenSecondsQuiet(h, i) else AllTicks(h, true, 2, i + 1)
  {
    hide Alerts, S.AlertAt, Unsettled, S.Latched, TenSecondsQuiet, S.Rested, AllTicks, S.Streak, Troubled, Anomalous;
    assert S.Spaced(Samples(h), 0);
    S.AlertIff(SUPPRESSOR, Samples(h), i);
    AlertsIsAlertAt(h, i);
    AnomalousIff(h[i]);
    assert Samples(h)[..i] == Samples(h[..i]);
    UnsettledIsLatched(h[..i]);
    QuietIsRested(h, i);
    StreakOnTicks(h, true, 2, i + 1);
  }

  /**
   * The interval after any tick: the one its score and drift call for, or one recovery step more
   * than the last if that is shorter.
   */
  lemma {:induction false} IntervalOfTick(l: I.Limits, h: seq<Tick>, p: real)
    requires l.Valid() && h != []
    requires var t := h[|h| - 1];
             || (t.z == p * l.theta && t.drift <= p * l.driftThreshold)
             || (t.drift == p * l.driftThreshold && t.z <= p * l.theta)
    ensures var target := if p < -1.0 || 1.0 < p then l.tauMin
                          else (l.tauMax as real - (l.tauMax as real - l.tauMin as real) * I.AbsReal(p)).Floor;
            I.Tau(l, l.tauMax, Map(ReadingOf, h))
            == I.Min(target, I.Tau(l, l.tauMax, Map(ReadingOf, h[..|h| - 1])) + l.delta)
  {
    hide I.Target;
    var rs, n := Map(ReadingOf, h), |h| - 1;
    assert rs[..n] == Map(ReadingOf, h[..n]);
    assert I.Leads(l, rs[n], p);
    I.TauStep(l, l.tauMax, rs);
    I.TargetInterpolates(l, rs[n]);
  }

  // --- Pre-alert context ------------------------------------------------------------------------

  /** The snapshot taken after the last tick of `h`. */
  function Context(h: seq<Tick>): seq<R.Entry> {
    R.LastUpTo(CONTEXT, Map(EntryOf, h))
  }

  /** An alert that leaves Normal ends a streak of minAnomalies anomalous ticks. */
  lemma TrippingStreak(h: seq<Tick>)
    requires h != [] && Alerts(h) && Suppression(h[..|h| - 1]).mode == S.Normal
    ensures SUPPRESSOR.minAnomalies <= |h|
    ensures forall k :: |h| - SUPPRESSOR.minAnomalies <= k < |h| ==> Anomalous(h[k])
  {
    var n := |h| - 1;
    SuppressionNext(h[..n], h[n]);
    assert h == h[..n] + [h[n]];
    S.CountersAreStreaks(SUPPRESSOR, Samples(h));
    assert S.Streak(Samples(h), true, SUPPRESSOR.minAnomalies, |h|);
    forall k | |h| - SUPPRESSOR.minAnomalies <= k < |h| ensures Anomalous(h[k]) {
      assert Samples(h)[k].anomalous;
    }
  }

  /**
   * At every alert the snapshot holds the last min(20, ticks) entries, ending with the anomalous
   * tick itself; when the alert leaves Normal, its last minAnomalies entries are all anomalous.
   */
  lemma ContextAtAlert(h: seq<Tick>)
    requires h != [] && Alerts(h)
    ensures |Context(h)| == if |h| < CONTEXT then |h| else CONTEXT
    ensures forall i :: 0 <= i < |Context(h)| ==> Context(h)[i] == EntryOf(h[|h| - |Context(h)| + i])
    ensures var e := Context(h)[|Context(h)| - 1];
            e.anomalous && e.timestamp == h[|h| - 1].now && e.value == h[|h| - 1].cpu && e.zScore == h[|h| - 1].z
    ensures Suppression(h[..|h| - 1]).mode == S.Normal ==>
              && SUPPRESSOR.minAnomalies <= |Context(h)|
              && forall i :: |Context(h)| - SUPPRESSOR.minAnomalies <= i < |Context(h)| ==> Context(h)[i].anomalous
  {
    ContextEntries(h);
    if Suppression(h[..|h| - 1]).mode == S.Normal {
      TrippingStreak(h);
    }
  }

  lemma ContextEntries(h: seq<Tick>)
    ensures |Context(h)| == if |h| < CONTEXT then |h| else CONTEXT
    ensures forall i :: 0 <= i < |Context(h)| ==> Context(h)[i] == EntryOf(h[|h| - |Context(h)| + i])
  {
    var entries := Map(EntryOf, h);
    forall i | 0 <= i < |Context(h)| ensures Context(h)[i] == EntryOf(h[|h| - |Context(h)| + i]) {
      assert R.LastUpTo(CONTEXT, entries)[i] == entries[|entries| - |Context(h)| + i];
    }
  }

  // --- Heartbeats -------------------------------------------------------------------------------

  function ObservationAt(h: seq<Tick>, i: nat): H.Observation
    requires i < |h|
  {
    H.Observation(h[i].throughput, Anomalous(h[i]), Suppression(h[..i + 1]).mode == S.Suppressed)
  }

  function Observations(h: seq<Tick>): (w: seq<H.Observation>)
    ensures |w| == |h|
  {
    seq(|h|, i requires 0 <= i < |h| => ObservationAt(h, i))
  }

  lemma ObservationsNext(h: seq<Tick>, t: Tick)
    ensures Observations(h + [t]) == Observations(h) + [ObservationAt(h + [t], |h|)]
  {
    forall i | 0 <= i < |h| ensures ObservationAt(h + [t], i) == ObservationAt(h, i) {
      assert (h + [t])[..i + 1] == h[..i + 1];
    }
  }

  /** The open window: when it started, and the first tick in it. */
  datatype Window = Window(start: int, first: nat)

  predicate Flushes(w: Window, now: int) {
    w.start != 0 && now - w.start >= HEARTBEAT
  }

  function OpenWindow(bootTime: int, h: seq<Tick>): (w: Window)
    ensures w.first <= |h|
  {
    if h == [] then Window(bootTime, 0)
    else
      var (w, now) := (OpenWindow(bootTime, h[..|h| - 1]), h[|h| - 1].now);
      if Flushes(w, now) then Window(now, |h|) else w
  }

  /** The heartbeat sent by the last tick of `h`, if any. */
  function BeatAt(bootTime: int, h: seq<Tick>): seq<H.Summary>
    requires h != []
  {
    var (w, now) := (OpenWindow(bootTime, h[..|h| - 1]), h[|h| - 1].now);
    if Flushes(w, now) then [H.SummaryOf(w.start, now, Observations(h)[w.first..])] else []
  }

  function Beats(bootTime: int, h: seq<Tick>): seq<H.Summary> {
    if h == [] then [] else Beats(bootTime, h[..|h| - 1]) + BeatAt(bootTime, h)
  }

  /** The observations of the window still open. */
  function Pending(bootTime: int, h: seq<Tick>): seq<H.Observation> {
    Observations(h)[OpenWindow(bootTime, h).first..]
  }

  /** Consecutive windows share their boundary, from boot to the start of the open window. */
  ghost predicate Tiles(from: int, beats: seq<H.Summary>, to: int) {
    && (if beats == [] then from == to else beats[0].startTime == from && beats[|beats| - 1].endTime == to)
    && forall i :: 0 < i < |beats| ==> beats[i - 1].endTime == beats[i].startTime
  }

  lemma TilesNext(from: int, beats: seq<H.Summary>, to: int, b: H.Summary)
    requires Tiles(from, beats, to) && b.startTime == to
    ensures Tiles(from, beats + [b], b.endTime)
  {
  }

  lemma {:induction false} WindowsTileTime(bootTime: int, h: seq<Tick>)
    ensures Tiles(bootTime, Beats(bootTime, h), OpenWindow(bootTime, h).start)
  {
    if h != [] {
      var n := |h| - 1;
      var w := OpenWindow(bootTime, h[..n]);
      WindowsTileTime(bootTime, h[..n]);
      BeatsNext(bootTime, h);
      if Flushes(w, h[n].now) {
        var b := H.SummaryOf(w.start, h[n].now, Observations(h)[w.first..]);
        TilesNext(bootTime, Beats(bootTime, h[..n]), w.start, b);
      }
    }
  }

  function SampleTotal(beats: seq<H.Summary>): nat {
    if beats == [] then 0 else SampleTotal(beats[..|beats| - 1]) + beats[|beats| - 1].totalSamples
  }

  function AnomalyTotal(beats: seq<H.Summary>): nat {
    if beats == [] then 0 else AnomalyTotal(beats[..|beats| - 1]) + beats[|beats| - 1].anomalousCount
  }

  function SuppressedTotal(beats: seq<H.Summary>): nat {
    if beats == [] then 0 else SuppressedTotal(beats[..|beats| - 1]) + beats[|beats| - 1].suppressedCount
  }

  lemma TotalsNext(beats: seq<H.Summary>, b: H.Summary)
    ensures SampleTotal(beats + [b]) == SampleTotal(beats) + b.totalSamples
    ensures AnomalyTotal(beats + [b]) == AnomalyTotal(beats) + b.anomalousCount
    ensures SuppressedTotal(beats + [b]) == SuppressedTotal(beats) + b.suppressedCount
  {
    assert (beats + [b])[..|beats|] == beats;
  }

  lemma PendingNext(bootTime: int, h: seq<Tick>)
    requires h != []
    ensures var (n, w) := (|h| - 1, OpenWindow(bootTime, h[..|h| - 1]));
            && Observations(h)[w.first..] == Pending(bootTime, h[..n]) + [ObservationAt(h, n)]
            && Pending(bootTime, h) == (if Flushes(w, h[n].now) then [] else Observations(h)[w.first..])
  {
    var n := |h| - 1;
    ObservationsNext(h[..n], h[n]);
    assert h == h[..n] + [h[n]];
  }

  lemma BeatsNext(bootTime: int, h: seq<Tick>)
    requires h != []
    ensures var (n, w) := (|h| - 1, OpenWindow(bootTime, h[..|h| - 1]));
            var b := H.SummaryOf(w.start, h[n].now, Observations(h)[w.first..]);
            Beats(bootTime, h) == if Flushes(w, h[n].now) then Beats(bootTime, h[..n]) + [b]
                                  else Beats(bootTime, h[..n])
  {
  }

  /** The books of the heartbeats `beats` and the open window `pending`. */
  predicate Books(beats: seq<H.Summary>, pending: seq<H.Observation>, ticks: nat, anomalies: nat, suppressed: nat) {
    && SampleTotal(beats) + |pending| == ticks
    && AnomalyTotal(beats) + H.Anomalies(pending) == anomalies
    && SuppressedTotal(beats) + H.Suppressions(pending) >= suppressed
  }

  lemma BooksObserve(beats: seq<H.Summary>, pending: seq<H.Observation>, o: H.Observation,
                     ticks: nat, anomalies: nat, suppressed: nat, suppressed': nat)
    requires Books(beats, pending, ticks, anomalies, suppressed)
    requires suppressed' <= suppressed + (if o.suppressed then 1 else 0)
    ensures Books(beats, pending + [o], ticks + 1, anomalies + (if o.anomalous then 1 else 0), suppressed')
  {
    H.WindowNext(pending, o);
  }

  lemma BooksFlush(beats: seq<H.Summary>, pending: seq<H.Observation>, start: int, end: int,
                   ticks: nat, anomalies: nat, suppressed: nat)
    requires Books(beats, pending, ticks, anomalies, suppressed)
    ensures Books(beats + [H.SummaryOf(start, end, pending)], [], ticks, anomalies, suppressed)
  {
    TotalsNext(beats, H.SummaryOf(start, end, pending));
  }

  /** What one tick adds to the suppressor's totals, against what the heartbeat observes. */
  lemma TickTotals(h: seq<Tick>)
    requires h != []
    ensures var (s, s', o) := (Suppression(h[..|h| - 1]), Suppression(h), ObservationAt(h, |h| - 1));
            && s'.totalAnomalies == s.totalAnomalies + (if o.anomalous then 1 else 0)
            && s'.totalSuppressed <= s.totalSuppressed + (if o.suppressed then 1 else 0)
  {
    var n := |h| - 1;
    SuppressionNext(h[..n], h[n]);
    assert h == h[..n] + [h[n]] && h[..n + 1] == h;
  }

  ghost predicate LedgerHolds(bootTime: int, h: seq<Tick>) {
    Books(Beats(bootTime, h), Pending(bootTime, h), |h|, Suppression(h).totalAnomalies, Suppression(h).totalSuppressed)
  }

  /** Flushed plus pending counts match the ticks taken and the suppressor's own totals. */
  lemma {:induction false} HeartbeatLedger(bootTime: int, h: seq<Tick>)
    ensures LedgerHolds(bootTime, h)
  {
    if h != [] {
      HeartbeatLedger(bootTime, h[..|h| - 1]);
      LedgerTick(bootTime, h);
    }
  }

  lemma LedgerTick(bootTime: int, h: seq<Tick>)
    requires h != [] && LedgerHolds(bootTime, h[..|h| - 1])
    ensures LedgerHolds(bootTime, h)
  {
    var n := |h| - 1;
    var beats, before := Beats(bootTime, h[..n]), Pending(bootTime, h[..n]);
    var o, w := ObservationAt(h, n), OpenWindow(bootTime, h[..n]);
    var s, s' := Suppression(h[..n]), Suppression(h);
    PendingNext(bootTime, h);
    BeatsNext(bootTime, h);
    TickTotals(h);
    BooksObserve(beats, before, o, n, s.totalAnomalies, s.totalSuppressed, s'.totalSuppressed);
    if Flushes(w, h[n].now) {
      BooksFlush(beats, before + [o], w.start, h[n].now, |h|, s'.totalAnomalies, s'.totalSuppressed);
    }
  }

  function SumTotal(beats: seq<H.Summary>): real {
    if beats == [] then 0.0 else SumTotal(beats[..|beats| - 1]) + beats[|beats| - 1].sumVal
  }

  function ThroughputOver(h: seq<Tick>): real {
    if h == [] then 0.0 else ThroughputOver(h[..|h| - 1]) + h[|h| - 1].throughput
  }

  /** Ticks after which the suppressor was holding alerts back. */
  function SuppressedTicks(h: seq<Tick>): nat {
    if h == [] then 0
    else SuppressedTicks(h[..|h| - 1]) + (if Suppression(h).mode == S.Suppressed then 1 else 0)
  }

  /** The heartbeats `beats` and the open window add up to these totals. */
  predicate AddsUp(beats: seq<H.Summary>, pending: seq<H.Observation>, throughput: real, suppressed: nat) {
    && SumTotal(beats) + H.Total(pending) == throughput
    && SuppressedTotal(beats) + H.Suppressions(pending) == suppressed
  }

  lemma {:induction false} AddsUpObserve(beats: seq<H.Summary>, pending: seq<H.Observation>, o: H.Observation,
                      throughput: real, suppressed: nat)
    requires AddsUp(beats, pending, throughput, suppressed)
    ensures AddsUp(beats, pending + [o], throughput + o.value, suppressed + (if o.suppressed then 1 else 0))
  {
    H.WindowNext(pending, o);
  }

  lemma {:induction false} AddsUpFlush(beats: seq<H.Summary>, pending: seq<H.Observation>, start: int, end: int,
                    throughput: real, suppressed: nat)
    requires AddsUp(beats, pending, throughput, suppressed)
    ensures AddsUp(beats + [H.SummaryOf(start, end, pending)], [], throughput, suppressed)
  {
    var b := H.SummaryOf(start, end, pending);
    TotalsNext(beats, b);
    assert (beats + [b])[..|beats|] == beats;
  }

  /** Conservation: no throughput and no suppressed tick is lost between windows or reported twice. */
  lemma {:induction false} HeartbeatsAddUp(bootTime: int, h: seq<Tick>)
    ensures AddsUp(Beats(bootTime, h), Pending(bootTime, h), ThroughputOver(h), SuppressedTicks(h))
  {
    if h != [] {
      HeartbeatsAddUp(bootTime, h[..|h| - 1]);
      AddsUpTick(bootTime, h);
    }
  }

  lemma {:induction false} AddsUpTick(bootTime: int, h: seq<Tick>)
    requires h != []
    requires var before := h[..|h| - 1];
             AddsUp(Beats(bootTime, before), Pending(bootTime, before), ThroughputOver(before), SuppressedTicks(before))
    ensures AddsUp(Beats(bootTime, h), Pending(bootTime, h), ThroughputOver(h), SuppressedTicks(h))
  {
    hide AddsUp, Pending, OpenWindow, Suppression, Observations, Anomalous, H.SummaryOf;
    var n := |h| - 1;
    var w, o := OpenWindow(bootTime, h[..n]), ObservationAt(h, n);
    var beats, before := Beats(bootTime, h[..n]), Pending(bootTime, h[..n]);
    PendingNext(bootTime, h);
    BeatsNext(bootTime, h);
    assert h[..n + 1] == h;
    AddsUpObserve(beats, before, o, ThroughputOver(h[..n]), SuppressedTicks(h[..n]));
    if Flushes(w, h[n].now) {
      AddsUpFlush(beats, before + [o], w.start, h[n].now, ThroughputOver(h), SuppressedTicks(h));
    }
  }

  /** A heartbeat covers the ticks since the last one: none missing, extremes attained and bounding them all. */
  lemma {:induction false} BeatDescribesWindow(bootTime: int, h: seq<Tick>)
    requires h != [] && BeatAt(bootTime, h) != []
    ensures var (b, first) := (BeatAt(bootTime, h)[0], OpenWindow(bootTime, h[..|h| - 1]).first);
            && b.totalSamples == |h| - first > 0
            && (forall k :: first <= k < |h| ==> b.minVal <= h[k].throughput <= b.maxVal)
            && (exists k :: first <= k < |h| && h[k].throughput == b.minVal)
            && (exists k :: first <= k < |h| && h[k].throughput == b.maxVal)
  {
    hide OpenWindow, Suppression, Anomalous, H.Anomalies, H.Suppressions, H.Total, H.Least, H.Greatest;
    var first := OpenWindow(bootTime, h[..|h| - 1]).first;
    var seen := Observations(h)[first..];
    H.ExtremesBound(seen);
    forall k | first <= k < |h| ensures h[k].throughput == seen[k - first].value {
    }
    var i :| 0 <= i < |seen| && seen[i].value == H.Least(seen);
    var j :| 0 <= j < |seen| && seen[j].value == H.Greatest(seen);
    assert h[first + i].throughput == seen[i].value && h[first + j].throughput == seen[j].value;
  }

  /** After every tick the open window is younger than thirty seconds; a heartbeat ends where it was sent. */
  lemma {:induction false} NoHeartbeatOverdue(bootTime: int, h: seq<Tick>)
    requires h != []
    ensures var (w, now) := (OpenWindow(bootTime, h), h[|h| - 1].now);
            w.start == 0 || now - w.start < 30_000_000_000
    ensures BeatAt(bootTime, h) != [] ==>
              && |BeatAt(bootTime, h)| == 1 && BeatAt(bootTime, h)[0].endTime == h[|h| - 1].now
              && OpenWindow(bootTime, h) == Window(h[|h| - 1].now, |h|)
    ensures BeatAt(bootTime, h) == [] ==> OpenWindow(bootTime, h) == OpenWindow(bootTime, h[..|h| - 1])
  {
  }

  /** The sum lies between the extremes times the number of samples, over a full window. */
  predicate Consistent(b: H.Summary) {
    && b.minVal * (b.totalSamples as real) <= b.sumVal <= b.maxVal * (b.totalSamples as real)
    && b.anomalousCount <= b.totalSamples && b.endTime - b.startTime >= HEARTBEAT
  }

  lemma SummaryConsistent(start: int, end: int, w: seq<H.Observation>)
    requires end - start >= HEARTBEAT
    ensures Consistent(H.SummaryOf(start, end, w))
  {
    H.SumBetweenExtremes(w);
    AtMostAll(w);
  }

  lemma {:induction false} BeatsAreConsistent(bootTime: int, h: seq<Tick>)
    ensures forall b :: b in Beats(bootTime, h) ==> Consistent(b)
  {
    if h != [] {
      var n := |h| - 1;
      BeatsAreConsistent(bootTime, h[..n]);
      BeatsNext(bootTime, h);
      var w := OpenWindow(bootTime, h[..n]);
      if Flushes(w, h[n].now) {
        SummaryConsistent(w.start, h[n].now, Observations(h)[w.first..]);
      }
    }
  }

  lemma {:induction false} AtMostAll(w: seq<H.Observation>)
    ensures H.Anomalies(w) <= |w|
  {
    if w != [] {
      AtMostAll(w[..|w| - 1]);
    }
  }

  // --- Drift alerts and everything sent ---------------------------------------------------------

  datatype DriftState = DriftState(drifting: bool, lastAlert: int)

  /** handleDrift: alert when drift sets in, and again once per holdoff while it lasts. */
  predicate DriftFires(d: DriftState, drifting: bool, now: int) {
    drifting && (!d.drifting || now - d.lastAlert >= SUPPRESSOR.holdoff)
  }

  function DriftNext(d: DriftState, drifting: bool, now: int): DriftState {
    DriftState(drifting, if DriftFires(d, drifting, now) then now else d.lastAlert)
  }

  function DriftAfter(h: seq<Tick>): DriftState {
    if h == [] then DriftState(false, 0)
    else DriftNext(DriftAfter(h[..|h| - 1]), h[|h| - 1].drifting, h[|h| - 1].now)
  }

  /** Tick `i` of `h` raises a drift alert. */
  predicate DriftAlertAt(h: seq<Tick>, i: int) {
    0 <= i < |h| && DriftFires(DriftAfter(h[..i]), h[i].drifting, h[i].now)
  }

  ghost predicate Ordered(h: seq<Tick>) {
    forall i, j :: 0 <= i <= j < |h| ==> h[i].now <= h[j].now
  }

  /** The latest drift alert among the first `m` ticks sets the clock; a drift has raised one. */
  ghost predicate DriftClock(h: seq<Tick>, m: int)
    requires 0 <= m <= |h|
  {
    var d := DriftAfter(h[..m]);
    && d.drifting == (m > 0 && h[m - 1].drifting)
    && (forall p :: 0 <= p < m && DriftAlertAt(h, p) ==> h[p].now <= d.lastAlert)
    && (d.drifting ==> exists p :: 0 <= p < m && DriftAlertAt(h, p) && d.lastAlert == h[p].now)
  }

  lemma {:induction false} DriftClockHolds(h: seq<Tick>, m: int)
    requires Ordered(h) && 0 <= m <= |h|
    ensures DriftClock(h, m)
    decreases m
  {
    if m > 0 {
      DriftClockHolds(h, m - 1);
      assert h[..m][..m - 1] == h[..m - 1];
      assert DriftAfter(h[..m]) == DriftNext(DriftAfter(h[..m - 1]), h[m - 1].drifting, h[m - 1].now);
      if DriftAlertAt(h, m - 1) {
        assert DriftAfter(h[..m]).lastAlert == h[m - 1].now;
      }
    }
  }

  /** A drift alert is raised exactly at the onset of a drift, or once all earlier ones are a holdoff old. */
  lemma DriftAlertIff(h: seq<Tick>, i: int)
    requires Ordered(h) && 0 <= i < |h|
    ensures DriftAlertAt(h, i) <==>
              && h[i].drifting
              && (|| i == 0 || !h[i - 1].drifting
                  || forall p :: 0 <= p < i && DriftAlertAt(h, p) ==> h[i].now - h[p].now >= SUPPRESSOR.holdoff)
  {
    DriftClockHolds(h, i);
  }

  const THRESHOLD := 3.0
  const DRIFT_THRESHOLD := 0.15

  datatype Emission =
    | AnomalyAlert(now: int, cpu: real, mem: real, baselineCpu: real, baselineMem: real, z: real, threshold: real,
                   context: seq<R.Entry>)
    | DriftAlert(now: int, index: real)
    | Beat(summary: H.Summary)

  /** The payload of emitAnomalyAlert. */
  function AlertOf(t: Tick, context: seq<R.Entry>): Emission {
    AnomalyAlert(t.now, t.cpu, t.mem, t.baselineCpu, t.baselineMem, t.z, THRESHOLD, context)
  }

  function AlertPart(fires: bool, t: Tick, context: seq<R.Entry>): seq<Emission> {
    if fires then [AlertOf(t, context)] else []
  }

  function DriftPart(d: DriftState, t: Tick): seq<Emission> {
    if DriftFires(d, t.drifting, t.now) then [DriftAlert(t.now, t.drift)] else []
  }

  function BeatPart(start: int, now: int, w: seq<H.Observation>): seq<Emission> {
    if Flushes(Window(start, 0), now) then [Beat(H.SummaryOf(start, now, w))] else []
  }

  /** What the last tick of `h` pushes to the outbox, in order. */
  function TickEmissions(bootTime: int, h: seq<Tick>): seq<Emission>
    requires h != []
  {
    var (t, before) := (h[|h| - 1], h[..|h| - 1]);
    var w := OpenWindow(bootTime, before);
    AlertPart(Alerts(h), t, Context(h)) + DriftPart(DriftAfter(before), t)
    + BeatPart(w.start, t.now, Observations(h)[w.first..])
  }

  function Emissions(bootTime: int, h: seq<Tick>): seq<Emission> {
    if h == [] then [] else Emissions(bootTime, h[..|h| - 1]) + TickEmissions(bootTime, h)
  }

  /** `e` is the alert raised by the n-th tick of `h`. */
  ghost predicate RaisedBy(h: seq<Tick>, n: nat, e: Emission) {
    0 < n <= |h| && Alerts(h[..n]) && e == AlertOf(h[n - 1], Context(h[..n]))
  }

  /** `e` is an anomaly alert only if it is the payload of an alerting tick of `h`, with its context. */
  ghost predicate Justified(h: seq<Tick>, e: Emission) {
    e.AnomalyAlert? ==> exists n: nat :: RaisedBy(h, n, e)
  }

  lemma JustifiedLater(h: seq<Tick>, t: Tick, e: Emission)
    requires Justified(h, e)
    ensures Justified(h + [t], e)
  {
    if e.AnomalyAlert? {
      var n: nat :| RaisedBy(h, n, e);
      RaisedLater(h, t, n, e);
    }
  }

  lemma RaisedLater(h: seq<Tick>, t: Tick, n: nat, e: Emission)
    requires RaisedBy(h, n, e)
    ensures RaisedBy(h + [t], n, e)
  {
    assert (h + [t])[..n] == h[..n] && (h + [t])[n - 1] == h[n - 1];
  }

  lemma JustifiedNow(bootTime: int, h: seq<Tick>, e: Emission)
    requires h != [] && e in TickEmissions(bootTime, h)
    ensures Justified(h, e)
  {
    assert h[..|h|] == h;
    assert e.AnomalyAlert? ==> RaisedBy(h, |h|, e);
  }

  /** Every anomaly alert ever sent carries the context of the tick that raised it. */
  lemma {:induction false} AlertsCarryTheirContext(bootTime: int, h: seq<Tick>)
    ensures forall e :: e in Emissions(bootTime, h) ==> Justified(h, e)
  {
    if h != [] {
      var m := |h| - 1;
      AlertsCarryTheirContext(bootTime, h[..m]);
      assert h == h[..m] + [h[m]];
      forall e | e in Emissions(bootTime, h) ensures Justified(h, e) {
        if e in Emissions(bootTime, h[..m]) {
          JustifiedLater(h[..m], h[m], e);
        } else {
          JustifiedNow(bootTime, h, e);
        }
      }
    }
  }

  function AlertsIn(es: seq<Emission>): nat {
    if es == [] then 0 else AlertsIn(es[..|es| - 1]) + (if es[|es| - 1].AnomalyAlert? then 1 else 0)
  }

  lemma {:induction false} AlertsInSum(a: seq<Emission>, b: seq<Emission>)
    ensures AlertsIn(a + b) == AlertsIn(a) + AlertsIn(b)
  {
    if b == [] {
      assert a + b == a;
    } else {
      var n := |b| - 1;
      AlertsInSum(a, b[..n]);
      assert (a + b)[..|a + b| - 1] == a + b[..n];
    }
  }

  lemma AlertsInOne(es: seq<Emission>)
    requires |es| <= 1
    ensures AlertsIn(es) == if es != [] && es[0].AnomalyAlert? then 1 else 0
  {
    if es != [] {
      assert es[..0] == [];
    }
  }

  /** A tick sends exactly one alert if the suppressor fires, and none otherwise. */
  lemma FiringTickSends(bootTime: int, h: seq<Tick>)
    requires h != []
    ensures AlertsIn(TickEmissions(bootTime, h)) == if Alerts(h) then 1 else 0
    ensures Alerts(h) ==>
              var (e, t) := (TickEmissions(bootTime, h)[0], h[|h| - 1]);
              && e.AnomalyAlert? && e.now == t.now && e.cpu == t.cpu && e.mem == t.mem && e.z == t.z
              && e.baselineCpu == t.baselineCpu && e.baselineMem == t.baselineMem
              && e.threshold == 3.0 && e.context == Context(h)
  {
    var t, w := h[|h| - 1], OpenWindow(bootTime, h[..|h| - 1]);
    var alert, drift := AlertPart(Alerts(h), t, Context(h)), DriftPart(DriftAfter(h[..|h| - 1]), t);
    var beat := BeatPart(w.start, t.now, Observations(h)[w.first..]);
    AlertsInOne(alert);
    AlertsInOne(drift);
    AlertsInOne(beat);
    AlertsInSum(alert, drift);
    AlertsInSum(alert + drift, beat);
  }

  /** Alerts go out before drift alerts, and drift alerts before heartbeats; at most one of each per tick. */
  function Rank(e: Emission): nat {
    match e
    case AnomalyAlert(_, _, _, _, _, _, _, _) => 0
    case DriftAlert(_, _) => 1
    case Beat(_) => 2
  }

  lemma {:induction false} SentInOrder(bootTime: int, h: seq<Tick>)
    requires h != []
    ensures var es := TickEmissions(bootTime, h); forall i, j :: 0 <= i < j < |es| ==> Rank(es[i]) < Rank(es[j])
  {
    hide Alerts, Context, DriftFires, DriftAfter, Flushes, OpenWindow, Observations;
  }

  /** The emissions of one rank, in order. */
  function Only(rank: nat, es: seq<Emission>): seq<Emission> {
    if es == [] then []
    else
      var n := |es| - 1;
      Only(rank, es[..n]) + (if Rank(es[n]) == rank then [es[n]] else [])
  }

  lemma {:induction false} OnlyNext(rank: nat, es: seq<Emission>, e: Emission)
    ensures Only(rank, es + [e]) == Only(rank, es) + (if Rank(e) == rank then [e] else [])
  {
    assert (es + [e])[..|es|] == es;
  }

  lemma {:induction false} OnlySum(rank: nat, a: seq<Emission>, b: seq<Emission>)
    ensures Only(rank, a + b) == Only(rank, a) + Only(rank, b)
  {
    hide Rank, Only;
    if b == [] {
      NoneOf(rank);
      assert a + b == a;
    } else {
      var n := |b| - 1;
      OnlySum(rank, a, b[..n]);
      OnlyNext(rank, b[..n], b[n]);
      OnlyNext(rank, a + b[..n], b[n]);
      assert b == b[..n] + [b[n]] && a + b == (a + b[..n]) + [b[n]];
    }
  }

  lemma NoneOf(rank: nat)
    ensures Only(rank, []) == []
  {
  }

  lemma {:induction false} OnlyOne(rank: nat, es: seq<Emission>)
    requires |es| <= 1
    ensures Only(rank, es) == if es != [] && Rank(es[0]) == rank then es else []
  {
    if es != [] {
      assert es[..0] == [];
    }
  }

  lemma {:induction false} OnlyOfThree(rank: nat, a: seq<Emission>, b: seq<Emission>, c: seq<Emission>)
    requires |a| <= 1 && |b| <= 1 && |c| <= 1
    ensures Only(rank, a + b + c)
            == (if a != [] && Rank(a[0]) == rank then a else []) + (if b != [] && Rank(b[0]) == rank then b else [])
               + (if c != [] && Rank(c[0]) == rank then c else [])
  {
    hide Only, Rank;
    OnlySum(rank, a, b);
    OnlySum(rank, a + b, c);
    OnlyOne(rank, a);
    OnlyOne(rank, b);
    OnlyOne(rank, c);
  }

  /** The three parts of a tick's emissions, told apart again. */
  lemma {:induction false} OnlyOfParts(alert: seq<Emission>, drift: seq<Emission>, beat: seq<Emission>)
    requires |alert| <= 1 && |drift| <= 1 && |beat| <= 1
    requires alert != [] ==> Rank(alert[0]) == 0
    requires (drift != [] ==> Rank(drift[0]) == 1) && (beat != [] ==> Rank(beat[0]) == 2)
    ensures Only(1, alert + drift + beat) == drift && Only(2, alert + drift + beat) == beat
  {
    hide Only, Rank;
    OnlyOfThree(1, alert, drift, beat);
    OnlyOfThree(2, alert, drift, beat);
  }

  lemma {:induction false} OnlyOfTick(bootTime: int, h: seq<Tick>)
    requires h != []
    ensures var (t, before) := (h[|h| - 1], h[..|h| - 1]);
            && Only(1, TickEmissions(bootTime, h)) == DriftPart(DriftAfter(before), t)
            && Only(2, TickEmissions(bootTime, h)) == Map(BeatOf, BeatAt(bootTime, h))
  {
    hide Only, Alerts, Context, DriftFires, DriftAfter, Flushes, OpenWindow, Observations;
    var t, w := h[|h| - 1], OpenWindow(bootTime, h[..|h| - 1]);
    var beat := BeatPart(w.start, t.now, Observations(h)[w.first..]);
    OnlyOfParts(AlertPart(Alerts(h), t, Context(h)), DriftPart(DriftAfter(h[..|h| - 1]), t), beat);
    SameFlush(w, t.now);
    assert beat == Map(BeatOf, BeatAt(bootTime, h));
  }

  lemma SameFlush(w: Window, now: int)
    ensures Flushes(Window(w.start, 0), now) <==> Flushes(w, now)
  {
  }

  function BeatOf(b: H.Summary): Emission { Beat(b) }

  /** One drift alert for each tick that raises one, with its time and its drift. */
  function DriftAlerts(h: seq<Tick>): seq<Emission> {
    if h == [] then []
    else
      var n := |h| - 1;
      DriftAlerts(h[..n]) + (if DriftAlertAt(h, n) then [DriftAlert(h[n].now, h[n].drift)] else [])
  }

  /** Over every run, drift alerts and heartbeats are sent in order, each exactly once and unchanged. */
  lemma {:induction false} DriftsAndBeatsSent(bootTime: int, h: seq<Tick>)
    ensures Only(1, Emissions(bootTime, h)) == DriftAlerts(h)
    ensures Only(2, Emissions(bootTime, h)) == Map(BeatOf, Beats(bootTime, h))
  {
    hide TickEmissions, BeatAt, DriftFires;
    if h != [] {
      var before := h[..|h| - 1];
      DriftsAndBeatsSent(bootTime, before);
      OnlyOfTick(bootTime, h);
      OnlySum(1, Emissions(bootTime, before), TickEmissions(bootTime, h));
      OnlySum(2, Emissions(bootTime, before), TickEmissions(bootTime, h));
    }
  }

  lemma FiringIsCounted(h: seq<Tick>)
    requires h != []
    ensures Suppression(h).totalFired == Suppression(h[..|h| - 1]).totalFired + (if Alerts(h) then 1 else 0)
  {
    var n := |h| - 1;
    SuppressionNext(h[..n], h[n]);
    assert h == h[..n] + [h[n]];
  }

  /** Over every run, the alerts sent are the alerts the suppressor has counted: none is lost. */
  lemma {:induction false} EveryAlertIsSent(bootTime: int, h: seq<Tick>)
    ensures AlertsIn(Emissions(bootTime, h)) == Suppression(h).totalFired
  {
    if h != [] {
      var before := h[..|h| - 1];
      EveryAlertIsSent(bootTime, before);
      FiringTickSends(bootTime, h);
      FiringIsCounted(h);
      AlertsInSum(Emissions(bootTime, before), TickEmissions(bootTime, h));
    }
  }

  // --- One tick ---------------------------------------------------------------------------------

  /** What one more tick does to every part of the specification except the heartbeat window. */
  lemma TickEffect(host: Host, before: seq<Tick>, t: Tick)
    ensures var h := before + [t];
            && Samples(h) == Samples(before) + [SampleOf(t)]
            && Map(EntryOf, h) == Map(EntryOf, before) + [EntryOf(t)]
            && Alerts(h) == S.Fires(SUPPRESSOR, Suppression(before), SampleOf(t))
            && GovernorAfter(host, h) == GovernorNext(host, GovernorAfter(host, before), Suppression(h).mode, t.writeOk)
            && DriftAfter(h) == DriftNext(DriftAfter(before), t.drifting, t.now)
  {
    var h := before + [t];
    assert h[..|before|] == before;
    MapNext(SampleOf, before, t);
    MapNext(EntryOf, before, t);
  }

  /** The observation that the tick after `before` hands to the heartbeat. */
  function SeenBy(before: seq<Tick>, t: Tick): H.Observation {
    H.Observation(t.throughput, Anomalous(t), Suppression(before + [t]).mode == S.Suppressed)
  }

  lemma WindowEffect(bootTime: int, before: seq<Tick>, t: Tick)
    ensures var (h, w) := (before + [t], OpenWindow(bootTime, before));
            var seen := Pending(bootTime, before) + [SeenBy(before, t)];
            && OpenWindow(bootTime, h).start == (if Flushes(w, t.now) then t.now else w.start)
            && Pending(bootTime, h) == (if Flushes(w, t.now) then [] else seen)
            && BeatAt(bootTime, h) == (if Flushes(w, t.now) then [H.SummaryOf(w.start, t.now, seen)] else [])
  {
    var h := before + [t];
    assert h[..|before|] == before && h[..|before| + 1] == h;
    PendingNext(bootTime, h);
  }

  lemma SendEffect(bootTime: int, before: seq<Tick>, t: Tick)
    ensures var (h, w) := (before + [t], OpenWindow(bootTime, before));
            Emissions(bootTime, h)
            == Emissions(bootTime, before) + AlertPart(Alerts(h), t, Context(h)) + DriftPart(DriftAfter(before), t)
               + BeatPart(w.start, t.now, Pending(bootTime, before) + [SeenBy(before, t)])
  {
    var h, w := before + [t], OpenWindow(bootTime, before);
    assert h[..|before|] == before && h[..|before| + 1] == h;
    PendingNext(bootTime, h);
    Regroup(Emissions(bootTime, before), AlertPart(Alerts(h), t, Context(h)), DriftPart(DriftAfter(before), t),
            BeatPart(w.start, t.now, Pending(bootTime, before) + [SeenBy(before, t)]));
  }

  lemma Regroup<T>(a: seq<T>, b: seq<T>, c: seq<T>, d: seq<T>)
    ensures a + (b + c + d) == a + b + c + d
  {
  }

  /** What the agent's objects hold between ticks. */
  datatype View = View(trace: seq<S.Sample>, pushed: seq<R.Entry>, windowStart: int, window: seq<H.Observation>,
                       governor: Governor, drift: DriftState, emitted: seq<Emission>)

  /** The first half of a tick: judge the sample, govern the quota, and record it. */
  function Sensed(host: Host, v: View, t: Tick): View {
    var trace := v.trace + [SampleOf(t)];
    var mode := S.After(SUPPRESSOR, trace).mode;
    v.(trace := trace, pushed := v.pushed + [EntryOf(t)],
       window := v.window + [H.Observation(t.throughput, Anomalous(t), mode == S.Suppressed)],
       governor := GovernorNext(host, v.governor, mode, t.writeOk))
  }

  /** The second half: send what there is to send. */
  function Reported(v: View, t: Tick, fires: bool): View {
    var flush := Flushes(Window(v.windowStart, 0), t.now);
    v.(windowStart := if flush then t.now else v.windowStart, window := if flush then [] else v.window,
       drift := DriftNext(v.drift, t.drifting, t.now),
       emitted := v.emitted + AlertPart(fires, t, R.LastUpTo(CONTEXT, v.pushed)) + DriftPart(v.drift, t)
                  + BeatPart(v.windowStart, t.now, v.window))
  }

  /** One tick on that view. */
  function NextView(host: Host, v: View, t: Tick): View
  {
    Reported(Sensed(host, v, t), t, S.Fires(SUPPRESSOR, S.After(SUPPRESSOR, v.trace), SampleOf(t)))
  }

  function ViewStart(host: Host): View {
    View([], [], host.bootTime, [], GovernorStart(host), DriftState(false, 0), [])
  }

  /** The view after the ticks `h`, one step at a time. */
  function ViewAfter(host: Host, h: seq<Tick>): View
  {
    if h == [] then ViewStart(host)
    else NextView(host, ViewAfter(host, h[..|h| - 1]), h[|h| - 1])
  }

  lemma AtBoot(host: Host, l: I.Limits)
    requires l.Valid()
    ensures ViewAfter(host, []) == ViewStart(host)
    ensures Map(ReadingOf, []) == [] && I.Tau(l, l.tauMax, []) == l.tauMax
  {
  }

  lemma ViewNext(host: Host, h: seq<Tick>, t: Tick)
    ensures ViewAfter(host, h + [t]) == NextView(host, ViewAfter(host, h), t)
  {
    assert (h + [t])[..|h|] == h;
  }

  /** The view is what the whole history `h` calls for. */
  ghost predicate Follows(host: Host, h: seq<Tick>, v: View)
  {
    && v.trace == Samples(h) && v.pushed == Map(EntryOf, h)
    && v.windowStart == OpenWindow(host.bootTime, h).start && v.window == Pending(host.bootTime, h)
    && v.governor == GovernorAfter(host, h) && v.drift == DriftAfter(h)
    && v.emitted == Emissions(host.bootTime, h)
  }

  lemma FollowsNext(host: Host, h: seq<Tick>, v: View, t: Tick)
    requires Follows(host, h, v)
    ensures Follows(host, h + [t], NextView(host, v, t))
  {
    TickEffect(host, h, t);
    WindowEffect(host.bootTime, h, t);
    SendEffect(host.bootTime, h, t);
  }

  lemma FollowsFromStart(host: Host)
    ensures Follows(host, [], ViewAfter(host, []))
  {
  }

  /** Stepping tick by tick leaves every component at its function of the whole history. */
  lemma {:induction false} ViewFollowsHistory(host: Host, h: seq<Tick>)
    ensures Follows(host, h, ViewAfter(host, h))
  {
    hide Follows, ViewAfter;
    if h == [] {
      FollowsFromStart(host);
    } else {
      var before, t := h[..|h| - 1], h[|h| - 1];
      ViewFollowsHistory(host, before);
      ViewStep(host, before, t, h);
    }
  }

  lemma ViewStep(host: Host, before: seq<Tick>, t: Tick, h: seq<Tick>)
    requires h == before + [t] && Follows(host, before, ViewAfter(host, before))
    ensures Follows(host, h, ViewAfter(host, h))
  {
    ViewNext(host, before, t);
    FollowsNext(host, before, ViewAfter(host, before), t);
  }

  /** The daemon's own settings keep the documented quiet period only for samples 2 s apart or more. */
  lemma DaemonQuietPeriodIff(d: int)
    requires d >= 0
    ensures S.QuietPeriodKept(SUPPRESSOR, d) <==> d >= 2_000 * MILLISECOND
  {
    S.QuietPeriodIff(SUPPRESSOR, d);
  }
}
