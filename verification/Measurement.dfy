/**
 * Where a tick's measurements come from: collectUsage and the detector (cmd/agent/main.go:193-273),
 * as functions of everything the daemon has read.
 */
module Measurement {
  import opened Decimal
  import opened StreamingStats
  import opened AgentSpec
  import C = Cgroup
  import D = Detector
  import L = LineFormat
  import M = MemInfo
  import S = Suppressor
  import U = Usage

  /** What one tick reads: the clock, the proc files (None if unreadable), the workload, a pending spike. */
  datatype Input = Input(now: int, stat: Option<string>, meminfo: Option<string>, inferences: real, spike: bool,
                         writeOk: bool)

  /** The same with the files scraped. */
  datatype Scan = Scan(now: int, cpu: U.CpuScan, mem: U.MemScan, inferences: real, spike: bool, writeOk: bool)

  function ScanOf(i: Input): Scan {
    Scan(i.now, U.CpuScanOf(i.stat), U.MemScanOf(i.meminfo), i.inferences, i.spike, i.writeOk)
  }

  /** The sampler's state and the observations fed to the detector. */
  datatype Sensors = Sensors(cpu: U.State, mem: U.Memory, cpus: seq<real>, mems: seq<real>)

  ghost predicate Working(x: Sensors) {
    U.Shaped(x.cpu) && U.WholeMemory(x.mem) && |x.cpus| == |x.mems|
  }

  function AtRest(): Sensors {
    Sensors(U.State(None, 0.0), U.Memory(U.NO_FIELDS, 0.0), [], [])
  }

  /** An injected spike adds 90 to both percentages, and multiplies the workload. */
  function Spiked(pct: real, spike: bool): real {
    if spike then pct + 90.0 else pct
  }

  function Throughput(i: Scan): real {
    if !i.spike then i.inferences else if i.inferences == 0.0 then 500.0 else i.inferences * 50.0
  }

  ghost function NextSensors(x: Sensors, i: Scan): (x': Sensors)
    requires Working(x)
    ensures Working(x') && x'.cpus != []
  {
    var cpu := U.Next(x.cpu, i.cpu);
    var mem := U.NextMemory(x.mem, i.mem);
    Sensors(cpu, mem, x.cpus + [Spiked(cpu.metric, i.spike)], x.mems + [Spiked(mem.metric, i.spike)])
  }

  ghost function SensorsAfter(scans: seq<Scan>): (x: Sensors)
    ensures Working(x) && (scans != [] ==> x.cpus != [])
  {
    if scans == [] then AtRest()
    else NextSensors(SensorsAfter(scans[..|scans| - 1]), scans[|scans| - 1])
  }

  /** The settings newAgent gives the detector. */
  function SettingsFor(minSamples: nat): (s: D.Settings)
    ensures s.Valid()
  {
    D.Settings(0.1, 0.01, if minSamples == 0 then 30 else minSamples, THRESHOLD, DRIFT_THRESHOLD)
  }

  /** Any function with the defining property of the square root stands for math.Hypot's. */
  ghost predicate IsSquareRoot(root: real -> real) {
    forall x :: x >= 0.0 ==> root(x) >= 0.0 && root(x) * root(x) == x
  }

  /** What the tick on scan `i` hands to the rest of the loop, with the sensors at `x` after it. */
  function TickOf(root: real -> real, s: D.Settings, i: Scan, x: Sensors): Tick
    requires s.Valid() && U.WholeMemory(x.mem) && |x.cpus| == |x.mems| && x.cpus != []
  {
    var n := |x.cpus| - 1;
    Measurements(i.now, x.cpus[n], x.mems[n], Mean(s.fast, x.cpus), Mean(s.fast, x.mems),
         root(D.LastScore(s, x.cpus, x.mems)), D.Anomalous(s, x.cpus, x.mems),
         D.DriftIndex(s, x.cpus, x.mems), D.Drifting(s, x.cpus, x.mems),
         x.mem.fields[U.MEM_TOTAL], x.mem.fields[U.MEM_AVAILABLE], Throughput(i), i.writeOk)
  }

  /** The ticks of a whole run. */
  ghost function Measured(root: real -> real, s: D.Settings, scans: seq<Scan>): (h: seq<Tick>)
    requires s.Valid()
    ensures |h| == |scans|
  {
    if scans == [] then []
    else
      Measured(root, s, scans[..|scans| - 1]) + [TickOf(root, s, scans[|scans| - 1], SensorsAfter(scans))]
  }

  lemma MeasuredNext(root: real -> real, s: D.Settings, scans: seq<Scan>, i: Scan)
    requires s.Valid()
    ensures SensorsAfter(scans + [i]) == NextSensors(SensorsAfter(scans), i)
    ensures Measured(root, s, scans + [i])
            == Measured(root, s, scans) + [TickOf(root, s, i, NextSensors(SensorsAfter(scans), i))]
  {
    assert (scans + [i])[..|scans|] == scans;
  }

  // --- Scores -----------------------------------------------------------------------------------

  lemma RootOrder(x: real, r: real, y: real)
    requires x >= 0.0 && r >= 0.0 && r * r == x && y > 0.0
    ensures r >= y <==> x >= Square(y)
  {
    if r >= y {
      SquareBelow(y, r);
    } else {
      SquareBelow(r, y);
      if x == Square(y) {
        SameSquare(r, y);
      }
    }
  }

  lemma SameSquare(r: real, y: real)
    requires 0.0 <= r && 0.0 < y && r * r == y * y
    ensures r == y
  {
    assert (r - y) * (r + y) == 0.0 by {
      SquareGap(y, r);
    }
    ProductZero(r - y, r + y);
  }

  /** The raw verdict is the source's comparison of the score itself, past the warm-up. */
  lemma VerdictIsScore(root: real -> real, s: D.Settings, i: Scan, x: Sensors)
    requires IsSquareRoot(root) && s.Valid() && Working(x) && x.cpus != []
    ensures var t := TickOf(root, s, i, x);
            && t.z >= 0.0
            && (t.rawAnomaly <==> t.z >= s.threshold)
            && (|x.cpus| <= s.minSamples ==> t.z == 0.0 && !t.rawAnomaly)
  {
    var q := D.LastScore(s, x.cpus, x.mems);
    assert root(q) >= 0.0 && root(q) * root(q) == q;
    RootOrder(q, root(q), s.threshold);
    if |x.cpus| <= s.minSamples {
      ProductZero(root(q), root(q));
    }
  }

  // --- What the ticks of a run have measured ----------------------------------------------------

  function CpuOf(t: Tick): real { t.cpu }

  function MemOf(t: Tick): real { t.mem }

  function LastOf(h: seq<Tick>): Tick
    requires h != []
  {
    h[|h| - 1]
  }

  lemma {:induction false} LastMeasured(root: real -> real, s: D.Settings, scans: seq<Scan>)
    requires s.Valid() && scans != []
    ensures LastOf(Measured(root, s, scans)) == TickOf(root, s, scans[|scans| - 1], SensorsAfter(scans))
  {
  }

  /** The detector is fed the percentages of the ticks, whatever has failed. */
  lemma {:induction false} DetectorSeesTicks(root: real -> real, s: D.Settings, scans: seq<Scan>)
    requires s.Valid()
    ensures SensorsAfter(scans).cpus == Map(CpuOf, Measured(root, s, scans))
    ensures SensorsAfter(scans).mems == Map(MemOf, Measured(root, s, scans))
  {
    hide U.Next, U.NextMemory, D.LastScore, D.Anomalous, D.DriftIndex, D.Drifting, Mean, Throughput;
    if scans != [] {
      var before, i := scans[..|scans| - 1], scans[|scans| - 1];
      DetectorSeesTicks(root, s, before);
      MapNext(CpuOf, Measured(root, s, before), TickOf(root, s, i, SensorsAfter(scans)));
      MapNext(MemOf, Measured(root, s, before), TickOf(root, s, i, SensorsAfter(scans)));
    }
  }

  lemma {:induction false} BaselinesAreWeightedMeans(root: real -> real, s: D.Settings, i: Scan, x: Sensors)
    requires s.Valid() && Working(x) && x.cpus != []
    ensures TickOf(root, s, i, x).baselineCpu == Total(s.fast, x.cpus, Self)
    ensures TickOf(root, s, i, x).baselineMem == Total(s.fast, x.mems, Self)
  {
    hide D.LastScore, D.Anomalous, D.DriftIndex, D.Drifting, Mean, Total, Throughput;
    MeanIsWeightedMean(s.fast, x.cpus);
    MeanIsWeightedMean(s.fast, x.mems);
  }

  /**
   * Every tick judges its own percentages against those of all earlier ticks; its baselines are
   * their weighted means.
   */
  lemma {:induction false} TickJudgesHistory(root: real -> real, s: D.Settings, scans: seq<Scan>)
    requires IsSquareRoot(root) && s.Valid() && scans != []
    ensures var h := Measured(root, s, scans);
            var (t, cpus, mems) := (LastOf(h), Map(CpuOf, h), Map(MemOf, h));
            && t.now == scans[|scans| - 1].now
            && t.z >= 0.0 && t.z * t.z == D.LastScore(s, cpus, mems)
            && (t.rawAnomaly <==> D.Anomalous(s, cpus, mems))
            && (t.drifting <==> D.Drifting(s, cpus, mems)) && t.drift == D.DriftIndex(s, cpus, mems)
            && t.baselineCpu == Total(s.fast, cpus, Self) && t.baselineMem == Total(s.fast, mems, Self)
  {
    hide SensorsAfter, Measured, D.LastScore, D.Anomalous, D.DriftIndex, D.Drifting, Mean, Total, Throughput;
    LastMeasured(root, s, scans);
    DetectorSeesTicks(root, s, scans);
    BaselinesAreWeightedMeans(root, s, scans[|scans| - 1], SensorsAfter(scans));
    RootOfScore(root, s, SensorsAfter(scans));
  }

  lemma {:induction false} RootOfScore(root: real -> real, s: D.Settings, x: Sensors)
    requires IsSquareRoot(root) && s.Valid() && Working(x) && x.cpus != []
    ensures var z := root(D.LastScore(s, x.cpus, x.mems)); z >= 0.0 && z * z == D.LastScore(s, x.cpus, x.mems)
  {
    hide D.LastScore;
  }

  function CpuPart(i: Scan): U.CpuScan { i.cpu }

  lemma {:induction false} CpuFollowsScrapes(scans: seq<Scan>)
    ensures SensorsAfter(scans).cpu == U.After(Map(CpuPart, scans))
  {
    hide U.Next, U.NextMemory;
    if scans != [] {
      var before := scans[..|scans| - 1];
      CpuFollowsScrapes(before);
      assert Map(CpuPart, scans)[..|scans| - 1] == Map(CpuPart, before);
    }
  }

  /** What an injected spike has added to a percentage. */
  function SpikeOf(i: Scan): real {
    if i.spike then 90.0 else 0.0
  }

  lemma {:induction false} CpuOfTick(root: real -> real, s: D.Settings, scans: seq<Scan>)
    requires s.Valid() && scans != []
    ensures LastOf(Measured(root, s, scans)).cpu - SpikeOf(scans[|scans| - 1]) == U.After(Map(CpuPart, scans)).metric
  {
    hide U.Next, U.NextMemory, U.After, D.LastScore, D.Anomalous, D.DriftIndex, D.Drifting, Mean, Throughput;
    LastMeasured(root, s, scans);
    CpuFollowsScrapes(scans);
  }

  /** `pct` is the share of work between the last two of `records`. */
  predicate IsShareOfWork(records: seq<U.CpuRecord>, pct: real)
    requires U.Measurable(records)
  {
    var (cur, prev) := (records[|records| - 1], records[|records| - 2]);
    pct * (cur.total - prev.total) as real == 100.0 * U.ElapsedWork(prev, cur) as real
  }

  /**
   * The CPU percentage of every tick, less an injected spike, is the share of work between the last
   * two scrapes that succeeded.
   */
  lemma {:induction false} CpuOfTickIsShare(root: real -> real, s: D.Settings, scans: seq<Scan>)
    requires s.Valid() && scans != [] && U.Measurable(U.Successes(Map(CpuPart, scans)))
    ensures IsShareOfWork(U.Successes(Map(CpuPart, scans)),
                          LastOf(Measured(root, s, scans)).cpu - SpikeOf(scans[|scans| - 1]))
  {
    hide Measured, U.After;
    CpuOfTick(root, s, scans);
    U.MetricIsShare(Map(CpuPart, scans));
  }

  /** Without its spike, what the last tick reports of memory; 0 before the first tick. */
  ghost function MemoryBefore(root: real -> real, s: D.Settings, scans: seq<Scan>): (nat, nat, real)
    requires s.Valid()
  {
    if scans == [] then (0, 0, 0.0)
    else
      var t := LastOf(Measured(root, s, scans));
      (t.memTotal, t.memAvailable, t.mem - SpikeOf(scans[|scans| - 1]))
  }

  lemma {:induction false} MemoryIsBefore(root: real -> real, s: D.Settings, scans: seq<Scan>)
    requires s.Valid()
    ensures var m := SensorsAfter(scans).mem;
            MemoryBefore(root, s, scans) == (m.fields[U.MEM_TOTAL], m.fields[U.MEM_AVAILABLE], m.metric)
  {
    hide U.Next, U.NextMemory;
    if scans != [] {
      LastMeasured(root, s, scans);
    }
  }

  /** The value just read, if any, or else the last one. */
  function Latest(seen: U.MemScan, k: nat, last: nat): nat
    requires k < |U.NO_FIELDS|
  {
    if seen.Some? && seen.value[k].Some? then seen.value[k].value else last
  }

  lemma {:induction false} MemoryOfScan(m: U.Memory, seen: U.MemScan)
    requires U.WholeMemory(m)
    ensures var (m', total) := (U.NextMemory(m, seen), Latest(seen, U.MEM_TOTAL, m.fields[U.MEM_TOTAL]));
            var available := Latest(seen, U.MEM_AVAILABLE, m.fields[U.MEM_AVAILABLE]);
            && m'.fields[U.MEM_TOTAL] == total && m'.fields[U.MEM_AVAILABLE] == available
            && if seen.Some? && L.AnySeen(seen.value) && 0 < total && available <= total
               then U.IsShareInUse(m'.metric, total, available)
               else m'.metric == m.metric
  {
    hide U.NextMemory, U.IsShareInUse;
    U.MemoryAfterScrape(m, seen);
    var m' := U.NextMemory(m, seen);
    assert m'.fields[U.MEM_TOTAL] == Latest(seen, U.MEM_TOTAL, m.fields[U.MEM_TOTAL]);
    assert m'.fields[U.MEM_AVAILABLE] == Latest(seen, U.MEM_AVAILABLE, m.fields[U.MEM_AVAILABLE]);
  }

  /**
   * The memory half of every tick: total and available memory are the ones just read, or else the
   * last ones; the percentage is the share in use if a field was read and they make sense.
   */
  lemma {:induction false} MemOfTickIsShare(root: real -> real, s: D.Settings, scans: seq<Scan>)
    requires s.Valid() && scans != []
    ensures var seen := scans[|scans| - 1].mem;
            var (total0, available0, pct0) := MemoryBefore(root, s, scans[..|scans| - 1]);
            var (total, available, pct) := MemoryBefore(root, s, scans);
            && total == Latest(seen, U.MEM_TOTAL, total0) && available == Latest(seen, U.MEM_AVAILABLE, available0)
            && if seen.Some? && L.AnySeen(seen.value) && 0 < total && available <= total
               then U.IsShareInUse(pct, total, available)
               else pct == pct0
  {
    hide U.Next, U.NextMemory, U.IsShareInUse, MemoryBefore, Measured, Latest, L.AnySeen;
    var before := scans[..|scans| - 1];
    MemoryIsBefore(root, s, before);
    MemoryIsBefore(root, s, scans);
    MemoryOfScan(SensorsAfter(before).mem, scans[|scans| - 1].mem);
  }

  /** A spike raises both percentages by 90 and the throughput fiftyfold, and changes nothing else that is read. */
  lemma {:induction false} SpikeRaises(root: real -> real, s: D.Settings, scans: seq<Scan>, i: Scan)
    requires s.Valid()
    ensures var (plain, spiked) := (LastOf(Measured(root, s, scans + [i.(spike := false)])),
                                    LastOf(Measured(root, s, scans + [i.(spike := true)])));
            && spiked.cpu == plain.cpu + 90.0 && spiked.mem == plain.mem + 90.0
            && plain.throughput == i.inferences
            && spiked.throughput == (if i.inferences == 0.0 then 500.0 else 50.0 * i.inferences)
            && spiked.memTotal == plain.memTotal && spiked.memAvailable == plain.memAvailable
  {
    hide U.Next, U.NextMemory;
    MeasuredNext(root, s, scans, i.(spike := false));
    MeasuredNext(root, s, scans, i.(spike := true));
  }

  // --- A denied burst ---------------------------------------------------------------------------

  /** A /proc/meminfo with the two fields that decide saturation. */
  function MemFile(total: nat, available: nat): string {
    L.Unlines(MemLines(total, available), "")
  }

  function MemLines(total: nat, available: nat): seq<string> {
    [MemLine("MemTotal", total), MemLine("MemAvailable", available)]
  }

  function MemLine(key: string, n: nat): string {
    L.PrintedLine("", key, ':', " ", n, "")
  }

  predicate PlainKey(key: string) {
    key != "" && L.IsSolid(key[0]) && ':' !in key && '\n' !in key
  }

  lemma MemKeysArePlain()
    ensures PlainKey("MemTotal") && PlainKey("MemAvailable")
    ensures M.KEYS[U.MEM_TOTAL] == "MemTotal" && M.KEYS[U.MEM_AVAILABLE] == "MemAvailable"
    ensures M.KEYS[U.MEM_TOTAL] != M.KEYS[U.MEM_AVAILABLE]
  {
    assert |M.KEYS[U.MEM_TOTAL]| != |M.KEYS[U.MEM_AVAILABLE]|;
  }

  lemma MemLineRecords(key: string, n: nat)
    requires n < WORD && PlainKey(key)
    ensures L.Printable("", key, ':', " ", n, "") && L.Recorded(':', MemLine(key, n)) == Some(L.Field(key, n))
  {
    L.PrintedLineRecords("", key, ':', " ", n, "");
  }

  lemma MemLineIsOneLine(key: string, n: nat)
    requires PlainKey(key)
    ensures '\n' !in MemLine(key, n)
  {
    PrintIsDecimal(n);
    var digits := Print(n);
    assert '\n' !in digits;
    assert '\n' !in [':'] + (" " + digits);
  }

  lemma MemFileScans(total: nat, available: nat)
    requires total < WORD && available < WORD
    ensures var scan := U.MemScanOf(Some(MemFile(total, available)));
            scan.Some? && scan.value[U.MEM_TOTAL] == Some(total) && scan.value[U.MEM_AVAILABLE] == Some(available)
  {
    var lines, t, a := MemLines(total, available), M.KEYS[U.MEM_TOTAL], M.KEYS[U.MEM_AVAILABLE];
    MemKeysArePlain();
    MemLineRecords(t, total);
    MemLineRecords(a, available);
    MemLineIsOneLine(t, total);
    MemLineIsOneLine(a, available);
    L.PrintedFieldParsesBack(':', lines, 0, "", t, " ", total, "");
    L.PrintedFieldParsesBack(':', lines, 1, "", a, " ", available, "");
  }

  /** Ticks on a starved host, within a holdoff of the second one, whose write is the only one to fail. */
  ghost predicate StarvedScans(scans: seq<Scan>, total: nat, available: nat) {
    && (forall i :: 0 <= i < |scans| ==> StarvedScan(scans[i], total, available) && (scans[i].writeOk <==> i != 1))
    && (|scans| >= 2 ==> scans[1].now != 0)
    && (forall i :: 2 <= i < |scans| ==> scans[i].now - scans[1].now < SUPPRESSOR.holdoff)
  }

  predicate StarvedScan(scan: Scan, total: nat, available: nat) {
    scan.mem == U.MemScanOf(Some(MemFile(total, available)))
  }

  /** Such inputs exist for every length. */
  function StarvedInputs(total: nat, available: nat, k: nat): (inputs: seq<Input>)
    ensures |inputs| == k && StarvedScans(Map(ScanOf, inputs), total, available)
  {
    seq(k, i requires 0 <= i < k => Input(1, None, Some(MemFile(total, available)), 0.0, false, i != 1))
  }

  lemma StarvedTick(root: real -> real, s: D.Settings, x: Sensors, scan: Scan, total: nat, available: nat)
    requires s.Valid() && Working(x) && 20 * available < total < WORD
    requires StarvedScan(scan, total, available)
    ensures var t := TickOf(root, s, scan, NextSensors(x, scan));
            Anomalous(t) && t.now == scan.now && t.writeOk == scan.writeOk
  {
    MemFileScans(total, available);
    SaturatedIff(total, available);
  }

  /** Every tick is anomalous, at the time and with the write of its scan. */
  ghost predicate Starving(h: seq<Tick>, scans: seq<Scan>) {
    |h| == |scans|
    && forall i :: 0 <= i < |h| ==>
         Anomalous(h[i]) && h[i].now == scans[i].now && h[i].writeOk == scans[i].writeOk
  }

  lemma StarvingNext(h: seq<Tick>, scans: seq<Scan>, t: Tick, scan: Scan)
    requires Starving(h, scans) && Anomalous(t) && t.now == scan.now && t.writeOk == scan.writeOk
    ensures Starving(h + [t], scans + [scan])
  {
  }

  lemma NothingMeasured(root: real -> real, s: D.Settings)
    requires s.Valid()
    ensures Measured(root, s, []) == []
  {
  }

  /** Whatever else is measured, ticks on a starved host are anomalous. */
  lemma {:induction false} StarvedRun(root: real -> real, s: D.Settings, scans: seq<Scan>, total: nat, available: nat)
    requires s.Valid() && 20 * available < total < WORD
    requires forall i :: 0 <= i < |scans| ==> StarvedScan(scans[i], total, available)
    ensures Starving(Measured(root, s, scans), scans)
  {
    hide Measured, SensorsAfter, NextSensors, TickOf, Anomalous, StarvedScan;
    if scans == [] {
      NothingMeasured(root, s);
    } else {
      var before, scan := scans[..|scans| - 1], scans[|scans| - 1];
      var x := SensorsAfter(before);
      StarvedRun(root, s, before, total, available);
      MeasuredNext(root, s, before, scan);
      StarvedTick(root, s, x, scan, total, available);
      StarvingNext(Measured(root, s, before), before, TickOf(root, s, scan, NextSensors(x, scan)), scan);
      assert scans == before + [scan];
    }
  }

  /**
   * A failed write is not retried: on a starved host the suppressor leaves Normal, and the quota
   * stays quiescent for any number of ticks until the holdoff lets the alert be raised again.
   */
  lemma FailedBurstNotRetried(root: real -> real, s: D.Settings, host: Host, scans: seq<Scan>,
                              total: nat, available: nat)
    requires s.Valid() && !host.readOnly && host.firstWriteOk
    requires 20 * available < total < WORD && |scans| >= 2 && StarvedScans(scans, total, available)
    ensures var h := Measured(root, s, scans);
            && Suppression(h).mode != S.Normal
            && GovernorAfter(host, h).quota == C.View(C.Quiescent, true, C.Share(host.cores * 5000))
  {
    hide Measured;
    var h := Measured(root, s, scans);
    StarvedRun(root, s, scans, total, available);
    AlertThenSuppressed(h);
    DeniedBurst(host, h);
    QuotaIsLastGranted(host, h);
  }
}
