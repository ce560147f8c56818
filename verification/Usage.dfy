/**
 * The CPU and memory percentages of collectUsage (cmd/agent/main.go): the delta between successive
 * scrapes of /proc/stat in wrapping 64-bit arithmetic, and the share of memory in use.
 */
module Usage {
  import opened Decimal
  import opened StreamingStats
  import C = CpuLine
  import M = MemInfo
  import L = LineFormat

  /** A copy of CPUStats. */
  datatype CpuRecord = CpuRecord(counters: seq<nat>, total: nat)

  /** What a scrape of /proc/stat with `k` counters yields; `file` is None when it cannot be read. */
  function Scraped(file: Option<string>, k: nat): Option<CpuRecord> {
    if file.Some? && C.Parses(file.value, k) then
      var vs := C.Numbers(C.AfterToken(file.value).value, k);
      Some(CpuRecord(vs, C.Sum(vs) % WORD))
    else None
  }

  lemma ScrapedIsWellShaped(file: Option<string>, k: nat)
    ensures Scraped(file, k).Some? ==>
              |Scraped(file, k).value.counters| == k && Scraped(file, k).value.total < WORD
  {
  }

  /** Subtraction of uint64 values. */
  function Minus(x: nat, y: nat): nat { (x - y) % WORD }

  /** user + nice + system, as the machine adds them. */
  function Work(r: CpuRecord): nat
    requires |r.counters| == C.FIELDS
  {
    (r.counters[C.USER] + r.counters[C.NICE] + r.counters[C.SYSTEM]) % WORD
  }

  function Percent(cur: CpuRecord, prev: CpuRecord): real
    requires |cur.counters| == |prev.counters| == C.FIELDS && cur.total < WORD && prev.total < cur.total
  {
    Minus(Work(cur), Work(prev)) as real / Minus(cur.total, prev.total) as real * 100.0
  }

  datatype State = State(prev: Option<CpuRecord>, metric: real)

  predicate WellShaped(r: CpuRecord) { |r.counters| == C.FIELDS && r.total < WORD }

  ghost predicate Shaped(u: State) {
    u.prev.Some? ==> WellShaped(u.prev.value)
  }

  /** A failed scrape keeps the last percentage and the last successful record. */
  function Next(u: State, scrape: Option<CpuRecord>): State
    requires Shaped(u) && (scrape.Some? ==> WellShaped(scrape.value))
  {
    match scrape
    case None => u
    case Some(r) =>
      State(Some(r), if u.prev.Some? && u.prev.value.total < r.total then Percent(r, u.prev.value) else u.metric)
  }

  // --- When the CPU percentage is one -----------------------------------------------------------

  /** The total is the exact sum of the counters, without overflow. */
  predicate Exact(r: CpuRecord) {
    |r.counters| == C.FIELDS && r.total == C.Sum(r.counters) < WORD
  }

  function TrueWork(r: CpuRecord): nat
    requires |r.counters| == C.FIELDS
  {
    r.counters[C.USER] + r.counters[C.NICE] + r.counters[C.SYSTEM]
  }

  /** Everything that is not work: idle, iowait, interrupts, steal and guest time. */
  function Rest(r: CpuRecord): int
    requires |r.counters| == C.FIELDS
  {
    r.total - TrueWork(r)
  }

  lemma {:induction false} SumOfFirst(vs: seq<nat>)
    requires |vs| >= 3
    ensures vs[0] + vs[1] + vs[2] <= C.Sum(vs)
  {
    if |vs| == 3 {
      SumOfThree(vs[0], vs[1], vs[2]);
      assert vs == [vs[0], vs[1], vs[2]];
    } else {
      SumOfFirst(vs[..|vs| - 1]);
    }
  }

  lemma SumOfThree(x: nat, y: nat, z: nat)
    ensures C.Sum([x, y, z]) == x + y + z
  {
    assert [x][..0] == [] && C.Sum([x]) == x;
    assert [x, y][..1] == [x] && C.Sum([x, y]) == x + y;
    assert [x, y, z][..2] == [x, y];
  }

  lemma ExactWork(r: CpuRecord)
    requires Exact(r)
    ensures Work(r) == TrueWork(r) <= r.total
  {
    SumOfFirst(r.counters);
  }

  lemma MinusIs(x: nat, y: nat)
    requires x < WORD && y < WORD
    ensures Minus(x, y) == if y <= x then x - y else x - y + WORD
  {
  }

  lemma RatioInRange(part: real, whole: real)
    requires 0.0 <= part && 0.0 < whole
    ensures 0.0 <= part / whole * 100.0
    ensures part / whole * 100.0 <= 100.0 <==> part <= whole
  {
    var q := part / whole;
    assert q * whole == part;
    assert q >= 0.0;
    assert q <= 1.0 <==> part <= whole;
  }

  /**
   * Between two exact records with a growing total, the percentage lies in [0, 100] exactly when
   * neither the work nor the rest has gone backwards; work that has wraps round to over 100.
   */
  lemma PercentInRangeIff(cur: CpuRecord, prev: CpuRecord)
    requires Exact(cur) && Exact(prev) && prev.total < cur.total
    ensures 0.0 <= Percent(cur, prev) <= 100.0 <==> TrueWork(prev) <= TrueWork(cur) && Rest(prev) <= Rest(cur)
  {
    ExactWork(cur);
    ExactWork(prev);
    MinusIs(Work(cur), Work(prev));
    MinusIs(cur.total, prev.total);
    RatioInRange(Minus(Work(cur), Work(prev)) as real, Minus(cur.total, prev.total) as real);
  }

  /** Work done between two records, as wrapping arithmetic sees it: work lost comes out as a word more. */
  function ElapsedWork(prev: CpuRecord, cur: CpuRecord): int
    requires |prev.counters| == |cur.counters| == C.FIELDS
  {
    TrueWork(cur) - TrueWork(prev) + (if TrueWork(cur) < TrueWork(prev) then WORD else 0)
  }

  lemma ShareTimes(part: real, whole: real)
    requires whole > 0.0
    ensures part / whole * 100.0 * whole == 100.0 * part
  {
    var q := part / whole;
    assert q * whole == part;
    assert q * 100.0 * whole == 100.0 * (q * whole);
  }

  /** It is the share of the elapsed ticks that was work. */
  lemma PercentIsShare(cur: CpuRecord, prev: CpuRecord)
    requires Exact(cur) && Exact(prev) && prev.total < cur.total
    ensures Percent(cur, prev) * (cur.total - prev.total) as real == 100.0 * ElapsedWork(prev, cur) as real
  {
    ExactWork(cur);
    ExactWork(prev);
    MinusIs(Work(cur), Work(prev));
    MinusIs(cur.total, prev.total);
    ShareTimes(Minus(Work(cur), Work(prev)) as real, Minus(cur.total, prev.total) as real);
  }

  /** No counter goes backwards. */
  predicate Grows(prev: CpuRecord, cur: CpuRecord) {
    |prev.counters| == |cur.counters| && forall i :: 0 <= i < |prev.counters| ==> prev.counters[i] <= cur.counters[i]
  }

  lemma {:induction false} SumGrows(vs: seq<nat>, vs': seq<nat>)
    requires |vs| == |vs'| >= 3 && forall i :: 0 <= i < |vs| ==> vs[i] <= vs'[i]
    ensures C.Sum(vs) - (vs[0] + vs[1] + vs[2]) <= C.Sum(vs') - (vs'[0] + vs'[1] + vs'[2])
  {
    if |vs| == 3 {
      SumOfThree(vs[0], vs[1], vs[2]);
      SumOfThree(vs'[0], vs'[1], vs'[2]);
      assert vs == [vs[0], vs[1], vs[2]] && vs' == [vs'[0], vs'[1], vs'[2]];
    } else {
      SumGrows(vs[..|vs| - 1], vs'[..|vs| - 1]);
    }
  }

  lemma GrowingPercentInRange(cur: CpuRecord, prev: CpuRecord)
    requires Exact(cur) && Exact(prev) && prev.total < cur.total && Grows(prev, cur)
    ensures 0.0 <= Percent(cur, prev) <= 100.0
  {
    SumGrows(prev.counters, cur.counters);
    PercentInRangeIff(cur, prev);
  }

  // --- Whole runs of scrapes --------------------------------------------------------------------

  predicate AllWellShaped(records: seq<CpuRecord>) {
    forall i :: 0 <= i < |records| ==> WellShaped(records[i])
  }

  function After(scrapes: seq<Option<CpuRecord>>): (u: State)
    requires forall s :: s in scrapes && s.Some? ==> WellShaped(s.value)
    ensures Shaped(u)
  {
    if scrapes == [] then State(None, 0.0) else Next(After(scrapes[..|scrapes| - 1]), scrapes[|scrapes| - 1])
  }

  /** The records of the scrapes that succeeded. */
  function Successes(scrapes: seq<Option<CpuRecord>>): seq<CpuRecord> {
    if scrapes == [] then []
    else
      var s := scrapes[|scrapes| - 1];
      Successes(scrapes[..|scrapes| - 1]) + (if s.Some? then [s.value] else [])
  }

  /** Failed scrapes leave no trace: the state is set by the records alone. */
  function Seen(records: seq<CpuRecord>): (u: State)
    requires AllWellShaped(records)
    ensures Shaped(u)
  {
    if records == [] then State(None, 0.0) else Next(Seen(records[..|records| - 1]), Some(records[|records| - 1]))
  }

  lemma SeenNext(records: seq<CpuRecord>, r: CpuRecord)
    requires AllWellShaped(records) && WellShaped(r)
    ensures AllWellShaped(records + [r]) && Seen(records + [r]) == Next(Seen(records), Some(r))
  {
    assert (records + [r])[..|records|] == records;
  }

  lemma {:induction false} FailuresLeaveNoTrace(scrapes: seq<Option<CpuRecord>>)
    requires forall s :: s in scrapes && s.Some? ==> WellShaped(s.value)
    ensures AllWellShaped(Successes(scrapes))
    ensures After(scrapes) == Seen(Successes(scrapes))
  {
    if scrapes != [] {
      var before, s := scrapes[..|scrapes| - 1], scrapes[|scrapes| - 1];
      FailuresLeaveNoTrace(before);
      if s.Some? {
        SeenNext(Successes(before), s.value);
      } else {
        assert Successes(scrapes) == Successes(before);
      }
    }
  }

  lemma {:induction false} LastRecordIsPrevious(records: seq<CpuRecord>)
    requires AllWellShaped(records)
    ensures Seen(records).prev == if records == [] then None else Some(records[|records| - 1])
  {
  }

  /** With exact records and counters that never go backwards, every percentage lies in [0, 100]. */
  lemma {:induction false} PercentagesStayInRange(records: seq<CpuRecord>)
    requires (forall i :: 0 <= i < |records| ==> Exact(records[i])) && AllWellShaped(records)
    requires forall i :: 0 < i < |records| ==> Grows(records[i - 1], records[i])
    ensures 0.0 <= Seen(records).metric <= 100.0
  {
    if records != [] {
      var n := |records| - 1;
      PercentagesStayInRange(records[..n]);
      LastRecordIsPrevious(records[..n]);
      if n > 0 && records[n - 1].total < records[n].total {
        GrowingPercentInRange(records[n], records[n - 1]);
      }
    }
  }

  /** The last two successful scrapes are without overflow, and time has passed between them. */
  predicate Measurable(records: seq<CpuRecord>) {
    var n := |records|;
    n >= 2 && Exact(records[n - 2]) && Exact(records[n - 1]) && records[n - 2].total < records[n - 1].total
  }

  /**
   * Over any run of scrapes, failed ones among them: the percentage is the share of work between
   * the last two that succeeded.
   */
  lemma {:induction false} MetricIsShare(scrapes: seq<Option<CpuRecord>>)
    requires forall s :: s in scrapes && s.Some? ==> WellShaped(s.value)
    requires Measurable(Successes(scrapes))
    ensures var (rs, n) := (Successes(scrapes), |Successes(scrapes)|);
            After(scrapes).metric * (rs[n - 1].total - rs[n - 2].total) as real
            == 100.0 * ElapsedWork(rs[n - 2], rs[n - 1]) as real
  {
    hide Percent, ElapsedWork, Exact;
    var rs, n := Successes(scrapes), |Successes(scrapes)|;
    FailuresLeaveNoTrace(scrapes);
    LastRecordIsPrevious(rs[..n - 1]);
    PercentIsShare(rs[n - 1], rs[n - 2]);
  }

  /** A scrape that fails, is the first to succeed or shows no time passing keeps the percentage. */
  lemma {:induction false} MetricKept(scrapes: seq<Option<CpuRecord>>, s: Option<CpuRecord>)
    requires forall s' :: s' in scrapes + [s] && s'.Some? ==> WellShaped(s'.value)
    requires var rs := Successes(scrapes); s == None || rs == [] || s.value.total <= rs[|rs| - 1].total
    ensures After(scrapes + [s]).metric == After(scrapes).metric
  {
    assert (scrapes + [s])[..|scrapes|] == scrapes;
    assert forall s' :: s' in scrapes ==> s' in scrapes + [s];
    FailuresLeaveNoTrace(scrapes);
    LastRecordIsPrevious(Successes(scrapes));
  }

  /** There is no percentage before two scrapes have succeeded. */
  lemma {:induction false} NoPercentageYet(scrapes: seq<Option<CpuRecord>>)
    requires forall s :: s in scrapes && s.Some? ==> WellShaped(s.value)
    requires |Successes(scrapes)| <= 1
    ensures After(scrapes).metric == 0.0
  {
    if scrapes != [] {
      var before, s := scrapes[..|scrapes| - 1], scrapes[|scrapes| - 1];
      assert scrapes == before + [s];
      NoPercentageYet(before);
      MetricKept(before, s);
    }
  }

  lemma {:induction false} SumPrefix(vs: seq<nat>, i: nat)
    requires i < |vs|
    ensures C.Sum(vs[..i + 1]) == C.Sum(vs[..i]) + vs[i]
  {
    assert vs[..i + 1][..i] == vs[..i];
  }

  lemma {:induction false} SumOfTen(vs: seq<nat>)
    requires |vs| == 10
    ensures C.Sum(vs) == vs[0] + vs[1] + vs[2] + vs[3] + vs[4] + vs[5] + vs[6] + vs[7] + vs[8] + vs[9]
  {
    forall i | 0 <= i < 10 ensures C.Sum(vs[..i + 1]) == C.Sum(vs[..i]) + vs[i] {
      SumPrefix(vs, i);
    }
    hide C.Sum;
    assert vs[..10] == vs;
  }

  /** A printed line of counters is scraped as those counters and their total, all ten of them. */
  lemma {:induction false} PrintedScrape(token: string, lead: string, vs: seq<nat>, gaps: seq<string>, tail: string)
    requires C.Token(token) && C.Gaps(lead)
    requires |vs| == |gaps| == C.FIELDS && C.Separators(gaps, tail) && C.Words(vs)
    ensures CpuScanOf(Some(token + (lead + C.Assemble(C.Printed(vs, gaps), tail))))
            == Some(CpuRecord(vs, (vs[0] + vs[1] + vs[2] + vs[3] + vs[4] + vs[5] + vs[6] + vs[7] + vs[8] + vs[9])
                                  % WORD))
  {
    hide C.Parses, C.Numbers, C.AfterToken, C.Printed, C.Assemble, C.Separators, C.Words, C.Token, C.Gaps, C.Sum;
    C.PrintedLineParsesBack(token, lead, vs, gaps, tail);
    SumOfTen(vs);
  }

  predicate Usable(total: nat, available: nat) { 0 < total && available <= total }

  /** The percentage of memory in use. */
  function Share(total: nat, available: nat): real
    requires total > 0
  {
    (1.0 - available as real / total as real) * 100.0
  }

  lemma ShareInRange(total: nat, available: nat)
    requires Usable(total, available)
    ensures 0.0 <= Share(total, available) <= 100.0
    ensures Share(total, available) * total as real == (total - available) as real * 100.0
  {
    var q := available as real / total as real;
    assert q * total as real == available as real;
    assert 0.0 <= q <= 1.0;
    assert (1.0 - q) * 100.0 * total as real == (total as real - q * total as real) * 100.0;
  }

  /** What one scrape of /proc/stat yields. */
  type CpuScan = s: Option<CpuRecord> | s.Some? ==> WellShaped(s.value) witness None

  function CpuScanOf(file: Option<string>): CpuScan {
    ScrapedIsWellShaped(file, C.FIELDS);
    Scraped(file, C.FIELDS)
  }

  /** MemStats between scrapes, and the last percentage. */
  datatype Memory = Memory(fields: seq<nat>, metric: real)

  const NO_FIELDS: seq<nat> := [0, 0, 0, 0, 0, 0, 0]

  // Positions in MemInfo.KEYS.
  const MEM_TOTAL := 0
  const MEM_AVAILABLE := 2

  predicate WholeMemory(m: Memory) { |m.fields| == |NO_FIELDS| }

  /** What one scrape of /proc/meminfo records for each key; None if the file cannot be read. */
  type MemScan = s: Option<seq<Option<nat>>> | s.Some? ==> |s.value| == |NO_FIELDS| witness None

  function MemScanOf(file: Option<string>): MemScan {
    if file.None? then None else Some(L.AllSeen(':', L.Lines(file.value), M.KEYS))
  }

  /** An unreadable, unrecognised or inconsistent file keeps the last percentage. */
  ghost function NextMemory(m: Memory, s: MemScan): (m': Memory)
    requires WholeMemory(m)
    ensures WholeMemory(m')
  {
    if s.None? then m
    else
      var fields := L.Merged(s.value, m.fields);
      Memory(fields, ShareOrLast(L.AnySeen(s.value), fields[MEM_TOTAL], fields[MEM_AVAILABLE], m.metric))
  }

  function ShareOrLast(ok: bool, total: nat, available: nat, last: real): real {
    if ok && Usable(total, available) then Share(total, available) else last
  }

  /** `pct` percent of `total` is what is not available. */
  predicate IsShareInUse(pct: real, total: nat, available: nat) {
    pct * total as real == (total - available) as real * 100.0
  }

  lemma ShareOrLastIs(ok: bool, total: nat, available: nat, last: real)
    ensures var pct := ShareOrLast(ok, total, available, last);
            if ok && 0 < total && available <= total then IsShareInUse(pct, total, available) else pct == last
  {
    if Usable(total, available) {
      ShareInRange(total, available);
    }
  }

  /** Each field is the one just read, if any, and the percentage the share of memory that is not available. */
  lemma {:induction false} MemoryAfterScrape(m: Memory, s: MemScan)
    requires WholeMemory(m)
    ensures s == None ==> NextMemory(m, s) == m
    ensures s.Some? ==>
              && (forall k :: 0 <= k < |NO_FIELDS| ==>
                    NextMemory(m, s).fields[k] == if s.value[k].Some? then s.value[k].value else m.fields[k])
              && var (m', known) := (NextMemory(m, s), exists k :: 0 <= k < |s.value| && s.value[k].Some?);
                 var (total, available) := (m'.fields[MEM_TOTAL], m'.fields[MEM_AVAILABLE]);
                 if known && 0 < total && available <= total then IsShareInUse(m'.metric, total, available)
                 else m'.metric == m.metric
  {
    hide ShareOrLast, IsShareInUse;
    if s.Some? {
      var fields := L.Merged(s.value, m.fields);
      ShareOrLastIs(L.AnySeen(s.value), fields[MEM_TOTAL], fields[MEM_AVAILABLE], m.metric);
    }
  }

  method MemoryPercentage(ok: bool, total: nat, available: nat, last: real) returns (pct: real)
    ensures pct == ShareOrLast(ok, total, available, last)
    ensures 0.0 <= last <= 100.0 ==> 0.0 <= pct <= 100.0
  {
    pct := last;
    if ok && total > 0 && total >= available {
      ShareInRange(total, available);
      pct := (1.0 - available as real / total as real) * 100.0;
    }
  }

  class Sampler {
    const cpu: C.CpuStats
    const mem: M.MemStats
    var prev: Option<CpuRecord>
    var cpuMetric: real
    var memMetric: real

    ghost predicate Valid()
      reads this
    {
      cpu.counters.Length == C.FIELDS && Shaped(State(prev, cpuMetric)) && 0.0 <= memMetric <= 100.0
    }

    ghost function MemoryNow(): (m: Memory)
      reads this`memMetric, mem
      ensures WholeMemory(m)
    {
      Memory(mem.Fields(), memMetric)
    }

    constructor ()
      ensures Valid() && State(prev, cpuMetric) == State(None, 0.0) && MemoryNow() == Memory(NO_FIELDS, 0.0)
      ensures fresh(cpu) && fresh(cpu.counters) && fresh(mem)
    {
      cpu := new C.CpuStats();
      mem := new M.MemStats();
      prev, cpuMetric, memMetric := None, 0.0, 0.0;
    }

    method Scrape(file: Option<string>) returns (scrape: Option<CpuRecord>)
      requires cpu.counters.Length == C.FIELDS
      modifies cpu, cpu.counters
      ensures scrape == Scraped(file, C.FIELDS)
    {
      if file.Some? {
        var ok := cpu.Parse(file.value);
        if ok {
          return Some(CpuRecord(cpu.counters[..], cpu.total));
        }
      }
      return None;
    }

    /** The CPU half; `file` is the content of /proc/stat, or None when it cannot be read. */
    method CollectCpu(file: Option<string>) returns (pct: real)
      requires Valid()
      modifies this`prev, this`cpuMetric, cpu, cpu.counters
      ensures Valid() && pct == cpuMetric && memMetric == old(memMetric)
      ensures State(prev, cpuMetric) == Next(old(State(prev, cpuMetric)), CpuScanOf(file))
    {
      var scrape := Scrape(file);
      ScrapedIsWellShaped(file, C.FIELDS);
      if scrape.Some? {
        var cur := scrape.value;
        if prev.Some? && cur.total > prev.value.total {
          cpuMetric := Percent(cur, prev.value);
        }
        prev := scrape;
      }
      pct := cpuMetric;
    }

    method ScrapeMem(file: Option<string>) returns (ok: bool)
      modifies mem
      ensures match MemScanOf(file)
              case None => !ok && mem.Fields() == old(mem.Fields())
              case Some(seen) => (ok <==> L.AnySeen(seen)) && mem.Fields() == L.Merged(seen, old(mem.Fields()))
    {
      ok := false;
      if file.Some? {
        ok := mem.Parse(file.value);
        L.LatestIsMerged(':', L.Lines(file.value), M.KEYS, old(mem.Fields()), mem.Fields());
        L.KnownIffSeen(':', L.Lines(file.value), M.KEYS);
      }
    }

    /** The memory half; `file` is the content of /proc/meminfo. */
    method CollectMem(file: Option<string>) returns (pct: real)
      requires Valid()
      modifies this`memMetric, mem
      ensures Valid() && pct == memMetric && MemoryNow() == NextMemory(old(MemoryNow()), MemScanOf(file))
    {
      var ok := ScrapeMem(file);
      ghost var fields := mem.Fields();
      assert fields[MEM_TOTAL] == mem.memTotal && fields[MEM_AVAILABLE] == mem.memAvailable;
      pct := MemoryPercentage(ok, mem.memTotal, mem.memAvailable, memMetric);
      memMetric := pct;
    }
  }
}
