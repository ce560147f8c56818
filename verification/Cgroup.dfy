/**
 * The CPU quota controller of internal/cgroup/cgroup.go. The file cpu.max is a field, and whether
 * a write to it succeeds is an input.
 */
module Cgroup {
  import opened LineFormat
  import opened StreamingStats

  datatype Quota = BurstQuota | Share(microseconds: int) // "max 100000" or "<n> 100000"

  datatype Mode = Quiescent | Burst

  /** Five percent of the bandwidth of all logical cores, per 100 ms period. */
  function QuotaOf(mode: Mode, cores: nat): Quota {
    if mode == Burst then BurstQuota else Share(cores * 5000)
  }

  datatype View = View(mode: Mode, hasMode: bool, cpuMax: Quota)

  /** The effect of asking for `mode`: nothing when read-only, when it is set already, or on failure. */
  function Asked(v: View, readOnly: bool, cores: nat, mode: Mode, writeOk: bool): View {
    if readOnly || (v.hasMode && v.mode == mode) || !writeOk then v
    else View(mode, true, QuotaOf(mode, cores))
  }

  const STAT_KEYS: seq<string> := ["usage_usec", "nr_periods", "nr_throttled", "throttled_usec"]

  datatype CpuStat = CpuStat(usageUsec: nat, nrPeriods: nat, nrThrottled: nat, throttledUsec: nat)

  /** The fields, in the order of STAT_KEYS. */
  ghost function FieldsOf(s: CpuStat): seq<nat> {
    [s.usageUsec, s.nrPeriods, s.nrThrottled, s.throttledUsec]
  }

  /** The switch over recognised keys. */
  method StoreStat(stat: CpuStat, key: string, value: nat) returns (next: CpuStat)
    ensures Stores(STAT_KEYS, FieldsOf(stat), FieldsOf(next), Some(Field(key, value)))
  {
    next := stat;
    if key == "usage_usec" {
      next := next.(usageUsec := value);
    } else if key == "nr_periods" {
      next := next.(nrPeriods := value);
    } else if key == "nr_throttled" {
      next := next.(nrThrottled := value);
    } else if key == "throttled_usec" {
      next := next.(throttledUsec := value);
    }
  }

  /** parseCPUStat: each field is the last value recorded for its key, or 0; it never fails. */
  method ParseCpuStat(input: string) returns (stat: CpuStat)
    ensures AllLatest(' ', Lines(input), STAT_KEYS, [0, 0, 0, 0], FieldsOf(stat))
  {
    var data := input;
    ghost var done: seq<string> := [];
    stat := CpuStat(0, 0, 0, 0);
    while |data| > 0
      invariant Lines(input) == done + Lines(data)
      invariant AllLatest(' ', done, STAT_KEYS, [0, 0, 0, 0], FieldsOf(stat))
      decreases |data|
    {
      LinesNext(done, data);
      var line := FirstLine(data);
      data := LaterLines(data);
      ghost var was := FieldsOf(stat);
      var field := ParseLine(line, ' ');
      if field.Some? {
        stat := StoreStat(stat, field.value.key, field.value.value);
      }
      LatestNext(' ', done, line, STAT_KEYS, [0, 0, 0, 0], was, FieldsOf(stat));
      done := done + [line];
    }
    assert Lines(input) == done;
  }

  class Controller {
    const readOnly: bool
    const cores: nat
    var mode: Mode
    var hasMode: bool
    var cpuMax: Quota

    function State(): View
      reads this
    {
      View(mode, hasMode, cpuMax)
    }

    constructor (readOnly: bool, cores: nat, cpuMax: Quota)
      ensures this.readOnly == readOnly && this.cores == cores
      ensures State() == View(Quiescent, false, cpuMax)
    {
      this.readOnly, this.cores := readOnly, cores;
      mode, hasMode, this.cpuMax := Quiescent, false, cpuMax;
    }

    method SetBurst(writeOk: bool) returns (ok: bool)
      modifies this
      ensures State() == Asked(old(State()), readOnly, cores, Burst, writeOk)
      ensures !ok <==> !writeOk && !readOnly && !(old(hasMode) && old(mode) == Burst)
    {
      if readOnly || (hasMode && mode == Burst) {
        return true;
      }
      if !writeOk {
        return false;
      }
      cpuMax := BurstQuota;
      mode := Burst;
      hasMode := true;
      return true;
    }

    method SetQuiescent(writeOk: bool) returns (ok: bool)
      modifies this
      ensures State() == Asked(old(State()), readOnly, cores, Quiescent, writeOk)
      ensures !ok <==> !writeOk && !readOnly && !(old(hasMode) && old(mode) == Quiescent)
    {
      if readOnly || (hasMode && mode == Quiescent) {
        return true;
      }
      if !writeOk {
        return false;
      }
      var quota := cores * 5000;
      cpuMax := Share(quota);
      mode := Quiescent;
      hasMode := true;
      return true;
    }
  }
}
