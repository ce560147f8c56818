/**
 * The measuring half of the agent: the samplers and the detector that tick drives before it reacts.
 */
module Instruments {
  import opened StreamingStats
  import opened AgentSpec
  import opened Measurement
  import D = Detector
  import U = Usage

  class Instruments {
    const root: real -> real // math.Hypot's square root
    const settings: D.Settings
    const sampler: U.Sampler
    const det: D.ZScoreDetector
    ghost const parts: set<object>
    ghost var scans: seq<Scan>
    ghost var measured: seq<Tick> // on those scans

    ghost function SensorsNow(): Sensors
      reads sampler, sampler.mem, det
    {
      Sensors(U.State(sampler.prev, sampler.cpuMetric), sampler.MemoryNow(), det.cpus, det.mems)
    }

    ghost predicate SensorsValid()
      reads sampler, det, det.cpuStats, det.memStats, det.cpuSlow, det.memSlow
    {
      sampler.Valid() && det.Valid() && det.settings == settings
    }

    ghost predicate Owned()
    {
      parts == {sampler, sampler.cpu, sampler.cpu.counters, sampler.mem,
                det, det.cpuStats, det.memStats, det.cpuSlow, det.memSlow}
    }

    ghost predicate Valid()
      reads this, parts
    {
      && Owned() && SensorsValid() && SensorsNow() == SensorsAfter(scans)
      && measured == Measured(root, settings, scans)
    }

    constructor (minSamples: nat, root: real -> real)
      ensures Valid() && scans == [] && measured == [] && fresh(parts)
      ensures this.root == root && settings == SettingsFor(minSamples)
    {
      this.root := root;
      settings := SettingsFor(minSamples);
      var usage := new U.Sampler();
      var detector := new D.ZScoreDetector(0.1, 0.01, minSamples, THRESHOLD, DRIFT_THRESHOLD);
      sampler, det := usage, detector;
      parts := {usage, usage.cpu, usage.cpu.counters, usage.mem,
                detector, detector.cpuStats, detector.memStats, detector.cpuSlow, detector.memSlow};
      scans, measured := [], [];
    }

    /** collectUsage: both scrapes, the workload, and an injected spike. */
    method CollectUsage(i: Input) returns (cpu: real, mem: real, throughput: real)
      requires sampler.Valid()
      modifies sampler, sampler.cpu, sampler.cpu.counters, sampler.mem
      ensures sampler.Valid() && throughput == Throughput(ScanOf(i))
      ensures U.State(sampler.prev, sampler.cpuMetric)
              == U.Next(old(U.State(sampler.prev, sampler.cpuMetric)), U.CpuScanOf(i.stat))
      ensures sampler.MemoryNow() == U.NextMemory(old(sampler.MemoryNow()), U.MemScanOf(i.meminfo))
      ensures cpu == Spiked(sampler.cpuMetric, i.spike) && mem == Spiked(sampler.memMetric, i.spike)
    {
      cpu := sampler.CollectCpu(i.stat);
      mem := sampler.CollectMem(i.meminfo);
      throughput := i.inferences;
      if i.spike {
        if throughput == 0.0 {
          throughput := 500.0;
        } else {
          throughput := throughput * 50.0;
        }
        cpu := cpu + 90.0;
        mem := mem + 90.0;
      }
    }

    /** Scrape, feed the detector, and read it off. */
    method Read(i: Input) returns (t: Tick)
      requires SensorsValid()
      modifies sampler, sampler.cpu, sampler.cpu.counters, sampler.mem
      modifies det, det.cpuStats, det.memStats, det.cpuSlow, det.memSlow
      ensures SensorsValid() && SensorsNow() == NextSensors(old(SensorsNow()), ScanOf(i))
      ensures t == TickOf(root, settings, ScanOf(i), SensorsNow())
    {
      hide U.Next, U.NextMemory, D.LastScore, D.DriftIndex, D.Anomalous, D.Drifting, Mean, Tracks;
      var cpu, mem, throughput := CollectUsage(i);
      var raw := det.Update(Some(cpu), Some(mem));
      t := Measurements(i.now, cpu, mem, det.cpuStats.MeanValue().value, det.memStats.MeanValue().value,
                        root(det.zSquared.value), raw, det.driftIndex, det.drifting,
                        sampler.mem.memTotal, sampler.mem.memAvailable, throughput, i.writeOk);
    }

    /** The measuring part of tick: it extends the history of scans and of measurements. */
    method Measure(i: Input) returns (t: Tick)
      requires Valid()
      modifies this, parts
      ensures Valid() && scans == old(scans) + [ScanOf(i)] && measured == old(measured) + [t]
    {
      hide SensorsAfter, Measured, NextSensors, TickOf;
      MeasuredNext(root, settings, scans, ScanOf(i));
      t := Read(i);
      scans, measured := scans + [ScanOf(i)], measured + [t];
    }
  }
}
