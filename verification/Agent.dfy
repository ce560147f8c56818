/**
 * The agent of cmd/agent/main.go: its components updated in place by tick, in the source's order.
 * Pushing to the outbox appends to `emitted`.
 */
module Agent {
  import opened StreamingStats
  import opened AgentSpec
  import opened Measurement
  import Inst = Instruments
  import S = Suppressor
  import R = RingBuffer
  import H = Heartbeat
  import C = Cgroup
  import I = Interval

  class Agent {
    const limits: I.Limits
    ghost const host: Host
    const instruments: Inst.Instruments
    const supp: S.Suppressor
    const ringBuf: R.RingBuffer
    const hb: H.HeartbeatAggregator
    const cgroupCtl: C.Controller
    var prevSuppressorState: S.Mode
    var prevDrifting: bool
    var lastDriftAlert: int
    var tauPrev: int
    var emitted: seq<Emission>
    ghost var ticks: seq<Tick> // reacted to

    ghost function Now(): View
      reads this`prevSuppressorState, this`prevDrifting, this`lastDriftAlert, this`emitted
      reads supp, ringBuf, hb, cgroupCtl
    {
      View(supp.trace, ringBuf.pushed, hb.windowStart, hb.window, Governor(prevSuppressorState, cgroupCtl.State()),
           DriftState(prevDrifting, lastDriftAlert), emitted)
    }

    ghost predicate ComponentsValid()
      reads supp, ringBuf, ringBuf.buf, hb
    {
      && limits.Valid()
      && supp.Valid() && supp.cfg == SUPPRESSOR
      && ringBuf.Valid() && ringBuf.capacity == CONTEXT
      && hb.Valid() && hb.interval == HEARTBEAT
      && cgroupCtl.readOnly == host.readOnly && cgroupCtl.cores == host.cores
    }

    ghost predicate LoopFollows()
      reads this, supp, ringBuf, ringBuf.buf, hb, cgroupCtl
    {
      && ComponentsValid() && Now() == ViewAfter(host, ticks)
      && tauPrev == I.Tau(limits, limits.tauMax, Map(ReadingOf, ticks))
    }

    /** The instruments share no object with the rest. */
    ghost predicate Apart()
    {
      {this, supp, ringBuf, ringBuf.buf, hb, cgroupCtl} !! instruments.parts
    }

    ghost predicate Valid()
      reads this, instruments, instruments.parts, supp, ringBuf, ringBuf.buf, hb, cgroupCtl
    {
      Apart() && instruments.Valid() && LoopFollows() && ticks == instruments.measured
    }

    constructor (limits: I.Limits, minSamples: nat, root: real -> real, readOnly: bool, cores: nat, cpuMax: C.Quota,
                 firstWriteOk: bool, now: int)
      requires limits.Valid() && limits.delta == RECOVERY_STEP && limits.driftThreshold == DRIFT_THRESHOLD
      ensures Valid() && ticks == [] && instruments.scans == [] && this.limits == limits
      ensures host == Host(readOnly, cores, cpuMax, firstWriteOk, now)
      ensures instruments.root == root && instruments.settings == SettingsFor(minSamples)
      ensures fresh(supp) && fresh(ringBuf) && fresh(ringBuf.buf) && fresh(hb) && fresh(cgroupCtl)
      ensures fresh(instruments) && fresh(instruments.parts)
    {
      hide Inst.Instruments.Valid, S.Suppressor.Valid, R.RingBuffer.Valid, H.HeartbeatAggregator.Valid;
      hide ViewAfter, Map, I.Tau;
      var controller := new C.Controller(readOnly, cores, cpuMax);
      var ok := controller.SetQuiescent(firstWriteOk);
      cgroupCtl := controller;
      this.limits := limits;
      host := Host(readOnly, cores, cpuMax, firstWriteOk, now);
      instruments := new Inst.Instruments(minSamples, root);
      supp := new S.Suppressor(SUPPRESSOR);
      ringBuf := new R.RingBuffer(CONTEXT);
      hb := new H.HeartbeatAggregator(HEARTBEAT, now);
      prevSuppressorState, prevDrifting, lastDriftAlert := S.Normal, false, 0;
      tauPrev := limits.tauMax;
      emitted, ticks := [], [];
      new;
      AtBoot(host, limits);
    }

    method UpdateCgroup(state: S.Mode, writeOk: bool)
      requires cgroupCtl.readOnly == host.readOnly && cgroupCtl.cores == host.cores
      modifies this`prevSuppressorState, cgroupCtl
      ensures Governor(prevSuppressorState, cgroupCtl.State())
              == GovernorNext(host, Governor(old(prevSuppressorState), old(cgroupCtl.State())), state, writeOk)
    {
      if state != prevSuppressorState {
        prevSuppressorState := state;
        match state
        case Alerting =>
          var ok := cgroupCtl.SetBurst(writeOk);
        case Normal =>
          var ok := cgroupCtl.SetQuiescent(writeOk);
        case Suppressed =>
      }
    }

    method EmitAnomalyAlert(t: Tick)
      requires ringBuf.Valid() && ringBuf.capacity == CONTEXT
      modifies this`emitted
      ensures emitted == old(emitted) + [AlertOf(t, R.LastUpTo(CONTEXT, ringBuf.pushed))]
    {
      var history := new R.Entry[CONTEXT](_ => R.ZeroEntry);
      var out, n := ringBuf.Snapshot(history);
      emitted := emitted + [AlertOf(t, out[..n])];
    }

    method HandleDrift(t: Tick)
      modifies this`prevDrifting, this`lastDriftAlert, this`emitted
      ensures DriftState(prevDrifting, lastDriftAlert)
              == DriftNext(DriftState(old(prevDrifting), old(lastDriftAlert)), t.drifting, t.now)
      ensures emitted == old(emitted) + DriftPart(DriftState(old(prevDrifting), old(lastDriftAlert)), t)
    {
      if t.drifting && (!prevDrifting || t.now - lastDriftAlert >= SUPPRESSOR.holdoff) {
        lastDriftAlert := t.now;
        emitted := emitted + [DriftAlert(t.now, t.drift)];
      }
      prevDrifting := t.drifting;
    }

    method FlushHeartbeat(now: int)
      requires hb.Valid() && hb.interval == HEARTBEAT
      modifies this`emitted, hb
      ensures hb.Valid()
      ensures var flush := Flushes(Window(old(hb.windowStart), 0), now);
              && hb.windowStart == (if flush then now else old(hb.windowStart))
              && hb.window == (if flush then [] else old(hb.window))
      ensures emitted == old(emitted) + BeatPart(old(hb.windowStart), now, old(hb.window))
    {
      if hb.ShouldFlush(now) {
        var summary := hb.Flush(now);
        emitted := emitted + [Beat(summary)];
      }
    }

    /** The first half of a cycle: judge the sample, govern the quota, and record it. */
    method Sense(t: Tick) returns (shouldAlert: bool)
      requires ComponentsValid()
      modifies this`prevSuppressorState, supp, ringBuf, ringBuf.buf, hb, cgroupCtl
      ensures ComponentsValid() && Now() == Sensed(host, old(Now()), t)
      ensures shouldAlert == S.Fires(SUPPRESSOR, S.After(SUPPRESSOR, old(supp.trace)), SampleOf(t))
    {
      var isAnom := t.rawAnomaly || Saturated(t.memTotal, t.memAvailable);
      var state;
      shouldAlert, state := supp.Process(isAnom, t.now);
      UpdateCgroup(state, t.writeOk);
      ringBuf.Push(R.Entry(t.now, t.cpu, t.z, isAnom));
      hb.Observe(t.throughput, isAnom, state == S.Suppressed);
    }

    /** The second half: send what there is to send. */
    method Report(t: Tick, shouldAlert: bool)
      requires ComponentsValid()
      modifies this`prevDrifting, this`lastDriftAlert, this`emitted, hb
      ensures ComponentsValid() && Now() == Reported(old(Now()), t, shouldAlert)
    {
      if shouldAlert {
        EmitAnomalyAlert(t);
      }
      HandleDrift(t);
      FlushHeartbeat(t.now);
    }

    /** The interval until the next tick. */
    method Pace(r: I.Reading, ghost past: seq<I.Reading>) returns (next: int)
      requires limits.Valid() && tauPrev == I.Tau(limits, limits.tauMax, past)
      modifies this`tauPrev
      ensures tauPrev == next == I.Tau(limits, limits.tauMax, past + [r])
    {
      assert (past + [r])[..|past|] == past;
      next := I.ComputeInterval(limits, r, tauPrev);
      tauPrev := next;
    }

    /** The reacting part of tick, on what was measured. */
    method React(t: Tick) returns (next: int)
      requires LoopFollows()
      modifies this`prevSuppressorState, this`prevDrifting, this`lastDriftAlert, this`tauPrev, this`emitted, this`ticks
      modifies supp, ringBuf, ringBuf.buf, hb, cgroupCtl
      ensures LoopFollows() && ticks == old(ticks) + [t] && next == tauPrev
    {
      hide Sensed, Reported, ViewAfter, Map, I.Tau, S.After, S.Fires;
      ViewNext(host, ticks, t);
      MapNext(ReadingOf, ticks, t);
      var shouldAlert := Sense(t);
      Report(t, shouldAlert);
      next := Pace(ReadingOf(t), Map(ReadingOf, ticks));
      ticks := ticks + [t];
    }

    /** One cycle of the daemon: it extends the history by `i` and follows the specification. */
    method Tick(i: Input) returns (next: int)
      requires Valid()
      modifies this, instruments, instruments.parts, supp, ringBuf, ringBuf.buf, hb, cgroupCtl
      ensures Valid() && instruments.scans == old(instruments.scans) + [ScanOf(i)] && next == tauPrev
    {
      hide Inst.Instruments.Valid, LoopFollows;
      var t := instruments.Measure(i);
      next := React(t);
    }

    /** What the objects hold is what the whole history of scans calls for. */
    lemma HoldsHistory()
      requires Valid()
      ensures var h := Measured(instruments.root, instruments.settings, instruments.scans);
              Follows(host, h, Now()) && emitted == Emissions(host.bootTime, h)
    {
      ViewFollowsHistory(host, ticks);
    }
  }
}
