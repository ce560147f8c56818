/**
 * What every run of the outbox guarantees: no wake-up is lost, tokens and events drift apart by
 * less than the number of concurrent Pop calls, every accepted event has exactly one fate, Close
 * drains, and internal work always settles with no waiter left beside a queued event.
 */
module OutboxTheorems {
  import opened Outbox
  import opened OutboxProtocol

  // --- No lost wake-up --------------------------------------------------------------------------

  ghost predicate AtMostPops(s: State, run: seq<Step>, limit: nat)
    decreases run
  {
    && Popping(s) <= limit
    && (run != [] && Enabled(s, run[0]) ==> AtMostPops(Apply(s, run[0]), run[1..], limit))
  }

  lemma PeakStep(s: State, step: Step, limit: nat)
    requires Enabled(s, step) && s.peak <= limit && Popping(Apply(s, step)) <= limit
    ensures Apply(s, step).peak <= limit
  {
  }

  lemma {:induction false} PeakWithin(s: State, run: seq<Step>, end: State, limit: nat)
    requires Leads(s, run, end) && AtMostPops(s, run, limit) && s.peak <= limit
    ensures end.peak <= limit
    decreases run
  {
    if run != [] {
      PeakStep(s, run[0], limit);
      PeakWithin(Apply(s, run[0]), run[1..], end, limit);
    }
  }

  lemma BalanceIsWokenWhenFree(s: State)
    requires Shape(s) && s.holder == -1
    ensures Sum(s.threads, BalanceWeight) == Woken(s)
  {
    assert forall t :: 0 <= t < |s.threads| ==> ThreadOk(t, s.threads[t], s.holder, s.core.closed, s.closedCh);
    SumBelow(s.threads, BalanceWeight, WokenWeight);
    SumBelow(s.threads, WokenWeight, BalanceWeight);
  }

  lemma {:induction false} WokenWitness(threads: seq<PC>) returns (t: nat)
    requires Sum(threads, WokenWeight) > 0
    ensures t < |threads| && (threads[t].TokenLock? || threads[t].TokenBody?)
  {
    if threads[0].TokenLock? || threads[0].TokenBody? {
      return 0;
    }
    var u := WokenWitness(threads[1..]);
    return u + 1;
  }

  /** Whenever the mutex is free, wake-ups under way cover the queue and exceed it by less than P. */
  lemma NoLostWakeup(capacity: positive, policy: DropPolicy, n: nat, run: seq<Step>, end: State, limit: nat)
    requires Leads(Start(capacity, policy, n), run, end) && end.holder == -1
    requires 1 <= limit && AtMostPops(Start(capacity, policy, n), run, limit)
    ensures |end.core.queue| <= end.sem + Woken(end) <= |end.core.queue| + limit - 1
    ensures end.core.queue != [] ==>
              end.sem > 0 || exists t :: 0 <= t < |end.threads| && end.threads[t].TokenLock?
  {
    var s := Start(capacity, policy, n);
    StartInv(capacity, policy, n);
    RunInv(s, run, end);
    PeakWithin(s, run, end, limit);
    ThreadCount(s, run, end);
    BalanceIsWokenWhenFree(end);
    if end.core.queue != [] && end.sem == 0 {
      var t := WokenWitness(end.threads);
      assert ThreadOk(t, end.threads[t], end.holder, end.core.closed, end.closedCh);
      assert end.threads[t].TokenLock?;
    }
  }

  lemma {:induction false} ThreadCount(s: State, run: seq<Step>, end: State)
    requires Leads(s, run, end)
    ensures |end.threads| == |s.threads| && end.capacity == s.capacity && end.policy == s.policy
    decreases run
  {
    if run != [] {
      ThreadCount(Apply(s, run[0]), run[1..], end);
    }
  }

  /** Every missed receive is still slack, or was spent on a spurious wake-up or a full channel. */
  lemma WakeupLedger(capacity: positive, policy: DropPolicy, n: nat, run: seq<Step>, end: State)
    requires Leads(Start(capacity, policy, n), run, end)
    ensures end.misses == Slack(end) + end.spurious + end.fullSends
    ensures end.spurious + end.fullSends <= end.misses
    ensures end.holder == -1 ==> Slack(end) == end.sem + Woken(end) - |end.core.queue|
  {
    StartInv(capacity, policy, n);
    RunInv(Start(capacity, policy, n), run, end);
    if end.holder == -1 {
      BalanceIsWokenWhenFree(end);
    }
  }

  // --- History ----------------------------------------------------------------------------------

  /** The queue is the tail of the accepted log, and the rest splits in order by fate. */
  lemma EveryEventHasOneFate(capacity: positive, policy: DropPolicy, n: nat, run: seq<Step>, end: State)
    requires Leads(Start(capacity, policy, n), run, end)
    ensures |end.fates| + |end.core.queue| == |end.log| && end.core.queue == end.log[|end.fates|..]
    ensures end.delivered == Pick(end.log, end.fates, Delivered)
    ensures end.evicted == Pick(end.log, end.fates, Evicted)
    ensures end.core.enqueued == |end.log| && end.core.dequeued == |end.delivered|
    ensures policy == DropOldest ==>
              && end.core.enqueued == end.core.dequeued + end.core.dropped + |end.core.queue|
              && end.attempts == end.core.enqueued
    ensures policy == DropNewest ==>
              && end.core.enqueued == end.core.dequeued + |end.core.queue|
              && end.evicted == [] && end.attempts == end.core.enqueued + end.core.dropped
  {
    StartInv(capacity, policy, n);
    RunInv(Start(capacity, policy, n), run, end);
    ThreadCount(Start(capacity, policy, n), run, end);
  }

  // --- Close ------------------------------------------------------------------------------------

  /** The step in which a Pop decides to return ErrQueueClosed. */
  predicate Refuses(s: State, step: Step) {
    && Enabled(s, step) && step.Proceed? && !NeedsMutex(s.threads[step.t])
    && HeldStep(s, step.t).threads[step.t] == Unlock(Refuse)
  }

  lemma RefusalMeansDrained(s: State, step: Step)
    requires Inv(s) && Refuses(s, step)
    ensures s.core.closed && s.core.queue == []
  {
    assert ThreadOk(step.t, s.threads[step.t], s.holder, s.core.closed, s.closedCh);
  }

  /** What a step after Close leaves alone. */
  ghost predicate Draining(s: State, s1: State) {
    && s1.core.closed && s1.log == s.log && s1.evicted == s.evicted
    && s1.delivered + s1.core.queue == s.delivered + s.core.queue && s.delivered <= s1.delivered
    && s1.attempts == s.attempts && s1.core.dropped == s.core.dropped
  }

  lemma DequeueDrains(s: State)
    requires s.core.closed && s.core.queue != []
    ensures Draining(s, Dequeue(s))
  {
    assert [s.core.queue[0]] + s.core.queue[1..] == s.core.queue;
  }

  lemma CloseDrainsRing(s: State, t: nat)
    requires s.core.closed && t < |s.threads| && ReadsRing(s.threads[t])
    ensures Draining(s, HeldStep(s, t))
  {
    if s.core.queue != [] {
      DequeueDrains(s);
    }
  }

  lemma CloseDrainsHeld(s: State, t: nat)
    requires s.core.closed && t < |s.threads| && HoldsMutex(s.threads[t]) && !ReadsRing(s.threads[t])
    ensures Draining(s, HeldStep(s, t))
  {
  }

  lemma CloseDrainsStep(s: State, step: Step)
    requires s.core.closed && Enabled(s, step)
    ensures Draining(s, Apply(s, step))
  {
    if step.Proceed? && ReadsRing(s.threads[step.t]) {
      CloseDrainsRing(s, step.t);
    } else if step.Proceed? && HoldsMutex(s.threads[step.t]) {
      CloseDrainsHeld(s, step.t);
    }
  }

  /** After Close: nothing enters, nothing is evicted, and what leaves the queue is delivered. */
  lemma {:induction false} CloseDrains(s: State, run: seq<Step>, end: State)
    requires s.core.closed && Leads(s, run, end)
    ensures Draining(s, end)
    decreases run
  {
    if run != [] {
      CloseDrainsStep(s, run[0]);
      CloseDrains(Apply(s, run[0]), run[1..], end);
    }
  }

  /** Once a Pop is refused, every accepted event has met its fate and none will ever follow. */
  lemma RefusedPopIsFinal(capacity: positive, policy: DropPolicy, n: nat,
                          run: seq<Step>, s: State, step: Step, later: seq<Step>, end: State)
    requires Leads(Start(capacity, policy, n), run, s) && Refuses(s, step)
    requires Leads(Apply(s, step), later, end)
    ensures |s.fates| == |s.log|
    ensures end.core.queue == [] && end.log == s.log && end.delivered == s.delivered && end.evicted == s.evicted
  {
    StartInv(capacity, policy, n);
    RunInv(Start(capacity, policy, n), run, s);
    RefusalMeansDrained(s, step);
    CloseDrainsStep(s, step);
    CloseDrains(Apply(s, step), later, end);
  }

  // --- Settling ---------------------------------------------------------------------------------

  /** Steps the outbox takes by itself: no new call, no cancellation, no caller moving on. */
  predicate Internal(step: Step) {
    step.SeeClosed? || step.TakeToken? || step.Proceed?
  }

  /** Bounds the internal steps left to a thread, if it takes at most one more token. */
  function Rank(pc: PC): int {
    match pc
    case Idle => 0
    case Returned(_) => 0
    case PushLock(_) => 8
    case PushBody(_) => 7
    case PushToken => 6
    case PopLock => 8
    case PopBody => 7
    case PopToken(_) => 2
    case Select => 5
    case ClosedLock => 4
    case ClosedBody => 3
    case TokenLock => 8
    case TokenBody => 7
    case CloseLock => 4
    case CloseBody => 3
    case CloseChannel => 2
    case Unlock(exit) => if exit.Wait? then 6 else 1
  }

  function Potential(s: State): int {
    Sum(s.threads, Rank) + 4 * s.sem
  }

  lemma RankMoved(s: State, s': State, t: nat)
    requires t < |s.threads| == |s'.threads| && s'.threads == s.threads[t := s'.threads[t]]
    ensures Potential(s') - Potential(s) == Rank(s'.threads[t]) - Rank(s.threads[t]) + 4 * (s'.sem - s.sem)
  {
    SumUpdate(s.threads, t, s'.threads[t], Rank);
  }

  lemma RingStepDescends(s: State, t: nat)
    requires t < |s.threads| && ReadsRing(s.threads[t])
    ensures Potential(HeldStep(s, t)) < Potential(s)
  {
    RankMoved(s, HeldStep(s, t), t);
  }

  lemma HeldStepDescends(s: State, t: nat)
    requires t < |s.threads| && HoldsMutex(s.threads[t]) && !ReadsRing(s.threads[t])
    ensures Potential(HeldStep(s, t)) < Potential(s)
  {
    RankMoved(s, HeldStep(s, t), t);
  }

  lemma InternalStepDescends(s: State, step: Step)
    requires Enabled(s, step) && Internal(step)
    ensures Potential(Apply(s, step)) < Potential(s)
  {
    if step.Proceed? && ReadsRing(s.threads[step.t]) {
      RingStepDescends(s, step.t);
    } else if step.Proceed? && !NeedsMutex(s.threads[step.t]) {
      HeldStepDescends(s, step.t);
    } else {
      RankMoved(s, Apply(s, step), step.t);
    }
  }

  lemma PotentialNonnegative(s: State)
    ensures Potential(s) >= 0
  {
    SumBelow(s.threads, (pc: PC) => 0, Rank);
    SumZero(s.threads);
  }

  /** No interleaving of internal steps goes on for longer than the potential. */
  lemma {:induction false} InternalRunsAreBounded(s: State, run: seq<Step>, end: State)
    requires Leads(s, run, end) && forall i :: 0 <= i < |run| ==> Internal(run[i])
    ensures |run| <= Potential(s) - Potential(end) && |run| <= Potential(s)
    decreases run
  {
    PotentialNonnegative(end);
    if run != [] {
      InternalStepDescends(s, run[0]);
      assert forall i :: 0 <= i < |run[1..]| ==> run[1..][i] == run[i + 1];
      InternalRunsAreBounded(Apply(s, run[0]), run[1..], end);
    }
  }

  ghost predicate Settled(s: State) {
    forall step :: Internal(step) ==> !Enabled(s, step)
  }

  lemma SettledUnlocked(s: State)
    requires Shape(s) && Settled(s)
    ensures s.holder == -1
  {
    if s.holder >= 0 {
      assert ThreadOk(s.holder, s.threads[s.holder], s.holder, s.core.closed, s.closedCh);
      assert Enabled(s, Proceed(s.holder));
    }
  }

  lemma SettledNoneWoken(s: State)
    requires Shape(s) && Settled(s)
    ensures Sum(s.threads, BalanceWeight) == Woken(s) <= 0
  {
    SettledUnlocked(s);
    BalanceIsWokenWhenFree(s);
    if Woken(s) > 0 {
      var u := WokenWitness(s.threads);
      assert ThreadOk(u, s.threads[u], s.holder, s.core.closed, s.closedCh);
      assert Enabled(s, Proceed(u));
    }
  }

  lemma SettledThread(s: State, t: nat)
    requires Shape(s) && Settled(s) && t < |s.threads|
    ensures s.threads[t].Idle? || s.threads[t].Returned? || s.threads[t].Select?
    ensures s.threads[t].Select? ==> s.sem == 0 && !s.closedCh
  {
    SettledUnlocked(s);
    assert ThreadOk(t, s.threads[t], s.holder, s.core.closed, s.closedCh);
    assert !Enabled(s, Proceed(t)) && !Enabled(s, TakeToken(t)) && !Enabled(s, SeeClosed(t));
  }

  lemma SettledWaiter(s: State, t: nat)
    requires Inv(s) && Settled(s) && t < |s.threads|
    ensures s.threads[t].Idle? || s.threads[t].Returned? || s.threads[t].Select?
    ensures s.threads[t].Select? ==> s.core.queue == [] && !s.core.closed && s.sem == 0
  {
    SettledUnlocked(s);
    SettledThread(s, t);
    SettledNoneWoken(s);
  }

  /** When internal work has settled, a Pop still waiting waits on an empty, open queue. */
  lemma SettledMeansNothingMissed(capacity: positive, policy: DropPolicy, n: nat, run: seq<Step>, end: State, t: nat)
    requires Leads(Start(capacity, policy, n), run, end) && Settled(end) && t < |end.threads|
    ensures end.threads[t].Idle? || end.threads[t].Returned? || end.threads[t].Select?
    ensures end.threads[t].Select? ==> end.core.queue == [] && !end.core.closed && end.sem == 0
  {
    StartInv(capacity, policy, n);
    RunInv(Start(capacity, policy, n), run, end);
    SettledWaiter(end, t);
  }

  // --- How far tokens and events really drift ---------------------------------------------------

  /** A token spent on an empty queue was in excess, and brings the excess down by one. */
  lemma SpuriousTurnLowersSlack(s: State, t: nat)
    requires Inv(s) && t < |s.threads| && s.threads[t].TokenBody? && s.core.queue == []
    ensures 1 <= Slack(s) && Slack(HeldStep(s, t)) == Slack(s) - 1
    ensures HeldStep(s, t).core == s.core
  {
    CarrierCounted(s, t);
    Moved(s, HeldStep(s, t), t);
  }

  lemma {:induction false} Concat(s: State, run: seq<Step>, mid: State, more: seq<Step>, end: State)
    requires Leads(s, run, mid) && Leads(mid, more, end)
    ensures Leads(s, run + more, end)
    decreases run
  {
    hide Apply, Enabled;
    if run == [] {
      assert run + more == more;
    } else {
      Concat(Apply(s, run[0]), run[1..], mid, more, end);
      assert (run + more)[1..] == run[1..] + more;
    }
  }

  lemma Extend(s: State, run: seq<Step>, mid: State, step: Step)
    requires Leads(s, run, mid) && Enabled(mid, step)
    ensures Leads(s, run + [step], Apply(mid, step))
  {
    assert Leads(Apply(mid, step), [], Apply(mid, step));
    assert [step][1..] == [];
    Concat(s, run, mid, [step], Apply(mid, step));
  }

  /** Every step of the run is taken by `t`. */
  predicate StepsOf(run: seq<Step>, t: nat) {
    forall i :: 0 <= i < |run| ==> run[i].t == t
  }

  /** A Pop that has begun and finds nothing blocks in the select. */
  lemma FirstWait(s: State, t: nat) returns (run: seq<Step>, end: State)
    requires t < |s.threads| && s.threads[t].PopLock? && s.holder == -1 && s.core.queue == [] && !s.core.closed
    ensures Leads(s, run, end) && end == At(s, t, Select)
    ensures StepsOf(run, t) && OneCall(run, t)
  {
    run := [Proceed(t), Proceed(t), Proceed(t)];
    var s1 := Apply(s, run[0]);
    var s2 := Apply(s1, run[1]);
    end := Apply(s2, run[2]);
    assert s2.threads[t] == Unlock(Wait);
    assert end.threads == s.threads[t := Select];
    assert Leads(s2, run[2..], end);
    assert Leads(s1, run[1..], end);
  }

  /** A Pop that finds nothing blocks in the select. */
  lemma BlockingPop(s: State, t: nat) returns (run: seq<Step>, end: State)
    requires t < |s.threads| && s.threads[t].Idle? && s.holder == -1 && s.core.queue == [] && !s.core.closed
    ensures Leads(s, run, end)
    ensures end == At(s, t, Select).(peak := end.peak)
    ensures end.peak == var p := Popping(At(s, t, PopLock)); if p > s.peak then p else s.peak
  {
    var s1 := Apply(s, BeginPop(t));
    var wait, last := FirstWait(s1, t);
    assert last.threads == s.threads[t := Select];
    run, end := [BeginPop(t)] + wait, last;
    assert run[1..] == wait;
  }

  /** The push enters the ring, and owes a token. */
  lemma PushEnters(s: State, t: nat, e: Event) returns (run: seq<Step>, end: State)
    requires t < |s.threads| && s.threads[t].Idle? && s.holder == -1
    requires !s.core.closed && |s.core.queue| < s.capacity
    ensures Leads(s, run, end) && StepsOf(run, t)
    ensures end == At(s, t, PushToken).(core := s.core.(queue := s.core.queue + [e], enqueued := s.core.enqueued + 1),
                                        holder := t, log := s.log + [e], attempts := s.attempts + 1)
  {
    run := [BeginPush(t, e), Proceed(t), Proceed(t)];
    var s1 := Apply(s, run[0]);
    var s2 := Apply(s1, run[1]);
    end := Apply(s2, run[2]);
    assert end.threads == s.threads[t := PushToken];
    assert Leads(s2, run[2..], end);
    assert Leads(s1, run[1..], end);
  }

  lemma TokenSent(s: State, t: nat) returns (run: seq<Step>, end: State)
    requires t < |s.threads| && s.threads[t].PushToken? && s.sem < s.capacity
    ensures Leads(s, run, end) && StepsOf(run, t)
    ensures end == At(s, t, Idle).(holder := -1, sem := s.sem + 1)
  {
    run := [Proceed(t), Proceed(t)];
    var s1 := Apply(s, run[0]);
    end := Apply(s1, run[1]);
    assert s1.threads[t] == Unlock(Done);
    assert end.threads == s.threads[t := Idle];
    assert Leads(s1, run[1..], end);
  }

  /** A push into an open queue with room in both the ring and the channel. */
  lemma RoomyPush(s: State, t: nat, e: Event) returns (run: seq<Step>, end: State)
    requires t < |s.threads| && s.threads[t].Idle? && s.holder == -1
    requires !s.core.closed && |s.core.queue| < s.capacity && s.sem < s.capacity
    ensures Leads(s, run, end) && StepsOf(run, t)
    ensures end == s.(core := s.core.(queue := s.core.queue + [e], enqueued := s.core.enqueued + 1),
                      sem := s.sem + 1, log := s.log + [e], attempts := s.attempts + 1)
  {
    var enter, mid := PushEnters(s, t, e);
    var send, last := TokenSent(mid, t);
    Concat(s, enter, mid, send, last);
    assert last.threads == s.threads;
    run, end := enter + send, last;
  }

  /** A Pop that finds an event takes it, with the token still to be received. */
  lemma EventfulPop(s: State, t: nat) returns (run: seq<Step>, end: State)
    requires t < |s.threads| && s.threads[t].Idle? && s.holder == -1 && s.core.queue != []
    ensures Leads(s, run, end) && StepsOf(run, t)
    ensures end == At(Dequeue(s), t, PopToken(s.core.queue[0])).(holder := t, peak := end.peak)
    ensures end.peak == var p := Popping(At(s, t, PopLock)); if p > s.peak then p else s.peak
  {
    run := [BeginPop(t), Proceed(t), Proceed(t)];
    var s1 := Apply(s, run[0]);
    var s2 := Apply(s1, run[1]);
    end := Apply(s2, run[2]);
    assert end.threads == s.threads[t := PopToken(s.core.queue[0])];
    assert Leads(s2, run[2..], end);
    assert Leads(s1, run[1..], end);
  }

  /** The opportunistic receive misses. */
  lemma MissedReceive(s: State, t: nat) returns (run: seq<Step>, end: State)
    requires t < |s.threads| && s.threads[t].PopToken? && s.sem == 0
    ensures Leads(s, run, end) && StepsOf(run, t)
    ensures end == At(s, t, Returned(s.threads[t].event)).(holder := -1, misses := s.misses + 1)
  {
    run := [Proceed(t), Proceed(t)];
    var s1 := Apply(s, run[0]);
    end := Apply(s1, run[1]);
    assert end.threads == s.threads[t := Returned(s.threads[t].event)];
    assert Leads(s1, run[1..], end);
  }

  /** A Pop that takes the event on entry but finds the token already gone. */
  lemma TokenlessPop(s: State, t: nat) returns (run: seq<Step>, end: State)
    requires t < |s.threads| && s.threads[t].Idle? && s.holder == -1
    requires s.core.queue != [] && s.sem == 0
    ensures Leads(s, run, end) && StepsOf(run, t)
    ensures end == At(Dequeue(s), t, Returned(s.core.queue[0])).(misses := s.misses + 1, peak := end.peak)
    ensures end.peak == var p := Popping(At(s, t, PopLock)); if p > s.peak then p else s.peak
  {
    var enter, mid := EventfulPop(s, t);
    var leave, last := MissedReceive(mid, t);
    Concat(s, enter, mid, leave, last);
    assert last.threads == s.threads[t := Returned(s.core.queue[0])];
    run, end := enter + leave, last;
  }

  /** A woken waiter that finds the queue empty goes back to the select. */
  lemma SpuriousTurn(s: State, t: nat) returns (run: seq<Step>, end: State)
    requires t < |s.threads| && s.threads[t].TokenLock? && s.holder == -1
    requires s.core.queue == [] && !s.core.closed
    ensures Leads(s, run, end) && StepsOf(run, t) && OneCall(run, t)
    ensures end == At(s, t, Select).(spurious := s.spurious + 1)
  {
    run := [Proceed(t), Proceed(t), Proceed(t)];
    var s1 := Apply(s, run[0]);
    var s2 := Apply(s1, run[1]);
    end := Apply(s2, run[2]);
    assert s2.threads[t] == Unlock(Wait);
    assert end.threads == s.threads[t := Select];
    assert Leads(s2, run[2..], end);
    assert Leads(s1, run[1..], end);
  }

  /** An event arrives for a blocked waiter, which takes its token but not yet the mutex. */
  lemma WakeUp(s0: State, t: nat, u: nat, e: Event) returns (run: seq<Step>, s: State)
    requires t < |s0.threads| && u < |s0.threads| && t != u && s0.threads[t].Select? && s0.threads[u].Idle?
    requires s0.holder == -1 && s0.core.queue == [] && !s0.core.closed && s0.sem == 0
    ensures Leads(s0, run, s) && TakeToken(t) in run && OneCall(run, t)
    ensures s == At(s0, t, TokenLock).(core := s0.core.(queue := [e], enqueued := s0.core.enqueued + 1),
                                       log := s0.log + [e], attempts := s0.attempts + 1)
  {
    var push, s1 := RoomyPush(s0, u, e);
    s := Apply(s1, TakeToken(t));
    Extend(s0, push, s1, TakeToken(t));
    run := push + [TakeToken(t)];
    assert run[|push|] == TakeToken(t);
  }

  /** `u` takes the event before the waiter locks, without a token, and moves on. */
  lemma Snatch(s: State, u: nat) returns (run: seq<Step>, end: State)
    requires u < |s.threads| && s.threads[u].Idle? && s.holder == -1 && s.core.queue != [] && s.sem == 0
    ensures Leads(s, run, end) && StepsOf(run, u)
    ensures end == Dequeue(s).(misses := s.misses + 1, peak := end.peak)
    ensures end.peak == var p := Popping(At(s, u, PopLock)); if p > s.peak then p else s.peak
  {
    var take, after := TokenlessPop(s, u);
    end := Apply(after, Finish(u));
    assert end.threads == s.threads;
    Extend(s, take, after, Finish(u));
    run := take + [Finish(u)];
  }

  // --- The bound is attained, for every number of Pop calls -------------------------------------

  /** `j` waiters hold tokens for events that are gone, and at most `j + 1` Pops ever overlapped. */
  ghost predicate Drifted(s: State, j: nat, n: nat) {
    && |s.threads| == n && j <= n
    && (forall i :: 0 <= i < j ==> s.threads[i] == TokenLock) && (forall i :: j <= i < n ==> s.threads[i] == Idle)
    && s.holder == -1 && s.core.queue == [] && !s.core.closed && s.sem == 0
    && Popping(s) == Woken(s) == j && s.peak <= (if j == 0 then 0 else j + 1)
  }

  /** How many Pops overlap while `t` begins one, and then `u`. */
  lemma OverlapCount(s: State, t: nat, u: nat)
    requires t < |s.threads| && u < |s.threads| && t != u && s.threads[t].Idle? && s.threads[u].Idle?
    ensures Popping(At(s, t, PopLock)) == Popping(s) + 1
    ensures Popping(At(At(s, t, TokenLock), u, PopLock)) == Popping(s) + 2
    ensures Popping(At(s, t, TokenLock)) == Popping(s) + 1 && Woken(At(s, t, TokenLock)) == Woken(s) + 1
  {
    SumUpdate(s.threads, t, PopLock, PopWeight);
    SumUpdate(s.threads, t, TokenLock, PopWeight);
    SumUpdate(s.threads, t, TokenLock, WokenWeight);
    SumUpdate(s.threads[t := TokenLock], u, PopLock, PopWeight);
  }

  /** Waiter `t` is woken by an event that `u` pushes and snatches. */
  lemma DriftTurn(s: State, t: nat, u: nat) returns (run: seq<Step>, end: State)
    requires t < |s.threads| && u < |s.threads| && t != u && s.threads[t].Idle? && s.threads[u].Idle?
    requires s.holder == -1 && s.core.queue == [] && !s.core.closed && s.sem == 0
    ensures Leads(s, run, end) && end.threads == s.threads[t := TokenLock]
    ensures end.holder == -1 && end.core.queue == [] && !end.core.closed && end.sem == 0
    ensures end.peak <= (if Popping(s) + 2 > s.peak then Popping(s) + 2 else s.peak)
  {
    var block, s1 := BlockingPop(s, t);
    var wake, s2 := WakeUp(s1, t, u, ZeroEvent);
    assert s2.threads == s.threads[t := TokenLock];
    var snatch, s3 := Snatch(s2, u);
    OverlapCount(s, t, u);
    Concat(s, block, s1, wake, s2);
    Concat(s, block + wake, s2, snatch, s3);
    run, end := block + wake + snatch, s3;
  }

  /** One more waiter is left with a token in vain. */
  lemma DriftMore(s: State, j: nat, n: nat) returns (run: seq<Step>, end: State)
    requires Drifted(s, j, n) && j + 1 < n
    ensures Leads(s, run, end) && Drifted(end, j + 1, n)
  {
    run, end := DriftTurn(s, j, n - 1);
    OverlapCount(s, j, n - 1);
  }

  lemma {:induction false} DriftTo(capacity: positive, policy: DropPolicy, n: nat, j: nat)
    returns (run: seq<Step>, end: State)
    requires j < n
    ensures Leads(Start(capacity, policy, n), run, end) && Drifted(end, j, n)
  {
    if j == 0 {
      SumIdle(n, PopWeight);
      SumIdle(n, WokenWeight);
      run, end := [], Start(capacity, policy, n);
    } else {
      var before, mid := DriftTo(capacity, policy, n, j - 1);
      var more, last := DriftMore(mid, j - 1, n);
      Concat(Start(capacity, policy, n), before, mid, more, last);
      run, end := before + more, last;
    }
  }

  lemma PeakGrows(s: State, step: Step)
    requires Enabled(s, step)
    ensures s.peak <= Apply(s, step).peak
  {
  }

  /** A run never had more Pops in progress than its final peak. */
  lemma {:induction false} PeakCovers(s: State, run: seq<Step>, end: State, limit: nat)
    requires Inv(s) && Leads(s, run, end) && end.peak <= limit
    ensures s.peak <= limit && AtMostPops(s, run, limit)
    decreases run
  {
    if run != [] {
      StepInv(s, run[0]);
      PeakGrows(s, run[0]);
      PeakCovers(Apply(s, run[0]), run[1..], end, limit);
    }
  }

  /** `run` leads from the start to `end` with at most `limit` Pops in progress at any time. */
  ghost predicate Reaches(capacity: positive, policy: DropPolicy, n: nat, limit: nat, run: seq<Step>, end: State) {
    Leads(Start(capacity, policy, n), run, end) && AtMostPops(Start(capacity, policy, n), run, limit)
  }

  /** The bound of NoLostWakeup is attained, for every number of concurrent Pops. */
  lemma DriftAttained(capacity: positive, policy: DropPolicy, n: nat, limit: nat)
    requires 1 <= limit <= n
    ensures exists run, end :: Reaches(capacity, policy, n, limit, run, end) && end.holder == -1
                               && end.sem + Woken(end) == |end.core.queue| + limit - 1
  {
    var run, end := DriftTo(capacity, policy, n, limit - 1);
    StartInv(capacity, policy, n);
    PeakCovers(Start(capacity, policy, n), run, end, limit);
    assert Reaches(capacity, policy, n, limit, run, end);
  }

  lemma {:induction false} PoppingAtMost(threads: seq<PC>)
    ensures Sum(threads, PopWeight) <= |threads|
  {
    if threads != [] {
      PoppingAtMost(threads[1..]);
    }
  }

  lemma {:induction false} AtMostThreads(s: State, run: seq<Step>, end: State)
    requires Leads(s, run, end)
    ensures AtMostPops(s, run, |s.threads|)
    decreases run
  {
    PoppingAtMost(s.threads);
    if run != [] {
      AtMostThreads(Apply(s, run[0]), run[1..], end);
    }
  }

  lemma {:induction false} AtMostMore(s: State, run: seq<Step>, end: State, limit: nat, more: nat)
    requires Leads(s, run, end) && AtMostPops(s, run, limit) && limit <= more
    ensures AtMostPops(s, run, more)
    decreases run
  {
    if run != [] {
      AtMostMore(Apply(s, run[0]), run[1..], end, limit, more);
    }
  }

  /** With one caller at a time, or one thread, there is never a second Pop in progress. */
  lemma AtMostOne(capacity: positive, policy: DropPolicy, n: nat, limit: nat, run: seq<Step>, end: State)
    requires Reaches(capacity, policy, n, limit, run, end) && (limit <= 1 || n <= 1)
    ensures AtMostPops(Start(capacity, policy, n), run, 1)
  {
    var s := Start(capacity, policy, n);
    if limit <= 1 {
      AtMostMore(s, run, end, limit, 1);
    } else {
      AtMostThreads(s, run, end);
      AtMostMore(s, run, end, n, 1);
    }
  }

  /** The promise of the comment at line 140: tokens and events agree whenever the mutex is free. */
  ghost predicate Synchronized(capacity: positive, policy: DropPolicy, n: nat, limit: nat) {
    forall run, end :: Reaches(capacity, policy, n, limit, run, end) && end.holder == -1 ==>
      end.sem + Woken(end) == |end.core.queue|
  }

  /** It holds exactly when Pop calls never overlap. */
  lemma SynchronizedIff(capacity: positive, policy: DropPolicy, n: nat, limit: nat)
    ensures Synchronized(capacity, policy, n, limit) <==> limit <= 1 || n <= 1
  {
    if limit <= 1 || n <= 1 {
      forall run, end | Reaches(capacity, policy, n, limit, run, end) && end.holder == -1
        ensures end.sem + Woken(end) == |end.core.queue|
      {
        AtMostOne(capacity, policy, n, limit, run, end);
        NoLostWakeup(capacity, policy, n, run, end, 1);
      }
    } else {
      DriftAttained(capacity, policy, n, 2);
      var run, end :| Reaches(capacity, policy, n, 2, run, end) && end.holder == -1
                      && end.sem + Woken(end) == |end.core.queue| + 2 - 1;
      AtMostMore(Start(capacity, policy, n), run, end, 2, limit);
      assert Reaches(capacity, policy, n, limit, run, end);
    }
  }

  // --- What a cancelled Pop has taken -----------------------------------------------------------

  /** Inside Pop, with no event taken and no verdict reached. */
  predicate Waiting(pc: PC) {
    pc.PopLock? || pc.PopBody? || pc == Unlock(Wait) || pc.Select? || pc.TokenLock? || pc.TokenBody?
  }

  /** Beyond the point where Pop can go back to waiting. */
  predicate Leaving(pc: PC) {
    || pc.ClosedLock? || pc.ClosedBody? || pc.PopToken? || pc.Returned? || pc.Idle?
    || (pc.Unlock? && pc != Unlock(Wait))
  }

  /** Steps in which `t` receives a token from the channel. */
  function Takes(step: Step, t: nat): nat {
    if step == TakeToken(t) then 1 else 0
  }

  /** Steps in which `t` finds the queue empty after receiving a token. */
  function Wastes(s: State, step: Step, t: nat): nat
    requires Enabled(s, step)
  {
    if step == Proceed(t) && s.threads[t].TokenBody? && s.core.queue == [] then 1 else 0
  }

  function TakenBy(run: seq<Step>, t: nat): nat {
    if run == [] then 0 else Takes(run[0], t) + TakenBy(run[1..], t)
  }

  ghost function WastedBy(s: State, run: seq<Step>, end: State, t: nat): nat
    requires Leads(s, run, end)
    decreases run
  {
    if run == [] then 0 else Wastes(s, run[0], t) + WastedBy(Apply(s, run[0]), run[1..], end, t)
  }

  /** Some step of the run has `t` remove an event. */
  ghost predicate Removes(s: State, run: seq<Step>, end: State, t: nat)
    requires Leads(s, run, end)
    decreases run
  {
    && run != []
    && ((run[0].t == t && Apply(s, run[0]).delivered != s.delivered) || Removes(Apply(s, run[0]), run[1..], end, t))
  }

  lemma OthersStep(s: State, step: Step, t: nat)
    requires Enabled(s, step) && t < |s.threads| && step.t != t
    ensures Apply(s, step).threads[t] == s.threads[t]
  {
  }

  lemma WaitingStep(s: State, step: Step, t: nat)
    requires Enabled(s, step) && Internal(step) && step.t == t && Waiting(s.threads[t])
    ensures var pc' := Apply(s, step).threads[t];
            || Leaving(pc')
            || (&& Waiting(pc') && Apply(s, step).delivered == s.delivered
                && WokenWeight(pc') == WokenWeight(s.threads[t]) + Takes(step, t) - Wastes(s, step, t))
  {
  }

  lemma LeavingStep(s: State, step: Step, t: nat)
    requires Enabled(s, step) && Internal(step) && step.t == t && Leaving(s.threads[t])
    ensures Leaving(Apply(s, step).threads[t])
  {
  }

  /** Every step of `t` in the run belongs to one call. */
  predicate OneCall(run: seq<Step>, t: nat) {
    forall i :: 0 <= i < |run| && run[i].t == t ==> Internal(run[i])
  }

  lemma OneCallRest(run: seq<Step>, t: nat)
    requires OneCall(run, t) && run != []
    ensures OneCall(run[1..], t) && (run[0].t == t ==> Internal(run[0]))
  {
    assert forall i :: 0 <= i < |run| - 1 ==> run[1..][i] == run[i + 1];
  }

  lemma {:induction false} LeavingStays(s: State, run: seq<Step>, end: State, t: nat)
    requires Leads(s, run, end) && t < |s.threads| && OneCall(run, t) && Leaving(s.threads[t])
    ensures t < |end.threads| && Leaving(end.threads[t])
    decreases run
  {
    if run != [] {
      OneCallRest(run, t);
      if run[0].t == t {
        LeavingStep(s, run[0], t);
      } else {
        OthersStep(s, run[0], t);
      }
      LeavingStays(Apply(s, run[0]), run[1..], end, t);
    }
  }

  /**
   * A Pop that can still be cancelled has removed no event, and each token it received went to one
   * turn that found the queue empty: it took none exactly when it was never woken in vain.
   */
  lemma {:induction false} CancellablePopTookNothing(s: State, run: seq<Step>, end: State, t: nat)
    requires Leads(s, run, end) && t < |s.threads| && OneCall(run, t) && Waiting(s.threads[t])
    requires t < |end.threads| && Enabled(end, Cancel(t))
    ensures !Removes(s, run, end, t)
    ensures TakenBy(run, t) + WokenWeight(s.threads[t]) == WastedBy(s, run, end, t)
    decreases run
  {
    if run != [] {
      var s1 := Apply(s, run[0]);
      OneCallRest(run, t);
      if run[0].t == t {
        WaitingStep(s, run[0], t);
        if Leaving(s1.threads[t]) {
          LeavingStays(s1, run[1..], end, t);
        }
      } else {
        OthersStep(s, run[0], t);
      }
      CancellablePopTookNothing(s1, run[1..], end, t);
    }
  }

  /** With Pops one at a time, no waiter is ever woken in vain. */
  lemma {:induction false} NothingWasted(s: State, run: seq<Step>, end: State, t: nat)
    requires Inv(s) && s.peak <= 1 && Leads(s, run, end) && AtMostPops(s, run, 1)
    ensures WastedBy(s, run, end, t) == 0
    decreases run
  {
    if run != [] {
      StepInv(s, run[0]);
      PeakStep(s, run[0], 1);
      if Wastes(s, run[0], t) > 0 {
        SpuriousTurnLowersSlack(s, t);
      }
      NothingWasted(Apply(s, run[0]), run[1..], end, t);
    }
  }

  /** A Pop that begins at `s` and can be cancelled at `end`, in a run within the limit. */
  ghost predicate Cancellable(capacity: positive, policy: DropPolicy, n: nat, limit: nat,
                              before: seq<Step>, s: State, run: seq<Step>, end: State, t: nat) {
    && Reaches(capacity, policy, n, limit, before, s) && Leads(s, run, end) && AtMostPops(s, run, limit)
    && t < |s.threads| && s.threads[t].PopLock? && OneCall(run, t)
    && Enabled(end, Cancel(t))
  }

  /** The promise that a cancelled Pop consumes no token. */
  ghost predicate CancelIsFree(capacity: positive, policy: DropPolicy, n: nat, limit: nat) {
    forall before, s, run, end, t :: Cancellable(capacity, policy, n, limit, before, s, run, end, t) ==>
      TakenBy(run, t) == 0
  }

  lemma CancelIsFreeAlone(capacity: positive, policy: DropPolicy, n: nat, limit: nat,
                          before: seq<Step>, s: State, run: seq<Step>, end: State, t: nat)
    requires Cancellable(capacity, policy, n, limit, before, s, run, end, t) && (limit <= 1 || n <= 1)
    ensures TakenBy(run, t) == 0
  {
    var start := Start(capacity, policy, n);
    StartInv(capacity, policy, n);
    RunInv(start, before, s);
    ThreadCount(start, before, s);
    AtMostOne(capacity, policy, n, limit, before, s);
    PeakWithin(start, before, s, 1);
    if limit <= 1 {
      AtMostMore(s, run, end, limit, 1);
    } else {
      AtMostThreads(s, run, end);
      AtMostMore(s, run, end, |s.threads|, 1);
    }
    NothingWasted(s, run, end, t);
    CancellablePopTookNothing(s, run, end, t);
  }

  lemma {:induction false} TakenIn(run: seq<Step>, t: nat)
    requires TakeToken(t) in run
    ensures TakenBy(run, t) > 0
  {
    if run[0] != TakeToken(t) {
      TakenIn(run[1..], t);
    }
  }

  /** A Pop takes a token whose event another Pop has snatched, and may then be cancelled. */
  lemma TokenTakenInVain(s: State, n: nat) returns (run: seq<Step>, end: State)
    requires |s.threads| == n >= 2 && s.threads == Start(1, DropOldest, n).threads[0 := PopLock]
    requires s.holder == -1 && s.core.queue == [] && !s.core.closed && s.sem == 0 && s.peak == 1
    ensures Leads(s, run, end) && OneCall(run, 0) && TakeToken(0) in run
    ensures |end.threads| == n && end.threads[0] == Select && end.peak <= 2
  {
    hide Apply, Enabled, Leads;
    var wait, s1 := FirstWait(s, 0);
    var wake, s2 := WakeUp(s1, 0, 1, ZeroEvent);
    var snatch, s3 := Snatch(s2, 1);
    var turn, s4 := SpuriousTurn(s3, 0);
    var idle := Start(1, DropOldest, n).threads;
    SumIdle(n, PopWeight);
    SumUpdate(idle, 0, TokenLock, PopWeight);
    assert s2.threads == idle[0 := TokenLock];
    SumUpdate(s2.threads, 1, PopLock, PopWeight);
    Concat(s, wait, s1, wake, s2);
    Concat(s, wait + wake, s2, snatch, s3);
    Concat(s, wait + wake + snatch, s3, turn, s4);
    run, end := wait + wake + snatch + turn, s4;
  }

  lemma FirstPop(capacity: positive, policy: DropPolicy, n: nat)
    requires n >= 2
    ensures var (start, s) := (Start(capacity, policy, n), Apply(Start(capacity, policy, n), BeginPop(0)));
            && Leads(start, [BeginPop(0)], s) && s.threads == start.threads[0 := PopLock] && s.peak == 1
  {
    var start := Start(capacity, policy, n);
    SumIdle(n, PopWeight);
    SumUpdate(start.threads, 0, PopLock, PopWeight);
    assert [BeginPop(0)][1..] == [];
  }

  /** It holds, too, exactly when Pop calls never overlap. */
  lemma CancelIsFreeIff(capacity: positive, policy: DropPolicy, n: nat, limit: nat)
    ensures CancelIsFree(capacity, policy, n, limit) <==> limit <= 1 || n <= 1
  {
    if limit <= 1 || n <= 1 {
      forall before, s, run, end, t | Cancellable(capacity, policy, n, limit, before, s, run, end, t)
        ensures TakenBy(run, t) == 0
      {
        CancelIsFreeAlone(capacity, policy, n, limit, before, s, run, end, t);
      }
    } else {
      CancelCanCost(capacity, policy, n, limit);
    }
  }

  lemma CancelCanCost(capacity: positive, policy: DropPolicy, n: nat, limit: nat)
    requires limit >= 2 && n >= 2
    ensures !CancelIsFree(capacity, policy, n, limit)
  {
    var start, before := Start(capacity, policy, n), [BeginPop(0)];
    var s := Apply(start, BeginPop(0));
    FirstPop(capacity, policy, n);
    var run, end := TokenTakenInVain(s, n);
    StartInv(capacity, policy, n);
    RunInv(start, before, s);
    PeakCovers(start, before, s, limit);
    PeakCovers(s, run, end, limit);
    TakenIn(run, 0);
    assert Cancellable(capacity, policy, n, limit, before, s, run, end, 0);
  }
}
