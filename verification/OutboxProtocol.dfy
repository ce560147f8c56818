/**
 * Every interleaving of internal/outbox/queue.go. Each thread is a program counter; a step is one
 * shared action: taking the mutex, one critical section on the ring, one operation on the token
 * channel, closing `closedCh`, or releasing the mutex. Tokens may be taken by waiters while
 * another thread holds the mutex, which is why tokens and events can drift apart.
 */
module OutboxProtocol {
  import opened Outbox

  /** What a critical section decided before releasing the mutex. */
  datatype Exit = Done | Deliver(event: Event) | Refuse | Wait

  datatype PC =
    | Idle
    | PushLock(event: Event) | PushBody(event: Event) | PushToken
    | PopLock | PopBody                 // lines 132-133
    | PopToken(event: Event)            // event removed, opportunistic receive still to come
    | Select                            // blocked in the select of the slow path
    | ClosedLock | ClosedBody           // saw closedCh
    | TokenLock | TokenBody             // took a token
    | CloseLock | CloseBody | CloseChannel
    | Unlock(exit: Exit)
    | Returned(event: Event)            // Pop returned this event; the caller has not moved on yet

  datatype Fate = Delivered | Evicted

  type positive = n: nat | 0 < n witness 1

  datatype State = State(
    capacity: positive,
    policy: DropPolicy,
    core: Core,
    sem: nat,
    closedCh: bool,
    holder: int,            // thread holding the mutex, or -1
    threads: seq<PC>,
    // history, read by no step
    log: seq<Event>,        // accepted events, in order
    fates: seq<Fate>,       // what became of log[0], log[1], ...
    delivered: seq<Event>,  // in the order Pop removed them
    evicted: seq<Event>,
    attempts: nat,          // Push calls that found the queue open
    peak: nat,              // most Pop calls ever in progress at once
    misses: nat,            // opportunistic receives that found no token
    spurious: nat,          // tokens that woke a waiter to an empty queue
    fullSends: nat)         // token sends that found the channel full

  datatype Step =
    | BeginPush(t: nat, event: Event)
    | BeginPop(t: nat)
    | BeginClose(t: nat)
    | Cancel(t: nat)        // the select sees ctx.Done()
    | Finish(t: nat)        // the caller of a successful Pop moves on
    | SeeClosed(t: nat)     // the select sees closedCh
    | TakeToken(t: nat)     // the select receives a token
    | Proceed(t: nat)       // the only next action of a thread outside Idle, Select and Returned

  predicate NeedsMutex(pc: PC) {
    pc.PushLock? || pc.PopLock? || pc.ClosedLock? || pc.TokenLock? || pc.CloseLock?
  }

  predicate HoldsMutex(pc: PC) {
    || pc.PushBody? || pc.PushToken? || pc.PopBody? || pc.PopToken? || pc.ClosedBody?
    || pc.TokenBody? || pc.CloseBody? || pc.CloseChannel? || pc.Unlock?
  }

  /** The critical sections that look at the ring. */
  predicate ReadsRing(pc: PC) {
    pc.PushBody? || pc.PopBody? || pc.ClosedBody? || pc.TokenBody?
  }

  predicate Enabled(s: State, step: Step) {
    && step.t < |s.threads|
    && var pc := s.threads[step.t];
       match step
       case BeginPush(_, _) => pc.Idle?
       case BeginPop(_) => pc.Idle?
       case BeginClose(_) => pc.Idle?
       case Cancel(_) => pc.Select?
       case Finish(_) => pc.Returned?
       case SeeClosed(_) => pc.Select? && s.closedCh
       case TakeToken(_) => pc.Select? && s.sem > 0
       case Proceed(_) => (NeedsMutex(pc) && s.holder == -1) || HoldsMutex(pc)
  }

  function AfterLock(pc: PC): PC
    requires NeedsMutex(pc)
  {
    match pc
    case PushLock(e) => PushBody(e)
    case PopLock => PopBody
    case ClosedLock => ClosedBody
    case TokenLock => TokenBody
    case CloseLock => CloseBody
  }

  function At(s: State, t: nat, pc: PC): (s': State)
    requires t < |s.threads|
  {
    s.(threads := s.threads[t := pc])
  }

  function Dequeue(s: State): State
    requires s.core.queue != []
  {
    s.(core := Popped(s.core), delivered := s.delivered + [s.core.queue[0]], fates := s.fates + [Delivered])
  }

  function PushStep(s: State, t: nat, e: Event): (s': State)
    requires t < |s.threads|
    ensures |s'.threads| == |s.threads|
  {
    var core := Pushed(s.core, s.capacity, s.policy, e);
    match PushVerdict(s.core, s.capacity, s.policy)
    case QueueClosed => At(s, t, Unlock(Done))
    case QueueFull => At(s.(core := core, attempts := s.attempts + 1), t, Unlock(Done))
    case Accepted =>
      var s1 := s.(core := core, attempts := s.attempts + 1, log := s.log + [e]);
      if |s.core.queue| == s.capacity then
        At(s1.(evicted := s.evicted + [s.core.queue[0]], fates := s.fates + [Evicted]), t, Unlock(Done))
      else
        At(s1, t, PushToken)
  }

  /** The critical sections and token operations, for a thread that holds the mutex. */
  function HeldStep(s: State, t: nat): (s': State)
    requires t < |s.threads| && HoldsMutex(s.threads[t])
    ensures |s'.threads| == |s.threads|
  {
    match s.threads[t]
    case PushBody(e) => PushStep(s, t, e)
    case PushToken =>
      if s.sem < s.capacity then At(s.(sem := s.sem + 1), t, Unlock(Done))
      else At(s.(fullSends := s.fullSends + 1), t, Unlock(Done))
    case PopBody =>
      if s.core.queue != [] then At(Dequeue(s), t, PopToken(s.core.queue[0]))
      else if s.core.closed then At(s, t, Unlock(Refuse))
      else At(s, t, Unlock(Wait))
    case PopToken(e) =>
      if s.sem > 0 then At(s.(sem := s.sem - 1), t, Unlock(Deliver(e)))
      else At(s.(misses := s.misses + 1), t, Unlock(Deliver(e)))
    case ClosedBody =>
      if s.core.queue != [] then At(Dequeue(s), t, PopToken(s.core.queue[0]))
      else At(s, t, Unlock(Refuse))
    case TokenBody =>
      if s.core.queue != [] then At(Dequeue(s), t, Unlock(Deliver(s.core.queue[0])))
      else
        At(s.(spurious := s.spurious + 1), t, Unlock(if s.core.closed then Refuse else Wait))
    case CloseBody =>
      if s.core.closed then At(s, t, Unlock(Done))
      else At(s.(core := s.core.(closed := true)), t, CloseChannel)
    case CloseChannel => At(s.(closedCh := true), t, Unlock(Done))
    case Unlock(exit) =>
      At(s.(holder := -1), t,
         match exit case Deliver(e) => Returned(e) case Wait => Select case _ => Idle)
  }

  function Apply(s: State, step: Step): (s': State)
    requires Enabled(s, step)
    ensures |s'.threads| == |s.threads|
  {
    var t := step.t;
    match step
    case BeginPush(_, e) => At(s, t, PushLock(e))
    case BeginPop(_) =>
      var s1 := At(s, t, PopLock);
      s1.(peak := if Popping(s1) > s.peak then Popping(s1) else s.peak)
    case BeginClose(_) => At(s, t, CloseLock)
    case Cancel(_) => At(s, t, Idle)
    case Finish(_) => At(s, t, Idle)
    case SeeClosed(_) => At(s, t, ClosedLock)
    case TakeToken(_) => At(s.(sem := s.sem - 1), t, TokenLock)
    case Proceed(_) =>
      if NeedsMutex(s.threads[t]) then At(s.(holder := t), t, AfterLock(s.threads[t]))
      else HeldStep(s, t)
  }

  // --- Sums over threads ------------------------------------------------------------------------

  function Sum(threads: seq<PC>, weight: PC -> int): int {
    if threads == [] then 0 else weight(threads[0]) + Sum(threads[1..], weight)
  }

  lemma {:induction false} SumUpdate(threads: seq<PC>, t: nat, pc: PC, weight: PC -> int)
    requires t < |threads|
    ensures Sum(threads[t := pc], weight) == Sum(threads, weight) - weight(threads[t]) + weight(pc)
  {
    if t == 0 {
      assert threads[0 := pc][1..] == threads[1..];
    } else {
      assert threads[t := pc][1..] == threads[1..][t - 1 := pc];
      SumUpdate(threads[1..], t - 1, pc, weight);
    }
  }

  lemma {:induction false} SumBelow(threads: seq<PC>, low: PC -> int, high: PC -> int)
    requires forall i :: 0 <= i < |threads| ==> low(threads[i]) <= high(threads[i])
    ensures Sum(threads, low) <= Sum(threads, high)
    // ... strictly, as soon as one thread is strict
    ensures forall i :: 0 <= i < |threads| && low(threads[i]) < high(threads[i]) ==>
              Sum(threads, low) < Sum(threads, high)
  {
    if threads != [] {
      var rest := threads[1..];
      assert forall i :: 0 <= i < |rest| ==> rest[i] == threads[i + 1];
      SumBelow(rest, low, high);
      forall i | 0 <= i < |threads| && low(threads[i]) < high(threads[i])
        ensures Sum(threads, low) < Sum(threads, high)
      {
        if i > 0 {
          assert rest[i - 1] == threads[i];
        }
      }
    }
  }

  /** A waiter that holds a token it has not yet spent on the queue. */
  function WokenWeight(pc: PC): int {
    if pc.TokenLock? || pc.TokenBody? then 1 else 0
  }

  /** Tokens owed to the channel, or owed by it, by threads in the middle of a critical section. */
  function BalanceWeight(pc: PC): int {
    if pc.PushToken? then 1 else if pc.PopToken? then -1 else WokenWeight(pc)
  }

  function PopWeight(pc: PC): int {
    if pc.PopLock? || pc.PopBody? || pc.PopToken? || pc.Select? || pc.ClosedLock? || pc.ClosedBody?
       || pc.TokenLock? || pc.TokenBody? || (pc.Unlock? && !pc.exit.Done?)
    then 1 else 0
  }

  function Woken(s: State): int { Sum(s.threads, WokenWeight) }

  /** Pop calls in progress. */
  function Popping(s: State): int { Sum(s.threads, PopWeight) }

  /** Wake-ups in excess of queued events, counting the token operations still owed. */
  function Slack(s: State): int {
    s.sem + Sum(s.threads, BalanceWeight) - |s.core.queue|
  }

  // --- The invariant ----------------------------------------------------------------------------

  /** What holds of thread `t` whatever the others do. */
  predicate ThreadOk(t: int, pc: PC, holder: int, closed: bool, closedCh: bool) {
    && (HoldsMutex(pc) <==> holder == t)
    && (pc.CloseChannel? ==> closed)
    && (pc.ClosedLock? || pc.ClosedBody? ==> closedCh)
  }

  ghost predicate Shape(s: State) {
    && |s.core.queue| <= s.capacity && s.sem <= s.capacity
    && -1 <= s.holder < |s.threads|
    && (forall t :: 0 <= t < |s.threads| ==> ThreadOk(t, s.threads[t], s.holder, s.core.closed, s.closedCh))
    && (s.closedCh ==> s.core.closed)
    && (s.core.closed ==> s.closedCh || (s.holder >= 0 && s.threads[s.holder].CloseChannel?))
  }

  ghost predicate Tokens(s: State) {
    && 0 <= Slack(s) <= (if s.peak == 0 then 0 else s.peak - 1)
    && Popping(s) <= s.peak
    && s.misses == Slack(s) + s.spurious + s.fullSends
  }

  /** The events of `log` whose fate is `fate`, in log order. */
  function Pick(log: seq<Event>, fates: seq<Fate>, fate: Fate): (picked: seq<Event>)
    requires |fates| <= |log|
  {
    if fates == [] then []
    else
      var n := |fates| - 1;
      Pick(log, fates[..n], fate) + (if fates[n] == fate then [log[n]] else [])
  }

  ghost predicate History(s: State) {
    && |s.fates| + |s.core.queue| == |s.log|
    && s.core.queue == s.log[|s.fates|..]
    && s.delivered == Pick(s.log, s.fates, Delivered)
    && s.evicted == Pick(s.log, s.fates, Evicted)
    && s.core.enqueued == |s.log| && s.core.dequeued == |s.delivered|
    && |s.fates| == |s.delivered| + |s.evicted|
    && (s.policy == DropOldest ==> s.core.dropped == |s.evicted| && s.attempts == s.core.enqueued)
    && (s.policy == DropNewest ==> s.evicted == [] && s.attempts == s.core.enqueued + s.core.dropped)
  }

  ghost predicate Inv(s: State) {
    Shape(s) && Tokens(s) && History(s)
  }

  lemma ShapeHeld(s: State, t: nat)
    requires Shape(s) && t < |s.threads| && HoldsMutex(s.threads[t])
    ensures Shape(HeldStep(s, t))
  {
    var s' := HeldStep(s, t);
    assert ThreadOk(t, s.threads[t], s.holder, s.core.closed, s.closedCh);
    assert ThreadOk(t, s'.threads[t], s'.holder, s'.core.closed, s'.closedCh);
    forall u | 0 <= u < |s.threads| && u != t
      ensures ThreadOk(u, s'.threads[u], s'.holder, s'.core.closed, s'.closedCh)
    {
      assert ThreadOk(u, s.threads[u], s.holder, s.core.closed, s.closedCh);
      assert s'.threads[u] == s.threads[u];
    }
  }

  lemma ShapeStep(s: State, step: Step)
    requires Shape(s) && Enabled(s, step)
    ensures Shape(Apply(s, step))
  {
    var t := step.t;
    if step.Proceed? && HoldsMutex(s.threads[t]) {
      ShapeHeld(s, t);
    } else {
      var s' := Apply(s, step);
      assert ThreadOk(t, s.threads[t], s.holder, s.core.closed, s.closedCh);
      forall u | 0 <= u < |s.threads|
        ensures ThreadOk(u, s'.threads[u], s'.holder, s'.core.closed, s'.closedCh)
      {
        assert ThreadOk(u, s.threads[u], s.holder, s.core.closed, s.closedCh);
      }
    }
  }

  /** Replacing one thread moves each sum by the difference of that thread's weights. */
  lemma SumsUpdate(threads: seq<PC>, t: nat, pc: PC)
    requires t < |threads|
    ensures Sum(threads[t := pc], BalanceWeight)
            == Sum(threads, BalanceWeight) - BalanceWeight(threads[t]) + BalanceWeight(pc)
    ensures Sum(threads[t := pc], PopWeight)
            == Sum(threads, PopWeight) - PopWeight(threads[t]) + PopWeight(pc)
  {
    SumUpdate(threads, t, pc, BalanceWeight);
    SumUpdate(threads, t, pc, PopWeight);
  }

  /** While `t` holds the mutex to settle its token, woken waiters are fewer than Pop calls. */
  lemma WokenFewerThanPopping(s: State, t: nat)
    requires Shape(s) && t < |s.threads| && s.threads[t].PopToken?
    ensures Sum(s.threads, BalanceWeight) + 2 <= Popping(s)
  {
    // pass from t's weight -1 to 0, so that every thread is at or below its Pop weight
    var others := s.threads[t := Select];
    assert forall i :: 0 <= i < |others| && i != t ==> ThreadOk(i, others[i], s.holder, s.core.closed, s.closedCh);
    assert BalanceWeight(others[t]) < PopWeight(others[t]);
    SumBelow(others, BalanceWeight, PopWeight);
    SumsUpdate(s.threads, t, Select);
  }

  /**
   * A thread that carries a token counts itself: so a full channel covers every queued event, and
   * a token spent on an empty queue was surplus.
   */
  lemma CarrierCounted(s: State, t: nat)
    requires Shape(s) && t < |s.threads| && (s.threads[t].PushToken? || s.threads[t].TokenBody?)
    ensures Sum(s.threads, BalanceWeight) >= 1
  {
    var others := s.threads[t := Idle];
    assert forall i :: 0 <= i < |others| && i != t ==> ThreadOk(i, others[i], s.holder, s.core.closed, s.closedCh);
    SumBelow(others, (pc: PC) => 0, BalanceWeight);
    SumZero(others);
    SumUpdate(s.threads, t, Idle, BalanceWeight);
  }

  lemma {:induction false} SumZero(threads: seq<PC>)
    ensures Sum(threads, (pc: PC) => 0) == 0
  {
    if threads != [] {
      SumZero(threads[1..]);
    }
  }

  /** The effect of one step on the slack and on the number of Pop calls in progress. */
  lemma Moved(s: State, s': State, t: nat)
    requires t < |s.threads| == |s'.threads| && s'.threads == s.threads[t := s'.threads[t]]
    ensures Slack(s') - Slack(s) == s'.sem - s.sem - (|s'.core.queue| - |s.core.queue|)
                                    + BalanceWeight(s'.threads[t]) - BalanceWeight(s.threads[t])
    ensures Popping(s') - Popping(s) == PopWeight(s'.threads[t]) - PopWeight(s.threads[t])
  {
    SumsUpdate(s.threads, t, s'.threads[t]);
  }

  lemma TokensPush(s: State, t: nat)
    requires Shape(s) && Tokens(s) && t < |s.threads| && s.threads[t].PushBody?
    ensures Tokens(HeldStep(s, t))
  {
    Moved(s, HeldStep(s, t), t);
  }

  lemma TokensPop(s: State, t: nat)
    requires Shape(s) && Tokens(s) && t < |s.threads|
    requires s.threads[t].PopBody? || s.threads[t].ClosedBody? || s.threads[t].TokenBody?
    ensures Tokens(HeldStep(s, t))
  {
    Moved(s, HeldStep(s, t), t);
    if s.threads[t].TokenBody? {
      CarrierCounted(s, t);
    }
  }

  lemma TokensRing(s: State, t: nat)
    requires Shape(s) && Tokens(s) && t < |s.threads|
    requires ReadsRing(s.threads[t])
    ensures Tokens(HeldStep(s, t))
  {
    if s.threads[t].PushBody? {
      TokensPush(s, t);
    } else {
      TokensPop(s, t);
    }
  }

  lemma TokensSend(s: State, t: nat)
    requires Shape(s) && Tokens(s) && t < |s.threads| && s.threads[t].PushToken?
    ensures Tokens(HeldStep(s, t))
  {
    Moved(s, HeldStep(s, t), t);
    CarrierCounted(s, t);
  }

  lemma TokensReceive(s: State, t: nat)
    requires Shape(s) && Tokens(s) && t < |s.threads| && s.threads[t].PopToken?
    ensures Tokens(HeldStep(s, t))
  {
    Moved(s, HeldStep(s, t), t);
    WokenFewerThanPopping(s, t);
  }

  lemma TokensHeld(s: State, t: nat)
    requires Shape(s) && Tokens(s) && t < |s.threads| && HoldsMutex(s.threads[t])
    ensures Tokens(HeldStep(s, t))
  {
    if ReadsRing(s.threads[t]) {
      TokensRing(s, t);
    } else if s.threads[t].PushToken? {
      TokensSend(s, t);
    } else if s.threads[t].PopToken? {
      TokensReceive(s, t);
    } else {
      Moved(s, HeldStep(s, t), t);
    }
  }

  lemma TokensUnheld(s: State, step: Step)
    requires Shape(s) && Tokens(s) && Enabled(s, step) && !HoldsMutex(s.threads[step.t])
    ensures Tokens(Apply(s, step))
  {
    Moved(s, Apply(s, step), step.t);
  }

  lemma TokensStep(s: State, step: Step)
    requires Shape(s) && Tokens(s) && Enabled(s, step)
    ensures Tokens(Apply(s, step))
  {
    if step.Proceed? && HoldsMutex(s.threads[step.t]) {
      TokensHeld(s, step.t);
    } else {
      TokensUnheld(s, step);
    }
  }

  // --- History ----------------------------------------------------------------------------------

  /** Picking looks only at the part of the log that has a fate. */
  lemma {:induction false} PickIgnoresTail(log: seq<Event>, more: seq<Event>, fates: seq<Fate>, fate: Fate)
    requires |fates| <= |log|
    ensures Pick(log + more, fates, fate) == Pick(log, fates, fate)
  {
    if fates != [] {
      PickIgnoresTail(log, more, fates[..|fates| - 1], fate);
    }
  }

  lemma PickNext(log: seq<Event>, fates: seq<Fate>, next: Fate, fate: Fate)
    requires |fates| < |log|
    ensures Pick(log, fates + [next], fate) == Pick(log, fates, fate) + (if next == fate then [log[|fates|]] else [])
  {
    assert (fates + [next])[..|fates|] == fates;
  }

  lemma HistoryDequeue(s: State)
    requires History(s) && s.core.queue != []
    ensures History(Dequeue(s))
  {
    PickNext(s.log, s.fates, Delivered, Delivered);
    PickNext(s.log, s.fates, Delivered, Evicted);
  }

  lemma HistoryAppend(s: State, t: nat, e: Event)
    requires Shape(s) && History(s) && t < |s.threads|
    requires PushVerdict(s.core, s.capacity, s.policy) == Accepted && |s.core.queue| < s.capacity
    ensures History(PushStep(s, t, e))
  {
    PickIgnoresTail(s.log, [e], s.fates, Delivered);
    PickIgnoresTail(s.log, [e], s.fates, Evicted);
  }

  lemma HistoryEvict(s: State, t: nat, e: Event)
    requires Shape(s) && History(s) && t < |s.threads|
    requires PushVerdict(s.core, s.capacity, s.policy) == Accepted && |s.core.queue| == s.capacity
    ensures History(PushStep(s, t, e))
  {
    var log := s.log + [e];
    PickIgnoresTail(s.log, [e], s.fates, Delivered);
    PickIgnoresTail(s.log, [e], s.fates, Evicted);
    PickNext(log, s.fates, Evicted, Delivered);
    PickNext(log, s.fates, Evicted, Evicted);
    assert s.core.queue[1..] + [e] == log[|s.fates| + 1..];
  }

  lemma HistoryFrame(s: State, s': State)
    requires History(s)
    requires s'.core.(closed := s.core.closed) == s.core && s'.log == s.log && s'.fates == s.fates
    requires s'.delivered == s.delivered && s'.evicted == s.evicted
    requires s'.policy == s.policy && s'.attempts == s.attempts
    ensures History(s')
  {
  }

  lemma HistoryRing(s: State, t: nat)
    requires Shape(s) && History(s) && t < |s.threads| && ReadsRing(s.threads[t])
    ensures History(HeldStep(s, t))
  {
    if s.threads[t].PushBody? {
      if PushVerdict(s.core, s.capacity, s.policy) == Accepted {
        if |s.core.queue| == s.capacity {
          HistoryEvict(s, t, s.threads[t].event);
        } else {
          HistoryAppend(s, t, s.threads[t].event);
        }
      }
    } else if s.core.queue != [] {
      HistoryDequeue(s);
      HistoryFrame(Dequeue(s), HeldStep(s, t));
    } else {
      HistoryFrame(s, HeldStep(s, t));
    }
  }

  lemma HistoryHeld(s: State, t: nat)
    requires History(s) && t < |s.threads| && HoldsMutex(s.threads[t]) && !ReadsRing(s.threads[t])
    ensures History(HeldStep(s, t))
  {
    HistoryFrame(s, HeldStep(s, t));
  }

  lemma HistoryStep(s: State, step: Step)
    requires Shape(s) && History(s) && Enabled(s, step)
    ensures History(Apply(s, step))
  {
    if step.Proceed? && ReadsRing(s.threads[step.t]) {
      HistoryRing(s, step.t);
    } else if step.Proceed? && HoldsMutex(s.threads[step.t]) {
      HistoryHeld(s, step.t);
    } else {
      HistoryFrame(s, Apply(s, step));
    }
  }

  // --- Runs -------------------------------------------------------------------------------------

  function Start(capacity: positive, policy: DropPolicy, n: nat): State {
    State(capacity, policy, EmptyCore, 0, false, -1, seq(n, _ => Idle), [], [], [], [], 0, 0, 0, 0, 0)
  }

  lemma {:induction false} SumIdle(n: nat, weight: PC -> int)
    requires weight(Idle) == 0
    ensures Sum(seq(n, _ => Idle), weight) == 0
  {
    if n > 0 {
      assert seq(n, _ => Idle)[1..] == seq(n - 1, _ => Idle);
      SumIdle(n - 1, weight);
    }
  }

  lemma StartInv(capacity: positive, policy: DropPolicy, n: nat)
    ensures Inv(Start(capacity, policy, n))
  {
    SumIdle(n, BalanceWeight);
    SumIdle(n, PopWeight);
  }

  lemma StepInv(s: State, step: Step)
    requires Inv(s) && Enabled(s, step)
    ensures Inv(Apply(s, step))
  {
    ShapeStep(s, step);
    TokensStep(s, step);
    HistoryStep(s, step);
  }

  /** `run` is a possible interleaving from `s`, and `end` is where it leads. */
  ghost predicate Leads(s: State, run: seq<Step>, end: State)
    decreases run
  {
    if run == [] then s == end
    else
      && Enabled(s, run[0])
      && Leads(Apply(s, run[0]), run[1..], end)
  }

  lemma {:induction false} RunInv(s: State, run: seq<Step>, end: State)
    requires Inv(s) && Leads(s, run, end)
    ensures Inv(end)
    decreases run
  {
    if run != [] {
      StepInv(s, run[0]);
      RunInv(Apply(s, run[0]), run[1..], end);
    }
  }
}
