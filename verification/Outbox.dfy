/**
 * The bounded outbox of internal/outbox/queue.go: a ring of events guarded by a mutex, plus a
 * counting channel of wake-up tokens.
 *
 * `Core` is the ring seen as a sequence, and `Pushed`/`Popped` say what one critical section does
 * to it. The class `Outbox` keeps the source's ring fields and is proved to refine them; module
 * OutboxProtocol interleaves the same critical sections.
 */
module Outbox {
  import opened Arithmetic

  datatype Event = Event(id: string, kind: string, timestamp: int, data: seq<int>)

  /** Go's zero value `Event{}`, written into vacated slots. */
  const ZeroEvent := Event("", "", 0, [])

  datatype DropPolicy = DropNewest | DropOldest

  datatype PushResult = Accepted | QueueFull | QueueClosed

  datatype PopResult = Got(event: Event) | Closed | Empty

  const DEFAULT_CAPACITY := 100

  /** The lock-protected part of an outbox, with the ring flattened oldest first. */
  datatype Core = Core(queue: seq<Event>, closed: bool, enqueued: nat, dequeued: nat, dropped: nat)

  const EmptyCore := Core([], false, 0, 0, 0)

  function PushVerdict(c: Core, capacity: nat, policy: DropPolicy): PushResult {
    if c.closed then QueueClosed
    else if |c.queue| == capacity && policy == DropNewest then QueueFull
    else Accepted
  }

  /** The queue after `Push(e)`: at capacity the oldest event makes room under DropOldest. */
  function Pushed(c: Core, capacity: nat, policy: DropPolicy, e: Event): (c': Core)
    requires 0 < capacity
    ensures |c.queue| <= capacity ==> |c'.queue| <= capacity
  {
    match PushVerdict(c, capacity, policy)
    case QueueClosed => c
    case QueueFull => c.(dropped := c.dropped + 1)
    case Accepted =>
      if |c.queue| == capacity then
        c.(queue := c.queue[1..] + [e], enqueued := c.enqueued + 1, dropped := c.dropped + 1)
      else
        c.(queue := c.queue + [e], enqueued := c.enqueued + 1)
  }

  function Popped(c: Core): Core
    requires c.queue != []
  {
    c.(queue := c.queue[1..], dequeued := c.dequeued + 1)
  }

  /** Position `k` places after `head` in a ring of `capacity` slots. */
  function Slot(head: nat, k: nat, capacity: nat): (i: nat)
    requires head < capacity && k <= capacity
    ensures i < capacity
  {
    if head + k < capacity then head + k else head + k - capacity
  }

  /** The source writes `% capacity`; one wrap is all a ring index ever needs. */
  lemma SlotIsModular(head: nat, k: nat, capacity: nat)
    requires head < capacity && k <= capacity
    ensures (head + k) % capacity == Slot(head, k, capacity)
  {
    if head + k < capacity {
      Remainder(head + k, capacity, 0, head + k);
    } else {
      Remainder(head + k, capacity, 1, head + k - capacity);
    }
  }

  class Outbox {
    const items: array<Event>
    const capacity: nat
    const policy: DropPolicy
    var head: nat
    var tail: nat
    var count: nat
    var closed: bool
    var sem: nat // tokens in the wake-up channel, whose buffer holds `capacity`
    var enqueued: nat
    var dequeued: nat
    var dropped: nat

    /** The ring is well formed and every slot outside the live window holds the zero event. */
    ghost predicate Valid()
      reads this, items
    {
      && items.Length == capacity && 0 < capacity
      && head < capacity && count <= capacity && sem <= capacity
      && tail == Slot(head, count, capacity)
      && forall k :: count <= k < capacity ==> items[Slot(head, k, capacity)] == ZeroEvent
    }

    ghost function State(): (c: Core)
      requires Valid()
      reads this, items
      ensures |c.queue| == count
    {
      Core(seq(count, k requires 0 <= k < count reads this, items
                        requires Valid() => items[Slot(head, k, capacity)]),
           closed, enqueued, dequeued, dropped)
    }

    constructor (requested: int, policy: DropPolicy)
      ensures Valid() && fresh(items)
      ensures capacity == if requested <= 0 then DEFAULT_CAPACITY else requested
      ensures this.policy == policy && sem == 0
      ensures State() == EmptyCore
    {
      var size := if requested <= 0 then DEFAULT_CAPACITY else requested;
      items := new Event[size](_ => ZeroEvent);
      capacity := size;
      this.policy := policy;
      head, tail, count, closed, sem := 0, 0, 0, false, 0;
      enqueued, dequeued, dropped := 0, 0, 0;
    }

    /** Clears the head slot and steps past it: the block shared by eviction and every Pop path. */
    method RemoveHead() returns (evt: Event)
      requires Valid() && count > 0
      modifies this`head, this`count, items
      ensures Valid()
      ensures State() == old(State()).(queue := old(State()).queue[1..])
      ensures evt == old(State()).queue[0]
    {
      ghost var before := State().queue;
      SlotIsModular(head, 1, capacity);
      evt := items[head];
      assert evt == before[0];
      items[head] := ZeroEvent;
      head := (head + 1) % capacity;
      count := count - 1;
      assert forall k :: 0 <= k < capacity - 1 ==> Slot(head, k, capacity) == Slot(old(head), k + 1, capacity);
      assert Slot(head, capacity - 1, capacity) == old(head);
      assert State().queue == before[1..];
    }

    /** Writes the tail slot: the block that ends every accepted Push. */
    method Append(evt: Event)
      requires Valid() && count < capacity
      modifies this`tail, this`count, items
      ensures Valid()
      ensures State() == old(State()).(queue := old(State()).queue + [evt])
    {
      ghost var before := State().queue;
      SlotIsModular(tail, 1, capacity);
      items[tail] := evt;
      tail := (tail + 1) % capacity;
      count := count + 1;
      assert State().queue == before + [evt];
    }

    /** Push, run without interference on the token channel. */
    method Push(evt: Event) returns (result: PushResult)
      requires Valid()
      modifies this, items
      ensures Valid()
      ensures result == PushVerdict(old(State()), capacity, policy)
      ensures State() == Pushed(old(State()), capacity, policy, evt)
      // a token is offered exactly when the queue grew, and lost when the channel is full
      ensures sem == if count > old(count) && old(sem) < capacity then old(sem) + 1 else old(sem)
    {
      if closed {
        return QueueClosed;
      }
      var needsToken := count < capacity;
      if count == capacity {
        dropped := dropped + 1;
        if policy == DropNewest {
          return QueueFull;
        }
        var evicted := RemoveHead();
      }
      Append(evt);
      ghost var appended := State().queue;
      enqueued := enqueued + 1;
      assert State().queue == appended;
      if needsToken {
        if sem < capacity {
          sem := sem + 1;
        }
      }
      return Accepted;
    }

    /**
     * The three places where Pop holds the mutex: on entry, after seeing the closed channel, and
     * after taking a wake-up token. Only the last one leaves the token channel alone, because its
     * token is already spent. `Empty` stands for unlocking and going (back) to the select.
     */
    method PopOnEntry() returns (result: PopResult)
      requires Valid()
      modifies this, items
      ensures Valid()
      ensures old(State()).queue != [] ==>
                && result == Got(old(State()).queue[0]) && State() == Popped(old(State()))
                && sem == if old(sem) > 0 then old(sem) - 1 else 0
      ensures old(State()).queue == [] ==>
                && result == (if closed then Closed else Empty)
                && State() == old(State()) && sem == old(sem)
    {
      if count > 0 {
        var evt := RemoveHead();
        dequeued := dequeued + 1;
        if sem > 0 {
          sem := sem - 1;
        }
        return Got(evt);
      }
      if closed {
        return Closed;
      }
      return Empty;
    }

    method PopAfterClosed() returns (result: PopResult)
      requires Valid() && closed
      modifies this, items
      ensures Valid()
      ensures old(State()).queue != [] ==>
                && result == Got(old(State()).queue[0]) && State() == Popped(old(State()))
                && sem == if old(sem) > 0 then old(sem) - 1 else 0
      ensures old(State()).queue == [] ==>
                result == Closed && State() == old(State()) && sem == old(sem)
    {
      if count > 0 {
        var evt := RemoveHead();
        dequeued := dequeued + 1;
        if sem > 0 {
          sem := sem - 1;
        }
        return Got(evt);
      }
      return Closed;
    }

    method PopAfterToken() returns (result: PopResult)
      requires Valid()
      modifies this, items
      ensures Valid() && sem == old(sem)
      ensures old(State()).queue != [] ==>
                result == Got(old(State()).queue[0]) && State() == Popped(old(State()))
      ensures old(State()).queue == [] ==>
                result == (if closed then Closed else Empty) && State() == old(State())
    {
      if count > 0 {
        var evt := RemoveHead();
        dequeued := dequeued + 1;
        return Got(evt);
      }
      if closed {
        return Closed;
      }
      return Empty;
    }

    method Close()
      requires Valid()
      modifies this`closed
      ensures Valid() && State() == old(State()).(closed := true)
    {
      if !closed {
        closed := true;
      }
    }
  }
}
