/**
 * The dispatcher's three workers running on the outbox protocol: threads 0, 1 and 2 alternate
 * between Pop and the retry loop, all other threads push or close. Every interleaving of the two
 * machines is a run.
 */
module DispatcherSystem {
  import opened Outbox
  import P = OutboxProtocol
  import T = OutboxTheorems

  const WORKERS := 3

  datatype Worker =
    | Fetching                              // about to call, or inside, Pop
    | Posting(event: Event, attempt: nat)
    | Sleeping(event: Event, attempt: nat)  // before the post of `attempt`
    | Gone                                  // Pop returned an error

  /** An event the dispatcher is done with, and how often it was posted. */
  datatype Delivery = Delivery(event: Event, posts: nat)

  datatype Sys = Sys(
    box: P.State,
    workers: seq<Worker>,
    cancelled: bool,
    maxRetries: nat,
    dispatched: seq<Delivery>,
    failed: seq<Delivery>,
    abandoned: seq<Delivery>,    // interrupted by shutdown: counted by no metric
    posts: nat)

  datatype Move =
    | Queue(step: P.Step)              // a step of the outbox itself
    | Receive(w: nat)                  // Pop returned an event to worker w
    | Post(w: nat, ok: bool)
    | Wake(w: nat)                     // the backoff timer fires
    | Interrupt(w: nat)                // ctx is done during the backoff
    | Leave(w: nat)                    // Pop finds ctx done on entry
    | Shutdown

  /** The steps of the outbox that each kind of thread takes. */
  predicate QueueStepAllowed(s: Sys, step: P.Step) {
    if step.t < WORKERS then
      match step
      case BeginPush(_, _) => false
      case BeginClose(_) => false
      case Finish(_) => false
      case BeginPop(t) => t < |s.workers| && s.workers[t].Fetching?
      case Cancel(_) => s.cancelled
      case _ => true
    else !step.BeginPop?
  }

  predicate Enabled(s: Sys, m: Move) {
    |s.workers| == WORKERS && |s.box.threads| >= WORKERS &&
    match m
    case Queue(step) => P.Enabled(s.box, step) && QueueStepAllowed(s, step)
    case Receive(w) => w < WORKERS && s.workers[w].Fetching? && s.box.threads[w].Returned?
    case Post(w, _) => w < WORKERS && s.workers[w].Posting?
    case Wake(w) => w < WORKERS && s.workers[w].Sleeping?
    case Interrupt(w) => w < WORKERS && s.workers[w].Sleeping? && s.cancelled
    case Leave(w) => w < WORKERS && s.workers[w].Fetching? && s.box.threads[w].Idle? && s.cancelled
    case Shutdown => true
  }

  /** Whether this outbox step makes a worker's Pop return an error. */
  predicate PopFails(box: P.State, step: P.Step) {
    step.t < |box.threads| && (step.Cancel? || (step.Proceed? && box.threads[step.t] == P.Unlock(P.Refuse)))
  }

  /** One request answered: done, or another attempt after a pause, or given up. */
  function Posted(s: Sys, w: nat, ok: bool): Sys
    requires w < |s.workers| && s.workers[w].Posting?
  {
    var (e, a) := (s.workers[w].event, s.workers[w].attempt);
    var s1 := s.(posts := s.posts + 1);
    if ok then s1.(workers := s.workers[w := Fetching], dispatched := s.dispatched + [Delivery(e, a + 1)])
    else if a < s.maxRetries then
      s1.(workers := s.workers[w := Sleeping(e, a + 1)])
    else if s.cancelled then
      s1.(workers := s.workers[w := Fetching], abandoned := s.abandoned + [Delivery(e, a + 1)])
    else
      s1.(workers := s.workers[w := Fetching], failed := s.failed + [Delivery(e, a + 1)])
  }

  function Apply(s: Sys, m: Move): Sys
    requires Enabled(s, m)
  {
    match m
    case Queue(step) =>
      var s1 := s.(box := P.Apply(s.box, step));
      if step.t < WORKERS && PopFails(s.box, step) then s1.(workers := s.workers[step.t := Gone]) else s1
    case Receive(w) =>
      s.(box := P.Apply(s.box, P.Finish(w)), workers := s.workers[w := Posting(s.box.threads[w].event, 0)])
    case Post(w, ok) => Posted(s, w, ok)
    case Wake(w) => s.(workers := s.workers[w := Posting(s.workers[w].event, s.workers[w].attempt)])
    case Interrupt(w) =>
      s.(workers := s.workers[w := Fetching],
         abandoned := s.abandoned + [Delivery(s.workers[w].event, s.workers[w].attempt)])
    case Leave(w) => s.(workers := s.workers[w := Gone])
    case Shutdown => s.(cancelled := true)
  }

  // --- Where an event can be --------------------------------------------------------------------

  /** How many of `events` are of interest. */
  function Count(events: seq<Event>, sel: Event -> bool): nat {
    if events == [] then 0
    else Count(events[..|events| - 1], sel) + One(events[|events| - 1], sel)
  }

  function One(e: Event, sel: Event -> bool): nat {
    if sel(e) then 1 else 0
  }

  lemma CountNext(events: seq<Event>, e: Event, sel: Event -> bool)
    ensures Count(events + [e], sel) == Count(events, sel) + One(e, sel)
  {
    assert (events + [e])[..|events|] == events;
  }

  /** The same over deliveries, and the posts they took. */
  function CountIn(done: seq<Delivery>, sel: Event -> bool): nat {
    if done == [] then 0
    else CountIn(done[..|done| - 1], sel) + One(done[|done| - 1].event, sel)
  }

  function PostsIn(done: seq<Delivery>): nat {
    if done == [] then 0 else PostsIn(done[..|done| - 1]) + done[|done| - 1].posts
  }

  lemma DeliveryNext(done: seq<Delivery>, d: Delivery, sel: Event -> bool)
    ensures CountIn(done + [d], sel) == CountIn(done, sel) + One(d.event, sel)
  {
    assert (done + [d])[..|done|] == done;
  }

  lemma PostsNext(done: seq<Delivery>, d: Delivery)
    ensures PostsIn(done + [d]) == PostsIn(done) + d.posts
  {
    assert (done + [d])[..|done|] == done;
  }

  /** The event a thread of the outbox has removed but not yet handed to its caller. */
  function InThread(pc: P.PC, sel: Event -> bool): nat {
    if pc.PopToken? then One(pc.event, sel)
    else if pc.Returned? then One(pc.event, sel)
    else if pc.Unlock? && pc.exit.Deliver? then One(pc.exit.event, sel)
    else 0
  }

  function InWorker(w: Worker, sel: Event -> bool): nat {
    if w.Posting? || w.Sleeping? then One(w.event, sel) else 0
  }

  function Hand(s: Sys, w: nat, sel: Event -> bool): nat
    requires w < |s.workers| && w < |s.box.threads|
  {
    InThread(s.box.threads[w], sel) + InWorker(s.workers[w], sel)
  }

  function InHand(s: Sys, sel: Event -> bool): nat
    requires |s.workers| == WORKERS <= |s.box.threads|
  {
    Hand(s, 0, sel) + Hand(s, 1, sel) + Hand(s, 2, sel)
  }

  function Outcomes(s: Sys, sel: Event -> bool): nat {
    CountIn(s.dispatched, sel) + CountIn(s.failed, sel) + CountIn(s.abandoned, sel)
  }

  /** Posts already made for the event a worker holds. */
  function PostsOf(w: Worker): nat {
    if w.Posting? || w.Sleeping? then w.attempt else 0
  }

  predicate WorkerOk(w: Worker, pc: P.PC, maxRetries: nat) {
    && (w.Posting? || w.Sleeping? || w.Gone? ==> pc.Idle?)
    && PostsOf(w) <= maxRetries && (w.Sleeping? ==> w.attempt >= 1)
  }

  /** A thread outside the pool is never inside Pop. */
  predicate OutsiderOk(pc: P.PC) {
    pc.Idle? || pc.PushLock? || pc.PushBody? || pc.PushToken? || pc.CloseLock? || pc.CloseBody?
    || pc.CloseChannel? || pc == P.Unlock(P.Done)
  }

  ghost predicate Layout(s: Sys) {
    && |s.workers| == WORKERS <= |s.box.threads|
    && (forall w :: 0 <= w < WORKERS ==> WorkerOk(s.workers[w], s.box.threads[w], s.maxRetries))
    && (forall t :: WORKERS <= t < |s.box.threads| ==> OutsiderOk(s.box.threads[t]))
  }

  /** Every delivered event is in one worker's hand or has exactly one outcome. */
  ghost predicate Conserved(s: Sys, sel: Event -> bool)
    requires |s.workers| == WORKERS <= |s.box.threads|
  {
    Count(s.box.delivered, sel) == Outcomes(s, sel) + InHand(s, sel)
  }

  /** Posts made so far for the events in hand. */
  function OpenPosts(s: Sys): nat
    requires |s.workers| == WORKERS
  {
    PostsOf(s.workers[0]) + PostsOf(s.workers[1]) + PostsOf(s.workers[2])
  }

  /** Every delivery took between `least` and `most` posts. */
  predicate Took(done: seq<Delivery>, least: nat, most: nat) {
    forall i :: 0 <= i < |done| ==> least <= done[i].posts <= most
  }

  /** Dispatched events took 1 to maxRetries + 1 posts, failed ones exactly that, abandoned ones at most. */
  predicate PostsBounded(s: Sys) {
    && Took(s.dispatched, 1, s.maxRetries + 1) && Took(s.failed, s.maxRetries + 1, s.maxRetries + 1)
    && Took(s.abandoned, 1, s.maxRetries + 1)
  }

  /** The posts of finished deliveries. */
  function PostsDone(s: Sys): nat {
    PostsIn(s.dispatched) + PostsIn(s.failed) + PostsIn(s.abandoned)
  }

  /** Every post was made for one event. */
  predicate PostsAddUp(s: Sys)
    requires |s.workers| == WORKERS
  {
    s.posts == PostsDone(s) + OpenPosts(s)
  }

  ghost predicate Inv(s: Sys) {
    && P.Inv(s.box) && Layout(s) && PostsBounded(s) && PostsAddUp(s)
    && (forall sel: Event -> bool :: Conserved(s, sel))
    && (!s.cancelled ==> s.abandoned == [])
  }

  /** A step of one thread leaves the others where they were. */
  lemma OnlyOneMoves(box: P.State, step: P.Step)
    requires P.Enabled(box, step)
    ensures P.Apply(box, step).threads == box.threads[step.t := P.Apply(box, step).threads[step.t]]
  {
  }

  lemma OutsiderStays(box: P.State, step: P.Step)
    requires P.Enabled(box, step) && !step.BeginPop? && OutsiderOk(box.threads[step.t])
    ensures OutsiderOk(P.Apply(box, step).threads[step.t])
  {
  }

  lemma LayoutQueue(s: Sys, step: P.Step)
    requires Layout(s) && Enabled(s, Queue(step))
    ensures Layout(Apply(s, Queue(step)))
  {
    var t, s' := step.t, Apply(s, Queue(step));
    OnlyOneMoves(s.box, step);
    if t < WORKERS {
      assert WorkerOk(s.workers[t], s.box.threads[t], s.maxRetries);
      assert WorkerOk(s'.workers[t], s'.box.threads[t], s.maxRetries);
    } else {
      OutsiderStays(s.box, step);
    }
    forall w | 0 <= w < WORKERS && w != t
      ensures WorkerOk(s'.workers[w], s'.box.threads[w], s.maxRetries)
    {
      assert WorkerOk(s.workers[w], s.box.threads[w], s.maxRetries);
    }
  }

  /** A Pop branch that found an event: it leaves the log of deliveries and the hand in step. */
  lemma HandPops(box: P.State, t: nat, sel: Event -> bool)
    requires t < |box.threads| && box.core.queue != []
    requires box.threads[t].PopBody? || box.threads[t].ClosedBody? || box.threads[t].TokenBody?
    ensures var (e, box') := (box.core.queue[0], P.HeldStep(box, t));
            box'.delivered == box.delivered + [e] && InThread(box'.threads[t], sel) == One(e, sel)
  {
  }

  lemma HandKeeps(box: P.State, t: nat, sel: Event -> bool)
    requires t < |box.threads| && P.HoldsMutex(box.threads[t])
    requires box.core.queue == [] || box.threads[t].PushBody? || !P.ReadsRing(box.threads[t])
    ensures var box' := P.HeldStep(box, t);
            box'.delivered == box.delivered && InThread(box'.threads[t], sel) == InThread(box.threads[t], sel)
  {
  }

  lemma HeldHand(box: P.State, t: nat, sel: Event -> bool)
    requires t < |box.threads| && P.HoldsMutex(box.threads[t])
    ensures var box' := P.HeldStep(box, t);
            Count(box'.delivered, sel) + InThread(box.threads[t], sel)
               == Count(box.delivered, sel) + InThread(box'.threads[t], sel)
  {
    hide P.HeldStep, Count;
    if box.core.queue == [] || box.threads[t].PushBody? || !P.ReadsRing(box.threads[t]) {
      HandKeeps(box, t, sel);
    } else {
      HandPops(box, t, sel);
      CountNext(box.delivered, box.core.queue[0], sel);
    }
  }

  /** An outbox step moves events between the delivered log and its own thread's hand, no further. */
  lemma HandFollowsDelivery(box: P.State, step: P.Step, sel: Event -> bool)
    requires P.Enabled(box, step) && !step.Finish?
    ensures var box' := P.Apply(box, step);
            Count(box'.delivered, sel) + InThread(box.threads[step.t], sel)
               == Count(box.delivered, sel) + InThread(box'.threads[step.t], sel)
  {
    hide P.HeldStep, Count;
    if step.Proceed? && P.HoldsMutex(box.threads[step.t]) {
      HeldHand(box, step.t, sel);
    }
  }

  lemma HandsMoved(s: Sys, s': Sys, w: nat, sel: Event -> bool)
    requires |s.workers| == WORKERS == |s'.workers| && WORKERS <= |s.box.threads| && w < WORKERS
    requires s'.workers == s.workers[w := s'.workers[w]] && |s'.box.threads| == |s.box.threads|
    requires s'.box.threads == s.box.threads[w := s'.box.threads[w]]
    ensures InHand(s', sel) - InHand(s, sel) == Hand(s', w, sel) - Hand(s, w, sel)
  {
  }

  lemma OpenPostsMoved(s: Sys, s': Sys, w: nat)
    requires |s.workers| == WORKERS == |s'.workers| && w < WORKERS
    requires s'.workers == s.workers[w := s'.workers[w]]
    ensures OpenPosts(s') - OpenPosts(s) == PostsOf(s'.workers[w]) - PostsOf(s.workers[w])
  {
  }

  /** A worker's own step in the outbox neither gives it an event nor takes one away. */
  lemma WorkerUnmoved(s: Sys, step: P.Step, sel: Event -> bool)
    requires Layout(s) && Enabled(s, Queue(step)) && step.t < WORKERS
    ensures var s' := Apply(s, Queue(step));
            && s'.workers == s.workers[step.t := s'.workers[step.t]]
            && InWorker(s'.workers[step.t], sel) == InWorker(s.workers[step.t], sel)
            && Outcomes(s', sel) == Outcomes(s, sel)
  {
    assert WorkerOk(s.workers[step.t], s.box.threads[step.t], s.maxRetries);
  }

  lemma ConservedQueue(s: Sys, step: P.Step, sel: Event -> bool)
    requires Layout(s) && Conserved(s, sel) && Enabled(s, Queue(step)) && step.t < WORKERS
    ensures Conserved(Apply(s, Queue(step)), sel)
  {
    var t, s' := step.t, Apply(s, Queue(step));
    OnlyOneMoves(s.box, step);
    HandFollowsDelivery(s.box, step, sel);
    WorkerUnmoved(s, step, sel);
    HandsMoved(s, s', t, sel);
  }

  lemma ConservedOutsider(s: Sys, step: P.Step, sel: Event -> bool)
    requires Layout(s) && Conserved(s, sel) && Enabled(s, Queue(step)) && step.t >= WORKERS
    requires Layout(Apply(s, Queue(step)))
    ensures Conserved(Apply(s, Queue(step)), sel)
  {
    var t, s' := step.t, Apply(s, Queue(step));
    assert OutsiderOk(s.box.threads[t]) && OutsiderOk(s'.box.threads[t]);
    OnlyOneMoves(s.box, step);
    HandFollowsDelivery(s.box, step, sel);
  }

  lemma FinishGoesIdle(box: P.State, t: nat)
    requires t < |box.threads| && box.threads[t].Returned?
    ensures P.Enabled(box, P.Finish(t)) && P.Apply(box, P.Finish(t)).threads == box.threads[t := P.Idle]
  {
  }

  lemma LayoutMove(s: Sys, m: Move)
    requires Layout(s) && Enabled(s, m) && !m.Queue?
    ensures Layout(Apply(s, m))
  {
    hide P.Apply, P.Enabled;
    if m.Receive? {
      FinishGoesIdle(s.box, m.w);
    }
    forall w | 0 <= w < WORKERS
      ensures WorkerOk(Apply(s, m).workers[w], Apply(s, m).box.threads[w], s.maxRetries)
    {
      assert WorkerOk(s.workers[w], s.box.threads[w], s.maxRetries);
    }
  }

  /** Whether this answer ends the delivery. */
  predicate Ends(s: Sys, w: nat, ok: bool)
    requires w < |s.workers| && s.workers[w].Posting?
  {
    ok || s.workers[w].attempt >= s.maxRetries
  }

  lemma OutcomesPosted(s: Sys, w: nat, ok: bool, sel: Event -> bool)
    requires w < |s.workers| && s.workers[w].Posting?
    ensures Outcomes(Posted(s, w, ok), sel)
            == Outcomes(s, sel) + (if Ends(s, w, ok) then One(s.workers[w].event, sel) else 0)
  {
    var done := Delivery(s.workers[w].event, s.workers[w].attempt + 1);
    DeliveryNext(s.dispatched, done, sel);
    DeliveryNext(s.abandoned, done, sel);
    DeliveryNext(s.failed, done, sel);
  }

  lemma HandPosted(s: Sys, w: nat, ok: bool, sel: Event -> bool)
    requires w < |s.workers| && w < |s.box.threads| && s.workers[w].Posting?
    ensures var s' := Posted(s, w, ok);
            && s'.box == s.box && s'.workers == s.workers[w := s'.workers[w]]
            && Hand(s', w, sel) == Hand(s, w, sel) - (if Ends(s, w, ok) then One(s.workers[w].event, sel) else 0)
  {
  }

  lemma ConservedPost(s: Sys, w: nat, ok: bool, sel: Event -> bool)
    requires w < WORKERS == |s.workers| && WORKERS <= |s.box.threads| && s.workers[w].Posting? && Conserved(s, sel)
    ensures |Posted(s, w, ok).workers| == WORKERS && Conserved(Posted(s, w, ok), sel)
  {
    hide Posted, Outcomes, Ends, Hand;
    OutcomesPosted(s, w, ok, sel);
    HandPosted(s, w, ok, sel);
    HandsMoved(s, Posted(s, w, ok), w, sel);
  }

  lemma ConservedMove(s: Sys, m: Move, sel: Event -> bool)
    requires Layout(s) && Conserved(s, sel) && Enabled(s, m) && !m.Queue? && !m.Shutdown?
    ensures Conserved(Apply(s, m), sel)
  {
    if m.Post? {
      ConservedPost(s, m.w, m.ok, sel);
    } else {
      HandsMoved(s, Apply(s, m), m.w, sel);
      assert WorkerOk(s.workers[m.w], s.box.threads[m.w], s.maxRetries);
      if m.Interrupt? {
        DeliveryNext(s.abandoned, Delivery(s.workers[m.w].event, s.workers[m.w].attempt), sel);
      }
    }
  }

  lemma TookNext(done: seq<Delivery>, d: Delivery, least: nat, most: nat)
    requires Took(done, least, most) && least <= d.posts <= most
    ensures Took(done + [d], least, most)
  {
  }

  lemma BoundsMove(s: Sys, m: Move)
    requires Layout(s) && PostsBounded(s) && Enabled(s, m) && (m.Post? || m.Interrupt?)
    ensures PostsBounded(Apply(s, m))
  {
    var a, limit := s.workers[m.w].attempt, s.maxRetries + 1;
    var done := Delivery(s.workers[m.w].event, if m.Post? then a + 1 else a);
    assert WorkerOk(s.workers[m.w], s.box.threads[m.w], s.maxRetries);
    TookNext(s.dispatched, done, 1, limit);
    TookNext(s.abandoned, done, 1, limit);
    if m.Post? && a == s.maxRetries {
      TookNext(s.failed, done, limit, limit);
    }
  }

  lemma DonePosted(s: Sys, w: nat, ok: bool)
    requires w < |s.workers| && s.workers[w].Posting?
    ensures var (s', made) := (Posted(s, w, ok), s.workers[w].attempt + 1);
            && s'.posts == s.posts + 1 && s'.workers == s.workers[w := s'.workers[w]]
            && PostsDone(s') == PostsDone(s) + (if Ends(s, w, ok) then made else 0)
            && PostsOf(s'.workers[w]) == (if Ends(s, w, ok) then 0 else made)
  {
    hide PostsIn;
    var done := Delivery(s.workers[w].event, s.workers[w].attempt + 1);
    PostsNext(s.dispatched, done);
    PostsNext(s.abandoned, done);
    PostsNext(s.failed, done);
  }

  lemma OpenAttempt(w: Worker)
    requires w.Posting?
    ensures PostsOf(w) == w.attempt
  {
  }

  lemma SumPost(s: Sys, w: nat, ok: bool)
    requires w < WORKERS == |s.workers| && s.workers[w].Posting? && PostsAddUp(s)
    ensures |Posted(s, w, ok).workers| == WORKERS && PostsAddUp(Posted(s, w, ok))
  {
    hide Posted, PostsDone, Ends, PostsOf;
    DonePosted(s, w, ok);
    assert PostsOf(s.workers[w]) == s.workers[w].attempt by {
      OpenAttempt(s.workers[w]);
    }
    OpenPostsMoved(s, Posted(s, w, ok), w);
  }

  lemma DoneMoved(s: Sys, m: Move)
    requires Enabled(s, m) && !m.Queue? && !m.Shutdown? && !m.Post?
    ensures m.w < |s.workers| == WORKERS
    ensures var s' := Apply(s, m);
            && s'.posts == s.posts && s'.workers == s.workers[m.w := s'.workers[m.w]]
            && PostsDone(s') + PostsOf(s'.workers[m.w]) == PostsDone(s) + PostsOf(s.workers[m.w])
  {
    hide P.Apply, P.Enabled, PostsIn;
    if m.Interrupt? {
      PostsNext(s.abandoned, Delivery(s.workers[m.w].event, s.workers[m.w].attempt));
    }
  }

  lemma SumMove(s: Sys, m: Move)
    requires Layout(s) && PostsAddUp(s) && Enabled(s, m) && !m.Queue? && !m.Shutdown? && !m.Post?
    ensures |Apply(s, m).workers| == WORKERS && PostsAddUp(Apply(s, m))
  {
    hide Apply, Enabled;
    DoneMoved(s, m);
    OpenPostsMoved(s, Apply(s, m), m.w);
  }

  lemma PostsMove(s: Sys, m: Move)
    requires Layout(s) && PostsBounded(s) && PostsAddUp(s) && Enabled(s, m) && !m.Queue? && !m.Shutdown?
    ensures |Apply(s, m).workers| == WORKERS && PostsBounded(Apply(s, m)) && PostsAddUp(Apply(s, m))
  {
    if m.Post? {
      BoundsMove(s, m);
      SumPost(s, m.w, m.ok);
    } else {
      if m.Interrupt? {
        BoundsMove(s, m);
      }
      SumMove(s, m);
    }
  }

  /** A step of the outbox leaves every worker's open posts as they were. */
  lemma PostsUnmoved(s: Sys, step: P.Step)
    requires Layout(s) && Enabled(s, Queue(step))
    ensures var s' := Apply(s, Queue(step)); |s'.workers| == WORKERS && OpenPosts(s') == OpenPosts(s)
  {
    if step.t < WORKERS {
      assert WorkerOk(s.workers[step.t], s.box.threads[step.t], s.maxRetries);
    }
  }

  lemma PostsQueue(s: Sys, step: P.Step)
    requires Layout(s) && PostsBounded(s) && PostsAddUp(s) && Enabled(s, Queue(step))
    ensures |Apply(s, Queue(step)).workers| == WORKERS
    ensures PostsBounded(Apply(s, Queue(step))) && PostsAddUp(Apply(s, Queue(step)))
  {
    PostsUnmoved(s, step);
    BooksUnmoved(s, step);
  }

  lemma BooksUnmoved(s: Sys, step: P.Step)
    requires Enabled(s, Queue(step))
    ensures var s' := Apply(s, Queue(step));
            && s'.posts == s.posts && s'.maxRetries == s.maxRetries
            && s'.dispatched == s.dispatched && s'.failed == s.failed && s'.abandoned == s.abandoned
  {
  }

  lemma QueueInv(s: Sys, step: P.Step)
    requires Inv(s) && Enabled(s, Queue(step))
    ensures Inv(Apply(s, Queue(step)))
  {
    P.StepInv(s.box, step);
    LayoutQueue(s, step);
    PostsQueue(s, step);
    forall sel: Event -> bool
      ensures Conserved(Apply(s, Queue(step)), sel)
    {
      if step.t < WORKERS {
        ConservedQueue(s, step, sel);
      } else {
        ConservedOutsider(s, step, sel);
      }
    }
  }

  lemma WorkerMoveInv(s: Sys, m: Move)
    requires Inv(s) && Enabled(s, m) && !m.Queue? && !m.Shutdown?
    ensures Inv(Apply(s, m))
  {
    if m.Receive? {
      P.StepInv(s.box, P.Finish(m.w));
    }
    LayoutMove(s, m);
    PostsMove(s, m);
    forall sel: Event -> bool
      ensures Conserved(Apply(s, m), sel)
    {
      ConservedMove(s, m, sel);
    }
  }

  lemma MoveInv(s: Sys, m: Move)
    requires Inv(s) && Enabled(s, m)
    ensures Inv(Apply(s, m))
  {
    if m.Queue? {
      QueueInv(s, m.step);
    } else if !m.Shutdown? {
      WorkerMoveInv(s, m);
    } else {
      assert forall sel: Event -> bool :: Conserved(s, sel) ==> Conserved(Apply(s, m), sel);
    }
  }

  // --- Runs -------------------------------------------------------------------------------------

  function Start(capacity: P.positive, policy: DropPolicy, threads: nat, maxRetries: nat): Sys {
    Sys(P.Start(capacity, policy, threads), [Fetching, Fetching, Fetching], false, maxRetries, [], [], [], 0)
  }

  ghost predicate Leads(s: Sys, run: seq<Move>, end: Sys)
    decreases run
  {
    if run == [] then s == end
    else Enabled(s, run[0]) && Leads(Apply(s, run[0]), run[1..], end)
  }

  lemma {:induction false} RunInv(s: Sys, run: seq<Move>, end: Sys)
    requires Inv(s) && Leads(s, run, end)
    ensures Inv(end)
    decreases run
  {
    if run != [] {
      MoveInv(s, run[0]);
      RunInv(Apply(s, run[0]), run[1..], end);
    }
  }

  /** Requests made during a run, and those of them that were accepted. */
  function Requests(run: seq<Move>): nat
    decreases run
  {
    if run == [] then 0 else (if run[0].Post? then 1 else 0) + Requests(run[1..])
  }

  function Acknowledged(run: seq<Move>): nat
    decreases run
  {
    if run == [] then 0 else (if run[0].Post? && run[0].ok then 1 else 0) + Acknowledged(run[1..])
  }

  lemma MetricsMove(s: Sys, m: Move)
    requires Enabled(s, m)
    ensures var s' := Apply(s, m);
            && s'.posts == s.posts + (if m.Post? then 1 else 0)
            && |s'.dispatched| == |s.dispatched| + (if m.Post? && m.ok then 1 else 0)
            && (s.cancelled ==> s'.cancelled && s'.failed == s.failed)
  {
  }

  /** Over every run the metrics are exact: each request is counted, and dispatched counts the accepted ones. */
  lemma {:induction false} DispatchedAreAccepted(s: Sys, run: seq<Move>, end: Sys)
    requires Leads(s, run, end)
    ensures end.posts == s.posts + Requests(run) && |end.dispatched| == |s.dispatched| + Acknowledged(run)
    decreases run
  {
    hide Enabled, Apply;
    if run != [] {
      MetricsMove(s, run[0]);
      DispatchedAreAccepted(Apply(s, run[0]), run[1..], end);
    }
  }

  /** Once shutdown has begun no event is counted as failed, however long the run goes on. */
  lemma {:induction false} NoFailureAfterShutdown(s: Sys, run: seq<Move>, end: Sys)
    requires Leads(s, run, end) && s.cancelled
    ensures end.failed == s.failed && end.cancelled
    decreases run
  {
    hide Enabled, Apply;
    if run != [] {
      MetricsMove(s, run[0]);
      NoFailureAfterShutdown(Apply(s, run[0]), run[1..], end);
    }
  }

  lemma StartInv(capacity: P.positive, policy: DropPolicy, threads: nat, maxRetries: nat)
    requires threads >= WORKERS
    ensures Inv(Start(capacity, policy, threads, maxRetries))
  {
    P.StartInv(capacity, policy, threads);
  }

  lemma {:induction false} CountAppend(a: seq<Event>, b: seq<Event>, sel: Event -> bool)
    ensures Count(a + b, sel) == Count(a, sel) + Count(b, sel)
  {
    if b == [] {
      assert a + b == a;
    } else {
      var n := |b| - 1;
      CountAppend(a, b[..n], sel);
      assert (a + b)[..|a + b| - 1] == a + b[..n];
    }
  }

  lemma {:induction false} CountByFate(log: seq<Event>, fates: seq<P.Fate>, sel: Event -> bool)
    requires |fates| <= |log|
    ensures Count(log[..|fates|], sel)
            == Count(P.Pick(log, fates, P.Delivered), sel) + Count(P.Pick(log, fates, P.Evicted), sel)
  {
    if fates != [] {
      var n := |fates| - 1;
      CountByFate(log, fates[..n], sel);
      CountPrefix(log, n, sel);
      CountPick(log, fates, P.Delivered, sel);
      CountPick(log, fates, P.Evicted, sel);
    }
  }

  lemma CountPrefix(log: seq<Event>, n: nat, sel: Event -> bool)
    requires n < |log|
    ensures Count(log[..n + 1], sel) == Count(log[..n], sel) + One(log[n], sel)
  {
    assert log[..n + 1] == log[..n] + [log[n]];
    CountNext(log[..n], log[n], sel);
  }

  lemma CountPick(log: seq<Event>, fates: seq<P.Fate>, fate: P.Fate, sel: Event -> bool)
    requires 0 < |fates| <= |log|
    ensures var n := |fates| - 1;
            Count(P.Pick(log, fates, fate), sel)
            == Count(P.Pick(log, fates[..n], fate), sel) + (if fates[n] == fate then One(log[n], sel) else 0)
  {
    var before := P.Pick(log, fates[..|fates| - 1], fate);
    CountNext(before, log[|fates| - 1], sel);
    assert before + [] == before;
  }

  lemma {:induction false} CountAll(events: seq<Event>)
    ensures Count(events, (e: Event) => true) == |events|
  {
    if events != [] {
      CountAll(events[..|events| - 1]);
    }
  }

  lemma {:induction false} CountAllIn(done: seq<Delivery>)
    ensures CountIn(done, (e: Event) => true) == |done|
  {
    if done != [] {
      CountAllIn(done[..|done| - 1]);
    }
  }

  /** The log of accepted events is what was delivered, what was evicted and what is queued. */
  lemma CountLog(box: P.State, sel: Event -> bool)
    requires P.History(box)
    ensures Count(box.log, sel) == Count(box.delivered, sel) + Count(box.evicted, sel) + Count(box.core.queue, sel)
  {
    CountByFate(box.log, box.fates, sel);
    CountAppend(box.log[..|box.fates|], box.core.queue, sel);
    assert box.log == box.log[..|box.fates|] + box.core.queue;
  }

  /**
   * However workers, producers and shutdown interleave, every accepted
   * event is queued, evicted, in a worker's hand, dispatched, failed or abandoned, exactly once.
   */
  lemma EveryAcceptedEventAccountedFor(capacity: P.positive, policy: DropPolicy, threads: nat, maxRetries: nat,
                                       run: seq<Move>, end: Sys, sel: Event -> bool)
    requires threads >= WORKERS && Leads(Start(capacity, policy, threads, maxRetries), run, end)
    ensures |end.workers| == WORKERS <= |end.box.threads|
    ensures Count(end.box.log, sel)
            == Count(end.box.core.queue, sel) + Count(end.box.evicted, sel) + Outcomes(end, sel) + InHand(end, sel)
    ensures !end.cancelled ==> end.abandoned == []
  {
    StartInv(capacity, policy, threads, maxRetries);
    RunInv(Start(capacity, policy, threads, maxRetries), run, end);
    assert Conserved(end, sel);
    CountLog(end.box, sel);
  }

  lemma HandsAreSmall(s: Sys)
    requires Layout(s)
    ensures InHand(s, (e: Event) => true) <= WORKERS && OpenPosts(s) <= WORKERS * s.maxRetries
  {
    forall w | 0 <= w < WORKERS
      ensures Hand(s, w, (e: Event) => true) <= 1 && PostsOf(s.workers[w]) <= s.maxRetries
    {
      assert WorkerOk(s.workers[w], s.box.threads[w], s.maxRetries);
    }
  }

  /** The dispatcher's counters against the outbox's: at most three events are between the two. */
  lemma DispatchLedger(capacity: P.positive, policy: DropPolicy, threads: nat, maxRetries: nat,
                       run: seq<Move>, end: Sys)
    requires threads >= WORKERS && Leads(Start(capacity, policy, threads, maxRetries), run, end)
    ensures var settled := |end.dispatched| + |end.failed| + |end.abandoned|;
            settled <= end.box.core.dequeued <= settled + WORKERS
  {
    StartInv(capacity, policy, threads, maxRetries);
    RunInv(Start(capacity, policy, threads, maxRetries), run, end);
    assert Conserved(end, (e: Event) => true);
    HandsAreSmall(end);
    CountAll(end.box.delivered);
    CountAllIn(end.dispatched);
    CountAllIn(end.failed);
    CountAllIn(end.abandoned);
  }

  lemma {:induction false} PostsBetween(done: seq<Delivery>, least: nat, most: nat)
    requires Took(done, least, most)
    ensures least * |done| <= PostsIn(done) <= most * |done|
  {
    if done != [] {
      var n := |done| - 1;
      PostsBetween(done[..n], least, most);
      OneMore(least, n);
      OneMore(most, n);
    }
  }

  lemma OneMore(k: int, n: int)
    ensures k * (n + 1) == k * n + k
  {
  }

  /**
   * Requests made, event by event and in all: 1 to maxRetries + 1 for an event dispatched, exactly
   * maxRetries + 1 for one that failed, at most that for one abandoned, and none besides.
   */
  lemma PostLedger(capacity: P.positive, policy: DropPolicy, threads: nat, maxRetries: nat,
                   run: seq<Move>, end: Sys)
    requires threads >= WORKERS && Leads(Start(capacity, policy, threads, maxRetries), run, end)
    ensures Took(end.dispatched, 1, maxRetries + 1) && Took(end.failed, maxRetries + 1, maxRetries + 1)
    ensures Took(end.abandoned, 1, maxRetries + 1)
    ensures |end.workers| == WORKERS && OpenPosts(end) <= WORKERS * maxRetries
    ensures end.posts == PostsIn(end.dispatched) + PostsIn(end.failed) + PostsIn(end.abandoned) + OpenPosts(end)
  {
    StartInv(capacity, policy, threads, maxRetries);
    RunInv(Start(capacity, policy, threads, maxRetries), run, end);
    RetriesFixed(Start(capacity, policy, threads, maxRetries), run, end);
    HandsAreSmall(end);
  }

  lemma PostTotals(capacity: P.positive, policy: DropPolicy, threads: nat, maxRetries: nat,
                   run: seq<Move>, end: Sys)
    requires threads >= WORKERS && Leads(Start(capacity, policy, threads, maxRetries), run, end)
    ensures var limit := maxRetries + 1;
            end.posts <= limit * |end.dispatched| + limit * |end.failed| + limit * |end.abandoned|
                         + WORKERS * maxRetries
    ensures end.posts >= |end.dispatched| + (maxRetries + 1) * |end.failed| + |end.abandoned|
  {
    PostLedger(capacity, policy, threads, maxRetries, run, end);
    PostsBetween(end.dispatched, 1, maxRetries + 1);
    PostsBetween(end.failed, maxRetries + 1, maxRetries + 1);
    PostsBetween(end.abandoned, 1, maxRetries + 1);
  }

  lemma {:induction false} RetriesFixed(s: Sys, run: seq<Move>, end: Sys)
    requires Leads(s, run, end)
    ensures end.maxRetries == s.maxRetries
    decreases run
  {
    if run != [] {
      RetriesFixed(Apply(s, run[0]), run[1..], end);
    }
  }

  // --- Progress ---------------------------------------------------------------------------------

  /** When the outbox has settled with an event queued, every worker is out of Pop or holds its result. */
  lemma NoWorkerLeftWaiting(capacity: P.positive, policy: DropPolicy, threads: nat, maxRetries: nat,
                            run: seq<Move>, end: Sys, w: nat)
    requires threads >= WORKERS && Leads(Start(capacity, policy, threads, maxRetries), run, end)
    requires T.Settled(end.box) && (end.box.core.queue != [] || end.box.core.closed) && w < WORKERS
    ensures |end.box.threads| >= WORKERS && (end.box.threads[w].Idle? || end.box.threads[w].Returned?)
  {
    StartInv(capacity, policy, threads, maxRetries);
    RunInv(Start(capacity, policy, threads, maxRetries), run, end);
    T.SettledWaiter(end.box, w);
  }

  /** What happens by itself: everything but new calls of producers and the shutdown signal. */
  predicate Driving(m: Move) {
    && !m.Shutdown?
    && (m.Queue? ==> T.Internal(m.step) || (m.step.t < WORKERS && (m.step.BeginPop? || m.step.Cancel?)))
  }

  /** After shutdown the only way to be stuck is to be finished. */
  lemma StuckMeansStopped(capacity: P.positive, policy: DropPolicy, threads: nat, maxRetries: nat,
                          run: seq<Move>, end: Sys)
    requires threads >= WORKERS && Leads(Start(capacity, policy, threads, maxRetries), run, end)
    requires end.cancelled && forall m: Move :: Driving(m) ==> !Enabled(end, m)
    ensures end.workers == [Gone, Gone, Gone]
  {
    StartInv(capacity, policy, threads, maxRetries);
    RunInv(Start(capacity, policy, threads, maxRetries), run, end);
    StuckBox(end);
    forall w | 0 <= w < WORKERS ensures end.workers[w] == Gone {
      StuckWorker(end, w);
    }
  }

  lemma StuckBox(s: Sys)
    requires Layout(s) && forall m: Move :: Driving(m) ==> !Enabled(s, m)
    ensures T.Settled(s.box)
  {
    forall step | T.Internal(step) ensures !P.Enabled(s.box, step) {
      assert !Enabled(s, Queue(step));
    }
  }

  lemma StuckWorker(s: Sys, w: nat)
    requires Inv(s) && s.cancelled && T.Settled(s.box) && w < WORKERS
    requires forall m: Move :: Driving(m) ==> !Enabled(s, m)
    ensures s.workers[w] == Gone
  {
    T.SettledThread(s.box, w);
    assert !Enabled(s, Post(w, true)) && !Enabled(s, Wake(w)) && !Enabled(s, Receive(w)) && !Enabled(s, Leave(w));
    assert !Enabled(s, Queue(P.Cancel(w)));
    assert WorkerOk(s.workers[w], s.box.threads[w], s.maxRetries);
  }
}
