/** thread_pool as atomic steps of coroutines, workers and any number of stop() calls. */
module ThreadPool {
  import opened Options
  import opened Sequences

  type AwaitId = nat // one co_await on the pool
  type Thread = nat

  datatype Caller =
    | Idle
    | Rejecting(a: AwaitId)      // enqueue() refused; the item is about to be destroyed
    | Running(a: AwaitId)        // a worker took the item
    | Stopping(q: seq<AwaitId>)  // stop() swapped the queue out and destroys it

  /** handleSet: the awaiter's handle has not been cleared; ran, resumed and canceled are records. */
  datatype State = State(
    queue: seq<AwaitId>, exit: bool, threads: seq<Caller>,
    unstarted: set<AwaitId>, handleSet: set<AwaitId>,
    ran: set<AwaitId>, resumed: seq<AwaitId>, canceled: set<AwaitId>)

  datatype Event =
    | Enqueue(t: Thread, a: AwaitId) // await_suspend: enqueue under the lock
    | DestroyRejected(t: Thread)
    | Take(t: Thread)                // a worker, under the lock
    | Run(t: Thread)                 // it calls the item
    | Stop(t: Thread)
    | DestroyOne(t: Thread)          // the swapped-out queue loses its first item
    | StopDone(t: Thread)

  function Init(awaits: set<AwaitId>, threads: nat): State {
    State([], false, seq(threads, _ => Idle), awaits, {}, {}, [], {})
  }

  predicate Enabled(s: State, e: Event) {
    && e.t < |s.threads|
    && match e
       case Enqueue(t, a) => s.threads[t].Idle? && a in s.unstarted
       case DestroyRejected(t) => s.threads[t].Rejecting?
       case Take(t) => s.threads[t].Idle? && !s.exit && s.queue != []
       case Run(t) => s.threads[t].Running?
       case Stop(t) => s.threads[t].Idle?
       case DestroyOne(t) => s.threads[t].Stopping? && s.threads[t].q != []
       case StopDone(t) => s.threads[t].Stopping? && s.threads[t].q == []
  }

  function Goto(s: State, t: Thread, c: Caller): State
    requires t < |s.threads|
  {
    s.(threads := s.threads[t := c])
  }

  /** The coroutine continues; await_resume throws when the handle is still set. */
  function Resume(s: State, a: AwaitId): State {
    s.(resumed := s.resumed + [a],
       canceled := if a in s.handleSet then s.canceled + {a} else s.canceled)
  }

  function Step(s: State, e: Event): State
    requires Enabled(s, e)
  {
    match e
    case Enqueue(t, a) =>
      var s' := s.(unstarted := s.unstarted - {a}, handleSet := s.handleSet + {a});
      if s.exit then Goto(s', t, Rejecting(a)) else s'.(queue := s.queue + [a])
    case DestroyRejected(t) => Goto(Resume(s, s.threads[t].a), t, Idle)
    case Take(t) => Goto(s.(queue := s.queue[1..]), t, Running(s.queue[0]))
    case Run(t) =>
      var a := s.threads[t].a;
      Goto(Resume(s.(handleSet := s.handleSet - {a}, ran := s.ran + {a}), a), t, Idle)
    case Stop(t) => Goto(s.(exit := true, queue := []), t, Stopping(s.queue))
    case DestroyOne(t) =>
      var q := s.threads[t].q;
      Goto(Resume(s, q[0]), t, Stopping(q[1..]))
    case StopDone(t) => Goto(s, t, Idle)
  }

  ghost predicate IsRun(s: State, trace: seq<Event>)
    decreases |trace|
  {
    trace == [] || (Enabled(s, trace[0]) && IsRun(Step(s, trace[0]), trace[1..]))
  }

  ghost function After(s: State, trace: seq<Event>): State
    requires IsRun(s, trace)
    decreases |trace|
  {
    if trace == [] then s else After(Step(s, trace[0]), trace[1..])
  }

  // ---------- Where an await is ----------

  function Count(q: seq<AwaitId>, a: AwaitId): nat {
    multiset(q)[a]
  }

  function One(b: bool): nat {
    if b then 1 else 0
  }

  function HeldBy(c: Caller, a: AwaitId): nat {
    match c
    case Idle => 0
    case Rejecting(x) => One(x == a)
    case Running(x) => One(x == a)
    case Stopping(q) => Count(q, a)
  }

  function Held(threads: seq<Caller>, a: AwaitId): nat {
    if threads == [] then 0 else HeldBy(threads[0], a) + Held(threads[1..], a)
  }

  /** Enqueued, but not resumed yet. */
  function InFlight(s: State, a: AwaitId): nat {
    Count(s.queue, a) + Held(s.threads, a)
  }

  /** The await has not started, or is in flight in one place, or was resumed once; its handle is
      cleared exactly when a worker ran its item, and otherwise the resumption cancels. */
  ghost predicate Fine(s: State, awaits: set<AwaitId>, a: AwaitId) {
    && One(a in s.unstarted) + InFlight(s, a) + Count(s.resumed, a) == One(a in awaits)
    && (a in s.unstarted ==> a !in s.handleSet && a !in s.ran && a !in s.canceled)
    && (InFlight(s, a) > 0 ==> a in s.handleSet && a !in s.ran && a !in s.canceled)
    && (Count(s.resumed, a) > 0 ==> (a in s.canceled <==> a !in s.ran))
  }

  /** A stopped pool keeps nothing in its queue. */
  ghost predicate Good(s: State, awaits: set<AwaitId>) {
    && (s.exit ==> s.queue == [])
    && forall a :: Fine(s, awaits, a)
  }

  lemma {:induction false} HeldUpdate(threads: seq<Caller>, t: Thread, c: Caller, a: AwaitId)
    requires t < |threads|
    ensures Held(threads[t := c], a) + HeldBy(threads[t], a) == Held(threads, a) + HeldBy(c, a)
  {
    var updated := threads[t := c];
    if t == 0 {
      assert updated[1..] == threads[1..];
    } else {
      HeldUpdate(threads[1..], t - 1, c, a);
      assert updated[1..] == threads[1..][t - 1 := c];
    }
  }

  lemma {:induction false} NobodyHolds(threads: seq<Caller>, a: AwaitId)
    requires forall i :: 0 <= i < |threads| ==> threads[i].Idle?
    ensures Held(threads, a) == 0
  {
    if threads != [] {
      NobodyHolds(threads[1..], a);
    }
  }

  lemma CountSplit(q: seq<AwaitId>, b: AwaitId, a: AwaitId)
    ensures Count(q + [b], a) == Count(q, a) + One(a == b)
    ensures q != [] ==> Count(q, a) == One(a == q[0]) + Count(q[1..], a)
  {
    if q != [] {
      assert q == [q[0]] + q[1..];
    }
  }

  lemma EnqueueFine(s: State, e: Event, awaits: set<AwaitId>, a: AwaitId)
    requires Fine(s, awaits, a) && Enabled(s, e) && e.Enqueue?
    ensures Fine(Step(s, e), awaits, a)
  {
    HeldUpdate(s.threads, e.t, Rejecting(e.a), a);
    CountSplit(s.queue, e.a, a);
  }

  /** The steps that resume: a rejected item, an item that runs, an item of a swapped-out queue. */
  lemma ResumeFine(s: State, e: Event, awaits: set<AwaitId>, a: AwaitId)
    requires Fine(s, awaits, a) && Enabled(s, e)
    requires e.DestroyRejected? || e.Run? || e.DestroyOne?
    ensures Fine(Step(s, e), awaits, a)
  {
    var s', t := Step(s, e), e.t;
    HeldUpdate(s.threads, t, s'.threads[t], a);
    var b := if e.DestroyOne? then s.threads[t].q[0] else s.threads[t].a;
    CountSplit(s.resumed, b, a);
    if e.DestroyOne? {
      CountSplit(s.threads[t].q, b, a);
    }
    assert HeldBy(s.threads[t], a) == One(a == b) + HeldBy(s'.threads[t], a);
  }

  lemma HandOverFine(s: State, e: Event, awaits: set<AwaitId>, a: AwaitId)
    requires Fine(s, awaits, a) && Enabled(s, e) && (e.Take? || e.Stop? || e.StopDone?)
    ensures Fine(Step(s, e), awaits, a)
  {
    var s', t := Step(s, e), e.t;
    HeldUpdate(s.threads, t, s'.threads[t], a);
    CountSplit(s.queue, 0, a);
  }

  lemma StepKeepsGood(s: State, e: Event, awaits: set<AwaitId>)
    requires Good(s, awaits) && Enabled(s, e)
    ensures Good(Step(s, e), awaits)
  {
    forall a
      ensures Fine(Step(s, e), awaits, a)
    {
      assert Fine(s, awaits, a);
      match e
      case Enqueue(_, _) => EnqueueFine(s, e, awaits, a);
      case DestroyRejected(_) => ResumeFine(s, e, awaits, a);
      case Run(_) => ResumeFine(s, e, awaits, a);
      case DestroyOne(_) => ResumeFine(s, e, awaits, a);
      case Take(_) => HandOverFine(s, e, awaits, a);
      case Stop(_) => HandOverFine(s, e, awaits, a);
      case StopDone(_) => HandOverFine(s, e, awaits, a);
    }
  }

  lemma {:induction false} RunKeepsGood(s: State, trace: seq<Event>, awaits: set<AwaitId>)
    requires Good(s, awaits) && IsRun(s, trace)
    ensures Good(After(s, trace), awaits)
    decreases |trace|
  {
    if trace != [] {
      StepKeepsGood(s, trace[0], awaits);
      hide Good;
      RunKeepsGood(Step(s, trace[0]), trace[1..], awaits);
    }
  }

  lemma InitGood(awaits: set<AwaitId>, threads: nat)
    ensures Good(Init(awaits, threads), awaits)
  {
    forall b
      ensures Fine(Init(awaits, threads), awaits, b)
    {
      NobodyHolds(Init(awaits, threads).threads, b);
    }
  }

  /** Through any mix of awaiting, working and stopping: a coroutine that awaits the pool is resumed at
      most once, and with a cancellation exactly when no worker ran its item. When all threads are
      idle again after a stop, every await that started has been resumed. */
  lemma ResumedExactlyOnce(awaits: set<AwaitId>, threads: nat, trace: seq<Event>, a: AwaitId)
    requires IsRun(Init(awaits, threads), trace) && a in awaits
    ensures var t := After(Init(awaits, threads), trace);
      && Count(t.resumed, a) <= 1
      && (a in t.resumed ==> (a in t.canceled <==> a !in t.ran))
      && (t.exit && (forall i :: 0 <= i < |t.threads| ==> t.threads[i].Idle?) && a !in t.unstarted
          ==> Count(t.resumed, a) == 1)
  {
    var s := Init(awaits, threads);
    InitGood(awaits, threads);
    RunKeepsGood(s, trace, awaits);
    var t := After(s, trace);
    assert Fine(t, awaits, a);
    if forall i :: 0 <= i < |t.threads| ==> t.threads[i].Idle? {
      NobodyHolds(t.threads, a);
    }
  }

  // ---------- Nothing is left behind ----------

  /** The steps that only go on with what was begun: all but a new co_await or stop(). */
  predicate GoesOn(e: Event) {
    !e.Enqueue? && !e.Stop?
  }

  function ToDo(c: Caller): nat {
    match c
    case Idle => 0
    case Rejecting(_) => 1
    case Running(_) => 1
    case Stopping(q) => |q| + 1
  }

  function AllToDo(threads: seq<Caller>): nat {
    if threads == [] then 0 else ToDo(threads[0]) + AllToDo(threads[1..])
  }

  function StepsLeft(s: State): nat {
    2 * |s.queue| + AllToDo(s.threads)
  }

  lemma {:induction false} ToDoUpdate(threads: seq<Caller>, t: Thread, c: Caller)
    requires t < |threads|
    ensures AllToDo(threads[t := c]) + ToDo(threads[t]) == AllToDo(threads) + ToDo(c)
  {
    if t == 0 {
      assert threads[t := c][1..] == threads[1..];
    } else {
      ToDoUpdate(threads[1..], t - 1, c);
      assert threads[t := c][1..] == threads[1..][t - 1 := c];
    }
  }

  lemma StepProgresses(s: State, e: Event)
    requires Enabled(s, e) && GoesOn(e)
    ensures StepsLeft(Step(s, e)) + 1 == StepsLeft(s)
    ensures Step(s, e).unstarted == s.unstarted && |Step(s, e).threads| == |s.threads|
  {
    ToDoUpdate(s.threads, e.t, Step(s, e).threads[e.t]);
  }

  /** What a thread in a given place does next. */
  function Continues(c: Caller, t: Thread): Event {
    match c
    case Idle => Take(t)
    case Rejecting(_) => DestroyRejected(t)
    case Running(_) => Run(t)
    case Stopping(q) => if q == [] then StopDone(t) else DestroyOne(t)
  }

  /** Nothing can go on exactly when all threads are idle and nothing is queued that they may take. */
  lemma RestExactly(s: State)
    requires |s.threads| > 0
    ensures (forall e :: GoesOn(e) ==> !Enabled(s, e)) <==>
      (forall i :: 0 <= i < |s.threads| ==> s.threads[i].Idle?) && (s.exit || s.queue == [])
  {
    if i :| 0 <= i < |s.threads| && !s.threads[i].Idle? {
      var e := Continues(s.threads[i], i);
      assert Enabled(s, e) && GoesOn(e);
    } else if !s.exit && s.queue != [] {
      assert Enabled(s, Take(0)) && GoesOn(Take(0));
    }
  }

  lemma {:induction false} RunProgresses(s: State, trace: seq<Event>)
    requires IsRun(s, trace) && forall e :: e in trace ==> GoesOn(e)
    ensures var t := After(s, trace);
      && |trace| + StepsLeft(t) == StepsLeft(s)
      && t.unstarted == s.unstarted && |t.threads| == |s.threads|
    decreases |trace|
  {
    if trace != [] {
      StepProgresses(s, trace[0]);
      assert forall e :: e in trace[1..] ==> e in trace;
      hide Step, StepsLeft;
      RunProgresses(Step(s, trace[0]), trace[1..]);
    }
  }

  /** Nobody is left behind: whatever has happened, going on with what was begun takes a number of steps
      that is known beforehand, and then every coroutine that has awaited the pool has been resumed,
      exactly once. */
  lemma {:induction false} EverybodyIsResumed(awaits: set<AwaitId>, threads: nat, trace: seq<Event>, more: seq<Event>)
    requires threads > 0 && IsRun(Init(awaits, threads), trace)
    requires IsRun(After(Init(awaits, threads), trace), more)
    requires forall e :: e in more ==> GoesOn(e)
    ensures var s := After(Init(awaits, threads), trace);
      var t := After(s, more);
      && |more| <= StepsLeft(s)
      && (|more| == StepsLeft(s) <==> forall e :: GoesOn(e) ==> !Enabled(t, e))
      && (|more| == StepsLeft(s) ==> forall a :: a in awaits && a !in s.unstarted ==> Count(t.resumed, a) == 1)
  {
    var s := After(Init(awaits, threads), trace);
    var t := After(s, more);
    InitGood(awaits, threads);
    RunKeepsGood(Init(awaits, threads), trace, awaits);
    RunKeepsGood(s, more, awaits);
    RunProgresses(s, more);
    ThreadsStay(Init(awaits, threads), trace);
    RestExactly(t);
    NothingToDo(t, awaits);
    hide Good, Enabled;
  }

  lemma {:induction false} ThreadsStay(s: State, trace: seq<Event>)
    requires IsRun(s, trace)
    ensures |After(s, trace).threads| == |s.threads|
    decreases |trace|
  {
    if trace != [] {
      ThreadsStay(Step(s, trace[0]), trace[1..]);
    }
  }

  lemma {:induction false} IdleExactly(threads: seq<Caller>)
    ensures AllToDo(threads) == 0 <==> forall i :: 0 <= i < |threads| ==> threads[i].Idle?
  {
    if threads != [] {
      IdleExactly(threads[1..]);
      assert forall i :: 0 < i < |threads| ==> threads[i] == threads[1..][i - 1];
      assert threads[0].Idle? && (forall i :: 0 <= i < |threads| - 1 ==> threads[1..][i].Idle?) ==>
          forall i :: 0 <= i < |threads| ==> threads[i].Idle?;
    }
  }

  lemma NothingToDo(t: State, awaits: set<AwaitId>)
    requires Good(t, awaits)
    ensures StepsLeft(t) == 0 <==>
      (forall i :: 0 <= i < |t.threads| ==> t.threads[i].Idle?) && (t.exit || t.queue == [])
    ensures StepsLeft(t) == 0 ==> forall a :: a in awaits && a !in t.unstarted ==> Count(t.resumed, a) == 1
  {
    IdleExactly(t.threads);
    if StepsLeft(t) == 0 {
      forall a | a in awaits && a !in t.unstarted
        ensures Count(t.resumed, a) == 1
      {
        NobodyHolds(t.threads, a);
        assert Fine(t, awaits, a);
      }
    }
  }

  // ---------- The order of the items ----------

  /** What comes out of the queue: the item that a worker takes, or all that stop() swaps out. */
  function Leaves(s: State, e: Event): seq<AwaitId>
    requires Enabled(s, e)
  {
    var c := Step(s, e).threads[e.t];
    if e.Take? && c.Running? then [c.a]
    else if e.Stop? && c.Stopping? then c.q
    else []
  }

  function Enters(s: State, e: Event): seq<AwaitId> {
    if e.Enqueue? && !s.exit then [e.a] else []
  }

  ghost function Left(s: State, trace: seq<Event>): seq<AwaitId>
    requires IsRun(s, trace)
    decreases |trace|
  {
    if trace == [] then [] else Leaves(s, trace[0]) + Left(Step(s, trace[0]), trace[1..])
  }

  ghost function Entered(s: State, trace: seq<Event>): seq<AwaitId>
    requires IsRun(s, trace)
    decreases |trace|
  {
    if trace == [] then [] else Enters(s, trace[0]) + Entered(Step(s, trace[0]), trace[1..])
  }

  lemma QueueStep(s: State, e: Event)
    requires Enabled(s, e)
    ensures Leaves(s, e) + Step(s, e).queue == s.queue + Enters(s, e)
    ensures e.Take? ==> |Leaves(s, e)| == 1
    ensures Step(s, e).exit <==> s.exit || e.Stop?
  {
  }

  /** First in, first out: whatever workers and stops take out, in the order in which it leaves, and
      what is still queued, is what was queued and what a running pool accepted since. */
  lemma {:induction false} QueueIsFifo(s: State, trace: seq<Event>)
    requires IsRun(s, trace)
    ensures Left(s, trace) + After(s, trace).queue == s.queue + Entered(s, trace)
    decreases |trace|
  {
    if trace != [] {
      var e, t, rest := trace[0], Step(s, trace[0]), trace[1..];
      QueueStep(s, e);
      assert Left(s, trace) == Leaves(s, e) + Left(t, rest);
      assert Entered(s, trace) == Enters(s, e) + Entered(t, rest);
      assert After(s, trace) == After(t, rest) && IsRun(t, rest);
      hide *;
      QueueIsFifo(t, rest);
      FifoStep(s.queue, Enters(s, e), Leaves(s, e), t.queue,
               Left(t, rest), After(t, rest).queue, Entered(t, rest));
    }
  }

  /** stop() is final: in every continuation the pool stays stopped and its queue empty, it accepts
      nothing and no worker takes an item. */
  lemma {:induction false} StopIsFinal(s: State, trace: seq<Event>)
    requires s.exit && s.queue == [] && IsRun(s, trace)
    ensures After(s, trace).exit && After(s, trace).queue == []
    ensures Entered(s, trace) == [] && forall i :: 0 <= i < |trace| ==> !trace[i].Take?
    decreases |trace|
  {
    if trace != [] {
      QueueStep(s, trace[0]);
      StopIsFinal(Step(s, trace[0]), trace[1..]);
    }
  }

  /** A worker runs the item it took: its coroutine goes on, last in the order so far, without a
      cancellation if it has not been cancelled before. */
  lemma RunsWhatItTook(s: State, t: Thread)
    requires Enabled(s, Run(t))
    ensures var s', a := Step(s, Run(t)), s.threads[t].a;
      s'.resumed == s.resumed + [a] && a in s'.ran && s'.canceled == s.canceled && s'.threads[t].Idle?
  {
  }

  // ---------- The fields that the lock protects ----------

  datatype Shared = Shared(queue: seq<AwaitId>, exit: bool)

  function SharedPart(s: State): Shared {
    Shared(s.queue, s.exit)
  }

  /** The pool itself; s is the state at the call, in which thread t is about to do the same step. */
  class Pool {
    var queue: seq<AwaitId>
    var exit: bool

    function View(): Shared
      reads this
    {
      Shared(queue, exit)
    }

    constructor ()
      ensures View() == Shared([], false)
    {
      queue, exit := [], false;
    }

    /** A stopped pool drops the item: its caller destroys it. */
    method EnqueueItem(a: AwaitId, ghost s: State, ghost t: Thread) returns (accepted: bool)
      requires SharedPart(s) == View() && Enabled(s, Enqueue(t, a))
      modifies this
      ensures accepted == !old(exit) && exit == old(exit)
      ensures queue == old(queue) + if accepted then [a] else []
      ensures View() == SharedPart(Step(s, Enqueue(t, a)))
      ensures accepted <==> Step(s, Enqueue(t, a)).threads[t] != Rejecting(a)
    {
      accepted := !exit;
      if accepted {
        queue := queue + [a];
      }
    }

    /** A worker that has stopped waiting: it takes an item, or leaves because the pool is stopped. */
    method TakeItem(ghost s: State, ghost t: Thread) returns (a: Option<AwaitId>)
      requires SharedPart(s) == View() && (queue != [] || exit)
      requires t < |s.threads| && s.threads[t].Idle?
      modifies this
      ensures a.Some? <==> Enabled(s, Take(t))
      ensures a.Some? ==> [a.value] + queue == old(queue) && exit == old(exit)
      ensures a.Some? ==>
        View() == SharedPart(Step(s, Take(t))) && Step(s, Take(t)).threads[t] == Running(a.value)
      ensures a.None? ==> exit && View() == SharedPart(s)
    {
      if exit {
        return None;
      }
      a := Some(queue[0]);
      queue := queue[1..];
    }

    /** Swaps the queue out; its items are destroyed outside the lock. */
    method StopPool(ghost s: State, ghost t: Thread) returns (dropped: seq<AwaitId>)
      requires SharedPart(s) == View() && Enabled(s, Stop(t))
      modifies this
      ensures exit && queue == [] && dropped == old(queue)
      ensures View() == SharedPart(Step(s, Stop(t))) && Step(s, Stop(t)).threads[t] == Stopping(dropped)
    {
      exit := true;
      dropped := queue;
      queue := [];
    }
  }
}
