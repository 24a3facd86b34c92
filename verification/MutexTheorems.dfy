/**
 What the mutex promises, over every interleaving of any number of agents: mutual exclusion, first
 come first served, no overtaking, and a build_queue that is unaffected by concurrent pushes.
 */
module MutexTheorems {
  import opened Options
  import opened Sequences
  import opened Chains
  import opened MutexProtocol
  import opened MutexSpec

  lemma InitGood(s: State)
    requires Initial(s)
    ensures Good(s, View([], [], []))
  {
  }

  lemma {:induction false} RunKeepsGood(s: State, v: View, trace: seq<Event>) returns (v': View)
    requires Good(s, v) && IsRun(s, trace)
    ensures Good(After(s, trace), v')
    decreases |trace|
  {
    if trace == [] {
      v' := v;
    } else {
      StepKeepsGood(s, v, trace[0]);
      v' := RunKeepsGood(Step(s, trace[0]), StepView(s, v, trace[0]), trace[1..]);
    }
  }

  /** At most one agent holds the mutex in every reachable state, counting the window between a
      winning push and its exchange; and the atomic pointer is null exactly when nobody does. */
  lemma MutualExclusion(s: State, trace: seq<Event>)
    requires Initial(s) && IsRun(s, trace)
    ensures var t := After(s, trace);
      && AtMostOneHolder(t)
      && (t.requests.Null? <==> forall n :: n in t.pc ==> !Holds(t.pc[n]))
  {
    InitGood(s);
    var v := RunKeepsGood(s, View([], [], []), trace);
    LockBit(After(s, trace), v);
  }

  /** In every reachable state, everybody who was ever suspended, in the order of their pushes, is
      everybody who was handed the mutex, in order, followed by the line that memory spells out. */
  lemma FirstComeFirstServed(s: State, trace: seq<Event>) returns (v: View)
    requires Initial(s) && IsRun(s, trace)
    ensures var t := After(s, trace);
      && t.arrived == t.served + Line(v)
      && Distinct(Line(v))
      && (forall n :: n in Line(v) <==> n in t.pc && t.pc[n].Suspended?)
      && Chain(t.next, t.queue, v.q, Null)
      && (forall h :: h in t.pc && Holds(t.pc[h]) ==> HolderShape(t, v, h))
  {
    InitGood(s);
    v := RunKeepsGood(s, View([], [], []), trace);
  }

  /** Who holds the mutex, on the way in or out included. */
  ghost function Holder(s: State): Option<Node> {
    if Free(s) then None else var h :| h in s.pc && Holds(s.pc[h]); Some(h)
  }

  /** The ideal lock that a state stands for. */
  ghost function Ideal(s: State, v: View): Lock<Node> {
    Lock(Holder(s), Line(v))
  }

  /** Each atomic step is one operation of the ideal lock or no change to it. In particular
      try_lock() and ready() never overtake a waiter, and unlock() frees the lock exactly when the
      line is empty. */
  lemma StepRefinesLock(s: State, v: View, e: Event)
    requires Good(s, v) && Enabled(s, e)
    ensures var l, l' := Ideal(s, v), Ideal(Step(s, e), StepView(s, v, e));
      match e.action
      case TryLock | Ready =>
        l' == if l.holder.Some? then l else Request(l, e.agent)
      case SubscribeCas => l' == Request(l, e.agent)
      case UnlockCas => l.holder == Some(e.agent) && l' == if l.line == [] then Release(l) else l
      case HandOff => l.holder == Some(e.agent) && l.line != [] && l' == Release(l)
      case _ => l' == l
    ensures !s.requests.Null? || Line(v) == []
  {
    StepKeepsGood(s, v, e);
    HolderStep(s, v, e);
    LineOfStep(s, v, e);
    LockBit(s, v);
    hide Step, StepView, Good, Line;
  }

  lemma LineOfStep(s: State, v: View, e: Event)
    requires Good(s, v) && Enabled(s, e)
    ensures var line, line' := Line(v), Line(StepView(s, v, e));
      match e.action
      case SubscribeCas => line' == line + if s.requests.Null? then [] else [e.agent]
      case HandOff => line != [] && line[0] == s.queue.node && line' == line[1..]
      case _ => line' == line
    ensures e.action.UnlockCas? ==> (s.requests.Marker? <==> Line(v) == [])
    ensures s.requests.Null? ==> Line(v) == []
  {
    LockBit(s, v);
    match e.action
    case SubscribeCas => RosterCas(s, v, e);
    case HandOff => RosterHandOff(s, v, e);
    case UnlockCas =>
      UnlockCasFrees(s, v, e);
      RosterRest(s, v, e);
    case _ => RosterRest(s, v, e);
  }

  lemma HolderIs(s: State, h: Node)
    requires AtMostOneHolder(s) && h in s.pc && Holds(s.pc[h])
    ensures Holder(s) == Some(h)
  {
  }

  /** Who holds the mutex before and after a step. */
  lemma HolderStep(s: State, v: View, e: Event)
    requires Good(s, v) && Enabled(s, e)
    ensures var h, h' := Holder(s), Holder(Step(s, e));
      match e.action
      case TryLock | Ready | SubscribeCas => h' == if s.requests.Null? then Some(e.agent) else h
      case SubscribeRetry => h' == h
      case UnlockCas => h == Some(e.agent) && h' == if s.requests.Marker? then None else h
      case HandOff => h == Some(e.agent) && h' == Some(s.queue.node)
      case _ => h == h' == Some(e.agent)
    ensures Holder(s).None? <==> s.requests.Null?
  {
    var s', a := Step(s, e), e.agent;
    LockBit(s, v);
    StepKeepsGood(s, v, e);
    if Holds(s.pc[a]) {
      HolderIs(s, a);
      OwnerMoves(s, v, e);
    } else {
      OtherMoves(s, v, e);
    }
  }

  /** A step of the holder. */
  lemma OwnerMoves(s: State, v: View, e: Event)
    requires Good(s, v) && Enabled(s, e) && Holds(s.pc[e.agent]) && AtMostOneHolder(Step(s, e))
    ensures var h' := Holder(Step(s, e));
      h' == match e.action
            case UnlockCas => if s.requests.Marker? then None else Some(e.agent)
            case HandOff => Some(s.queue.node)
            case _ => Some(e.agent)
  {
    var s', a := Step(s, e), e.agent;
    if e.action.HandOff? {
      HolderIs(s', s.queue.node);
    } else if e.action.UnlockCas? && s.requests.Marker? {
      assert Free(s');
    } else {
      HolderIs(s', a);
    }
  }

  /** A step of anybody else. */
  lemma OtherMoves(s: State, v: View, e: Event)
    requires Good(s, v) && Enabled(s, e) && !Holds(s.pc[e.agent]) && AtMostOneHolder(Step(s, e))
    ensures var a := e.action; a.TryLock? || a.Ready? || a.SubscribeCas? || a.SubscribeRetry?
    ensures Holder(Step(s, e)) ==
      if s.requests.Null? && !e.action.SubscribeRetry? then Some(e.agent) else Holder(s)
  {
    LockBit(s, v);
    var s', a := Step(s, e), e.agent;
    if s.requests.Null? && !e.action.SubscribeRetry? {
      HolderIs(s', a);
    } else if Free(s) {
      assert Free(s');
    } else {
      var h :| h in s.pc && Holds(s.pc[h]);
      HolderIs(s, h);
      HolderIs(s', h);
    }
  }

  // ---------- Ownership ----------

  /** An agent becomes the owner by its own try_lock() or ready() on a free mutex, by the end of its
      build_queue after a winning push, or because the mutex is handed to it; and in no other way. */
  lemma AcquireExact(s: State, v: View, e: Event, a: Node)
    requires Good(s, v) && Enabled(s, e) && a in s.pc
    ensures a in Step(s, e).pc
    ensures !s.pc[a].Owner? && Step(s, e).pc[a].Owner? <==>
      || (e.agent == a && (e.action.TryLock? || e.action.Ready?) && s.requests.Null?)
      || (e == Event(a, FinishBuild) && s.pc[a].purpose.Locking?)
      || (e.action.HandOff? && s.queue == At(a))
  {
    ListsWait(s, v);
    if e.action.HandOff? {
      ShapeHandOff(s, v, e);
    }
  }

  /** An owner stays one until it calls unlock(). */
  lemma OwnerStays(s: State, v: View, e: Event, a: Node)
    requires Good(s, v) && Enabled(s, e) && a in s.pc && s.pc[a].Owner? && e != Event(a, Unlock)
    ensures a in Step(s, e).pc && Step(s, e).pc[a].Owner?
  {
    if e.agent != a {
      assert !Holds(s.pc[e.agent]);
    }
  }

  /** In every continuation, whoever owns the mutex keeps it until its own unlock(). */
  lemma {:induction false} OwnerKeeps(s: State, v: View, a: Node, trace: seq<Event>)
    requires Good(s, v) && IsRun(s, trace) && a in s.pc && s.pc[a].Owner?
    requires Event(a, Unlock) !in trace
    ensures a in After(s, trace).pc && After(s, trace).pc[a].Owner?
    decreases |trace|
  {
    if trace != [] {
      var e := trace[0];
      assert e in trace;
      StepKeepsGood(s, v, e);
      OwnerStays(s, v, e, a);
      assert Event(a, Unlock) !in trace[1..];
      hide Good, Step, StepView;
      OwnerKeeps(Step(s, e), StepView(s, v, e), a, trace[1..]);
    }
  }

  /** unlock() is over when the exchange has freed the mutex or the first in line has it, and then its
      caller is out. A failed try_lock() leaves no trace, and a failed ready() leads into the queue. */
  lemma LeaveExact(s: State, v: View, e: Event)
    requires Good(s, v) && Enabled(s, e)
    ensures e.agent in Step(s, e).pc && e.agent in Step(s, e).next
    ensures var pc' := Step(s, e).pc[e.agent];
      match e.action
      case TryLock => if s.requests.Null? then pc'.Owner? else Step(s, e) == s
      case Ready => if s.requests.Null? then pc'.Owner? else pc'.Contending? && Step(s, e).next[e.agent].Null?
      case SubscribeCas => if s.requests.Null? then pc'.Won? else pc'.Suspended?
      case SubscribeRetry => pc'.Contending? && Step(s, e).next[e.agent] == s.requests
      case Unlock => if v.q == [] then pc'.Releasing? else pc'.HandingOff?
      case UnlockCas => if Line(v) == [] then pc'.Idle? else pc'.MustBuild?
      case HandOff => pc'.Idle?
      case FinishBuild => if s.pc[e.agent].purpose.Locking? then pc'.Owner? else pc'.HandingOff?
      case Exchange => pc'.Reversing? && (pc'.purpose.Locking? <==> s.pc[e.agent].Won?)
      case MoveOne => pc'.Reversing? && pc'.purpose == s.pc[e.agent].purpose
  {
    ListsWait(s, v);
    match e.action
    case UnlockCas => UnlockCasFrees(s, v, e);
    case HandOff => ShapeHandOff(s, v, e);
    case _ =>
  }

  lemma UnlockCasFrees(s: State, v: View, e: Event)
    requires Good(s, v) && Enabled(s, e) && e.action.UnlockCas?
    ensures s.requests.Marker? <==> Line(v) == []
    ensures !s.requests.Null?
  {
    LineMembers(v);
    assert HolderShape(s, v, e.agent);
    if v.reqs != [] {
      assert v.reqs[0] in Line(v);
    }
  }

  /** Nobody is stuck in a reachable state: whoever waits, waits for a holder, and every holder has a
      step to take. In particular the reversal never follows a null pointer, the doorman or a node
      that is not waiting. */
  lemma SomebodyCanMove(s: State, trace: seq<Event>, a: Node)
    requires Initial(s) && IsRun(s, trace) && a in After(s, trace).pc
    ensures var t := After(s, trace);
      && (t.pc[a].Suspended? ==> exists h :: h in t.pc && Holds(t.pc[h]))
      && (Holds(t.pc[a]) ==> exists act :: Enabled(t, Event(a, act)))
  {
    InitGood(s);
    var v := RunKeepsGood(s, View([], [], []), trace);
    CanMove(After(s, trace), v, a);
  }

  lemma CanMove(s: State, v: View, a: Node)
    requires Good(s, v) && a in s.pc
    ensures s.pc[a].Suspended? ==> exists h :: h in s.pc && Holds(s.pc[h])
    ensures Holds(s.pc[a]) ==> exists act :: Enabled(s, Event(a, act))
  {
    LineMembers(v);
    ListsWait(s, v);
    if Holds(s.pc[a]) {
      assert HolderShape(s, v, a);
      var act := match s.pc[a]
        case Won => Exchange
        case Reversing(_, _) => if v.seg == [] then FinishBuild else MoveOne
        case Owner => Unlock
        case Releasing => UnlockCas
        case MustBuild => Exchange
        case _ => HandOff;
      assert Enabled(s, Event(a, act));
    }
  }

  // ---------- No overtaking ----------

  /** Memory spells out the waiting line. */
  ghost predicate Lined(s: State, line: seq<Node>) {
    exists v :: Good(s, v) && Line(v) == line
  }

  /** One step: the line stays, grows at its end, or its head is handed the mutex. */
  lemma LineStep(s: State, line: seq<Node>, e: Event) returns (line': seq<Node>)
    requires Lined(s, line) && Enabled(s, e)
    ensures Lined(Step(s, e), line')
    ensures !e.action.HandOff? ==> line <= line' && Step(s, e).served == s.served
    ensures e.action.HandOff? ==>
      && line != [] && line' == line[1..]
      && Step(s, e).served == s.served + [line[0]]
      && line[0] in s.pc && Step(s, e).pc[line[0]].Owner?
  {
    var v :| Good(s, v) && Line(v) == line;
    StepKeepsGood(s, v, e);
    line' := Line(StepView(s, v, e));
    if e.action.SubscribeCas? {
      RosterCas(s, v, e);
    } else if e.action.HandOff? {
      RosterHandOff(s, v, e);
    } else {
      RosterRest(s, v, e);
    }
  }

  lemma LinedWaits(s: State, line: seq<Node>, k: nat)
    requires Lined(s, line) && k < |line|
    ensures line[k] in s.pc && s.pc[line[k]].Suspended?
  {
    var v :| Good(s, v) && Line(v) == line;
    assert line[k] in Line(v);
  }

  /** Requester n, which stood at place k when served0 had been handed the mutex: after at most k
      further hand-offs it is suspended and has moved up by their number; the (k+1)-st was its own. */
  ghost predicate InTurn(served0: seq<Node>, t: State, line: seq<Node>, n: Node, k: nat) {
    && served0 <= t.served
    && var handOffs := |t.served| - |served0|;
       if handOffs <= k
       then
         && k - handOffs < |line| && line[k - handOffs] == n
         && n in t.pc && t.pc[n].Suspended?
       else t.served[|served0| + k] == n
  }

  /** In every continuation, the requester at place k is handed the mutex by exactly the (k+1)-st
      hand-off from here, and until then it stays suspended and only moves up. */
  lemma {:induction false} BoundedBypass(s: State, line: seq<Node>, trace: seq<Event>, k: nat)
    returns (line': seq<Node>)
    requires Lined(s, line) && IsRun(s, trace) && k < |line|
    ensures Lined(After(s, trace), line')
    ensures InTurn(s.served, After(s, trace), line', line[k], k)
    decreases |trace|, 1
  {
    if trace == [] {
      line' := line;
      LinedWaits(s, line, k);
    } else {
      var line1 := LineStep(s, line, trace[0]);
      line' := BypassTail(s, line, trace, k, line1);
    }
  }

  lemma {:induction false} BypassTail(s: State, line: seq<Node>, trace: seq<Event>, k: nat, line1: seq<Node>)
    returns (line': seq<Node>)
    requires IsRun(s, trace) && k < |line| && trace != []
    requires Lined(Step(s, trace[0]), line1)
    requires var s1, handOff := Step(s, trace[0]), trace[0].action.HandOff?;
      if handOff then line1 == line[1..] && s1.served == s.served + [line[0]]
      else line <= line1 && s1.served == s.served
    ensures Lined(After(s, trace), line')
    ensures InTurn(s.served, After(s, trace), line', line[k], k)
    decreases |trace|, 0
  {
    hide Lined;
    var s1 := Step(s, trace[0]);
    if trace[0].action.HandOff? && k == 0 {
      line' := LinedAfter(s1, line1, trace[1..]);
      assert s1.served[|s.served|] == line[0];
    } else {
      line' := BoundedBypass(s1, line1, trace[1..], if trace[0].action.HandOff? then k - 1 else k);
    }
  }

  lemma {:induction false} LinedAfter(s: State, line: seq<Node>, trace: seq<Event>)
    returns (line': seq<Node>)
    requires Lined(s, line) && IsRun(s, trace)
    ensures Lined(After(s, trace), line') && s.served <= After(s, trace).served
    decreases |trace|
  {
    line' := line;
    if trace != [] {
      var line1 := LineStep(s, line, trace[0]);
      line' := LinedAfter(Step(s, trace[0]), line1, trace[1..]);
    }
  }

  // ---------- build_queue while others keep pushing ----------

  ghost predicate StillBuilding(trace: seq<Event>, a: Node) {
    Event(a, FinishBuild) !in trace
  }

  function Moves(trace: seq<Event>, a: Node): nat {
    if trace == [] then 0
    else (if trace[0] == Event(a, MoveOne) then 1 else 0) + Moves(trace[1..], a)
  }

  /** An iteration moves one node from the segment to the queue and nothing else. */
  lemma BuildingOwnStep(s: State, v: View, a: Node)
    requires Good(s, v) && a in s.pc && s.pc[a].Reversing? && Enabled(s, Event(a, MoveOne))
    ensures var s', v' := Step(s, Event(a, MoveOne)), StepView(s, v, Event(a, MoveOne));
      && s'.pc[a].Reversing? && s'.pc[a].purpose == s.pc[a].purpose
      && v.seg != [] && v' == View(v.reqs, v.seg[1..], [v.seg[0]] + v.q)
  {
    ListsWait(s, v);
    ShapeMoveOne(s, v, Event(a, MoveOne));
    assert HolderShape(s, v, a);
  }

  /** Nobody else can touch the segment or the queue. */
  lemma BuildingOtherStep(s: State, v: View, e: Event, a: Node)
    requires Good(s, v) && Enabled(s, e) && a in s.pc && s.pc[a].Reversing? && e.agent != a
    ensures var s', v' := Step(s, e), StepView(s, v, e);
      && a in s'.pc && s'.pc[a] == s.pc[a] && v'.seg == v.seg && v'.q == v.q
  {
    assert !Holds(s.pc[e.agent]);
  }

  lemma BuildingStep(s: State, v: View, e: Event, a: Node)
    requires Good(s, v) && Enabled(s, e) && a in s.pc && s.pc[a].Reversing?
    requires e != Event(a, FinishBuild)
    ensures var s', v' := Step(s, e), StepView(s, v, e);
      && s'.pc[a].Reversing? && s'.pc[a].purpose == s.pc[a].purpose
      && Reverse(v'.seg) + v'.q == Reverse(v.seg) + v.q
      && |v'.seg| + Moves([e], a) == |v.seg|
  {
    if e.agent == a {
      assert e == Event(a, MoveOne);
      BuildingOwnStep(s, v, a);
    } else {
      BuildingOtherStep(s, v, e, a);
    }
  }

  lemma {:induction false} BuildingRun(s: State, v: View, a: Node, trace: seq<Event>)
    returns (v': View)
    requires Good(s, v) && a in s.pc && s.pc[a].Reversing?
    requires IsRun(s, trace) && StillBuilding(trace, a)
    ensures var t := After(s, trace);
      && Good(t, v')
      && a in t.pc && t.pc[a].Reversing? && t.pc[a].purpose == s.pc[a].purpose
      && Reverse(v'.seg) + v'.q == Reverse(v.seg) + v.q
      && |v'.seg| + Moves(trace, a) == |v.seg|
    decreases |trace|
  {
    if trace == [] {
      v' := v;
    } else {
      var e := trace[0];
      StepKeepsGood(s, v, e);
      assert e in trace;
      BuildingStep(s, v, e, a);
      assert StillBuilding(trace[1..], a);
      hide Good, Step, StepView, Reverse;
      v' := BuildingRun(Step(s, e), StepView(s, v, e), a, trace[1..]);
    }
  }

  lemma BuildingWhole(s1: State, v1: View, a: Node, trace: seq<Event>) returns (v': View)
    requires Good(s1, v1) && a in s1.pc && s1.pc[a].Reversing? && v1.q == [] && v1.reqs == []
    requires IsRun(s1, trace) && StillBuilding(trace, a)
    requires Enabled(After(s1, trace), Event(a, FinishBuild))
    ensures var t := After(s1, trace);
      && Good(t, v')
      && Chain(t.next, t.queue, Reverse(v1.seg), Null)
      && Chain(t.next, t.requests, v'.reqs, Marker)
      && v'.q == Reverse(v1.seg)
      && Moves(trace, a) == |v1.seg|
  {
    hide Good;
    v' := BuildingRun(s1, v1, a, trace);
    BuildingDone(After(s1, trace), v', a);
    assert Reverse(v'.seg) + v'.q == v'.q;
    assert Reverse(v1.seg) + v1.q == Reverse(v1.seg);
  }

  /** build_queue: from its exchange to its exit, whatever all the other agents do in between, the
      loop runs exactly once per detached node and leaves queue the reverse of the stack that the
      exchange detached; the requests pushed meanwhile stand above the doorman. */
  lemma BuildQueueReverses(s: State, v: View, a: Node, trace: seq<Event>) returns (v': View)
    requires Good(s, v) && Enabled(s, Event(a, Exchange))
    requires IsRun(Step(s, Event(a, Exchange)), trace) && StillBuilding(trace, a)
    requires Enabled(After(Step(s, Event(a, Exchange)), trace), Event(a, FinishBuild))
    ensures var t := After(Step(s, Event(a, Exchange)), trace);
      && Good(t, v')
      && Chain(t.next, t.queue, Reverse(v.reqs), Null)
      && Chain(t.next, t.requests, v'.reqs, Marker)
      && v'.q == Reverse(v.reqs)
      && Moves(trace, a) == |v.reqs|
  {
    var e := Event(a, Exchange);
    StepKeepsGood(s, v, e);
    ListsWait(s, v);
    ShapeExchange(s, v, e);
    v' := BuildingWhole(Step(s, e), StepView(s, v, e), a, trace);
  }

  /** The loop exits only with the segment exhausted. */
  lemma BuildingDone(t: State, v: View, a: Node)
    requires Good(t, v) && Enabled(t, Event(a, FinishBuild))
    ensures v.seg == []
    ensures Chain(t.next, t.queue, v.q, Null) && Chain(t.next, t.requests, v.reqs, Marker)
  {
    ListsWait(t, v);
    assert HolderShape(t, v, a);
  }
}
