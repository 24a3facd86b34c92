/**
 The second read in subscribe(). A successful push already tells what it replaced, but subscribe()
 reads its own next pointer again after the node is public, and takes null for having won. Here every
 agent that pushed itself above somebody reads again at some later time; by then it may still wait,
 hold the mutex, have released it, or be locking once more.
 */
module LateRead {
  import opened Sequences
  import opened Chains
  import opened MutexProtocol
  import opened MutexTheorems

  /** reading: one entry for each push above somebody whose thread has not read again yet; saw: the
      contending agents whose last failed exchange found somebody; misled: who took itself for the
      owner after the second read. */
  datatype Late = Late(s: State, reading: multiset<Node>, saw: set<Node>, misled: set<Node>)

  datatype LateEvent = Protocol(event: Event) | ReadAgain(agent: Node)

  predicate LateInitial(l: Late) {
    Initial(l.s) && l.reading == multiset{} && l.saw == l.misled == {}
  }

  /** A run is followed up to the first read that misleads. */
  predicate LateEnabled(l: Late, e: LateEvent) {
    && l.misled == {}
    && match e
       case Protocol(event) => Enabled(l.s, event)
       case ReadAgain(a) => a in l.reading && a in l.s.next && a in l.s.pc
  }

  function LateStep(l: Late, e: LateEvent): Late
    requires LateEnabled(l, e)
  {
    match e
    case Protocol(event) =>
      var a, above := event.agent, !l.s.requests.Null?;
      Late(Step(l.s, event),
           if event.action.SubscribeCas? && above then l.reading + multiset{a} else l.reading,
           if event.action.SubscribeRetry? && above then l.saw + {a}
           else if event.action.SubscribeRetry? || event.action.Ready? then l.saw - {a}
           else l.saw,
           {})
    case ReadAgain(a) =>
      l.(reading := l.reading - multiset{a}, misled := if l.s.next[a].Null? then {a} else {})
  }

  predicate IsLateRun(l: Late, trace: seq<LateEvent>)
    decreases |trace|
  {
    trace == [] || (LateEnabled(l, trace[0]) && IsLateRun(LateStep(l, trace[0]), trace[1..]))
  }

  function LateAfter(l: Late, trace: seq<LateEvent>): Late
    requires IsLateRun(l, trace)
    decreases |trace|
  {
    if trace == [] then l else LateAfter(LateStep(l, trace[0]), trace[1..])
  }

  /** At most one owner, misled ones included, and the pointer is null exactly when there is none. */
  ghost predicate Sound(l: Late) {
    && AtMostOneHolder(l.s) && |l.misled| <= 1
    && (l.misled != {} ==> Free(l.s))
    && (l.s.requests.Null? <==> Free(l.s) && l.misled == {})
  }

  /** When the second read of an agent that pushed itself above somebody misleads it: while it waits,
      exactly when it is the last of the hand-off queue; once it has been served, always, until an
      exchange of its next lock() has failed because of somebody. */
  predicate Misleads(l: Late, v: View, a: Node)
    requires a in l.s.pc
  {
    match l.s.pc[a]
    case Suspended => v.q != [] && v.q[|v.q| - 1] == a
    case Contending => a !in l.saw
    case _ => true
  }

  /** Whoever does not wait has a null pointer, but for what its last failed exchange left there. */
  ghost predicate Settled(l: Late) {
    forall a :: a in l.s.pc && a in l.s.next && !l.s.pc[a].Suspended? ==>
      (l.s.next[a].Null? <==> !(l.s.pc[a].Contending? && a in l.saw))
  }

  ghost predicate LateGood(l: Late, v: View) {
    Good(l.s, v) && Settled(l)
  }

  lemma {:induction false} ChainNext(next: map<Node, Ptr>, p: Ptr, ns: seq<Node>, end: Ptr, i: nat)
    requires Chain(next, p, ns, end) && i < |ns|
    ensures ns[i] in next && next[ns[i]] == if i + 1 < |ns| then At(ns[i + 1]) else end
    decreases ns
  {
    if i > 0 {
      ChainNext(next, next[ns[0]], ns[1..], end, i - 1);
    } else if |ns| > 1 {
      assert ns[1..][0] == ns[1];
    }
  }

  lemma ChainNotNull(next: map<Node, Ptr>, p: Ptr, ns: seq<Node>, end: Ptr, a: Node)
    requires Chain(next, p, ns, end) && a in ns && !end.Null?
    ensures a in next && !next[a].Null?
  {
    var i :| 0 <= i < |ns| && ns[i] == a;
    ChainNext(next, p, ns, end, i);
  }

  /** No waiting agent is in two of the lists, or twice in the queue. */
  lemma QueueApart(v: View, i: nat)
    requires Distinct(Line(v)) && i < |v.q|
    ensures v.q[i] !in v.reqs && v.q[i] !in v.seg
    ensures forall j :: 0 <= j < |v.q| && v.q[j] == v.q[i] ==> j == i
  {
    var line, k := Line(v), |v.seg| + i;
    ReverseMembers(v.seg);
    ReverseMembers(v.reqs);
    assert forall j :: 0 <= j < |v.q| ==> line[|v.seg| + j] == v.q[j];
    assert forall j :: 0 <= j < |v.seg| ==> line[j] == Reverse(v.seg)[j];
    assert forall j :: 0 <= j < |v.reqs| ==> line[|v.seg| + |v.q| + j] == Reverse(v.reqs)[j];
  }

  /** The only waiting agent whose pointer is null is the last of the hand-off queue. */
  lemma WaitingNext(s: State, v: View, a: Node)
    requires Good(s, v) && a in s.pc && s.pc[a].Suspended?
    ensures a in s.next && (s.next[a].Null? <==> v.q != [] && v.q[|v.q| - 1] == a)
  {
    LineMembers(v);
    CanMove(s, v, a);
    var h :| h in s.pc && Holds(s.pc[h]);
    assert HolderShape(s, v, h);
    if a in v.q {
      var i :| 0 <= i < |v.q| && v.q[i] == a;
      QueueApart(v, i);
      ChainNext(s.next, s.queue, v.q, Null, i);
    } else if a in v.seg {
      ChainNotNull(s.next, s.pc[h].req, v.seg, Stop(h, s.pc[h].purpose), a);
    } else {
      ChainNotNull(s.next, s.requests, v.reqs, if s.pc[h].Won? then At(h) else Marker, a);
    }
  }

  // ---------- Every step and every run ----------

  /** A step leaves alone whoever neither moves nor waits, */
  lemma OthersStay(s: State, v: View, e: Event, b: Node)
    requires Good(s, v) && Enabled(s, e)
    requires b in s.pc && b != e.agent && !s.pc[b].Suspended?
    ensures b in s.next && b in Step(s, e).pc && b in Step(s, e).next
    ensures Step(s, e).next[b] == s.next[b] && Step(s, e).pc[b] == s.pc[b]
  {
    ListsWait(s, v);
    if e.action.MoveOne? {
      ShapeMoveOne(s, v, e);
      assert HolderShape(s, v, e.agent);
    } else if e.action.HandOff? {
      ShapeHandOff(s, v, e);
    }
  }

  /** and whoever stops waiting has been handed the mutex, with its pointer cleared. */
  lemma ServedNext(s: State, v: View, e: Event, b: Node)
    requires Good(s, v) && Enabled(s, e) && b in s.pc && s.pc[b].Suspended?
    ensures b in Step(s, e).pc && b in Step(s, e).next
    ensures Step(s, e).pc[b].Suspended? || (Step(s, e).pc[b].Owner? && Step(s, e).next[b].Null?)
  {
  }

  /** The pointer of the agent that moves. */
  lemma OwnNext(s: State, v: View, e: Event)
    requires Good(s, v) && Enabled(s, e)
    ensures var s', a := Step(s, e), e.agent;
      if e.action.Ready? then s'.next[a].Null?
      else if e.action.SubscribeRetry? then s'.next[a] == s.requests && s'.pc[a].Contending?
      else if e.action.SubscribeCas? then
        s'.next[a] == s.requests && (s'.pc[a].Suspended? <==> !s.requests.Null?)
      else s'.next[a] == s.next[a]
    ensures var s', a := Step(s, e), e.agent;
      && !s.pc[a].Suspended?
      && (s'.pc[a].Contending? ==> e.action.Ready? || e.action.SubscribeRetry?)
      && (s'.pc[a].Suspended? ==> e.action.SubscribeCas? && !s.requests.Null?)
      && (s.pc[a].Contending? ==> e.action.SubscribeRetry? || e.action.SubscribeCas?)
  {
    ListsWait(s, v);
    if e.action.MoveOne? {
      ShapeMoveOne(s, v, e);
      assert HolderShape(s, v, e.agent);
      assert s.pc[e.agent].req == At(v.seg[0]);
    } else if e.action.HandOff? {
      ShapeHandOff(s, v, e);
    }
  }

  lemma KeysStay(s: State, e: Event)
    requires Enabled(s, e)
    ensures Step(s, e).pc.Keys == s.pc.Keys && Step(s, e).next.Keys == s.next.Keys
  {
  }

  lemma SettledStep(l: Late, v: View, e: Event)
    requires LateGood(l, v) && LateEnabled(l, Protocol(e))
    ensures Settled(LateStep(l, Protocol(e)))
  {
    OwnNext(l.s, v, e);
    forall b | b in l.s.pc
      ensures b in Step(l.s, e).pc && b in Step(l.s, e).next
      ensures b != e.agent && !l.s.pc[b].Suspended? ==>
        b in l.s.next && Step(l.s, e).next[b] == l.s.next[b] && Step(l.s, e).pc[b] == l.s.pc[b]
      ensures l.s.pc[b].Suspended? ==>
        Step(l.s, e).pc[b].Suspended? || (Step(l.s, e).pc[b].Owner? && Step(l.s, e).next[b].Null?)
    {
      if l.s.pc[b].Suspended? {
        ServedNext(l.s, v, e, b);
      } else if b != e.agent {
        OthersStay(l.s, v, e, b);
      }
    }
    KeysStay(l.s, e);
    hide Step, Good;
  }

  lemma {:induction false} LateRunKeepsGood(l: Late, v: View, trace: seq<LateEvent>) returns (v': View)
    requires LateGood(l, v) && IsLateRun(l, trace)
    ensures LateGood(LateAfter(l, trace), v')
    decreases |trace|
  {
    v' := v;
    if trace != [] {
      match trace[0] {
        case Protocol(e) =>
          StepKeepsGood(l.s, v, e);
          SettledStep(l, v, e);
          v' := StepView(l.s, v, e);
        case ReadAgain(a) =>
      }
      hide Good, Settled, Step;
      v' := LateRunKeepsGood(LateStep(l, trace[0]), v', trace[1..]);
    }
  }

  /** The second read, whenever it comes: it returns null, and leaves more than one owner or an owner
      of a mutex that counts as free, exactly when it misleads. A thread whose push did replace null
      is never told otherwise. */
  lemma LateReadExact(l: Late, trace: seq<LateEvent>, a: Node) returns (v: View)
    requires LateInitial(l) && IsLateRun(l, trace)
    requires LateEnabled(LateAfter(l, trace), ReadAgain(a))
    ensures var t := LateAfter(l, trace);
      && Good(t.s, v)
      && (t.s.next[a].Null? <==> Misleads(t, v, a))
      && (Sound(LateStep(t, ReadAgain(a))) <==> !Misleads(t, v, a))
      && (forall b :: b in t.s.pc && t.s.pc[b].Won? ==> b in t.s.next && t.s.next[b].Null?)
  {
    InitGood(l.s);
    v := LateRunKeepsGood(l, View([], [], []), trace);
    var t := LateAfter(l, trace);
    ReadAgainExact(t, v, a);
  }

  lemma ReadAgainExact(t: Late, v: View, a: Node)
    requires LateGood(t, v) && LateEnabled(t, ReadAgain(a))
    ensures t.s.next[a].Null? <==> Misleads(t, v, a)
    ensures Sound(LateStep(t, ReadAgain(a))) <==> !Misleads(t, v, a)
    ensures forall b :: b in t.s.pc && t.s.pc[b].Won? ==> b in t.s.next && t.s.next[b].Null?
  {
    LockBit(t.s, v);
    if t.s.pc[a].Suspended? {
      WaitingNext(t.s, v, a);
    }
  }

  // ---------- A run that goes wrong ----------

  /** Two agents: the owner's reversal writes null into the waiter's node before the waiter reads it. */
  const LATE_READ_TRACE := [
    Protocol(Event(0, TryLock)), Protocol(Event(1, Ready)), Protocol(Event(1, SubscribeRetry)),
    Protocol(Event(1, SubscribeCas)), Protocol(Event(0, Unlock)), Protocol(Event(0, UnlockCas)),
    Protocol(Event(0, Exchange)), Protocol(Event(0, MoveOne)), ReadAgain(1)]

  function TwoAgents(requests: Ptr, next1: Ptr, zero: PC, one: PC): State {
    State(requests, Null, map[0 := Null, 1 := next1], map[0 := zero, 1 := one], [], [])
  }

  /** After the waiter's push: requests is the stack, next1 the waiter's pointer. */
  function Waiting(requests: Ptr, next1: Ptr, zero: PC): Late {
    Late(TwoAgents(requests, next1, zero, Suspended).(arrived := [1]), multiset{1}, {1}, {})
  }

  /** The states of the run. */
  function Stage(k: nat): Late {
    match k
    case 0 => Late(TwoAgents(Null, Null, Idle, Idle), multiset{}, {}, {})
    case 1 => Late(TwoAgents(Marker, Null, Owner, Idle), multiset{}, {}, {})
    case 2 => Late(TwoAgents(Marker, Null, Owner, Contending), multiset{}, {}, {})
    case 3 => Late(TwoAgents(Marker, Marker, Owner, Contending), multiset{}, {1}, {})
    case 4 => Waiting(At(1), Marker, Owner)
    case 5 => Waiting(At(1), Marker, Releasing)
    case 6 => Waiting(At(1), Marker, MustBuild)
    case 7 => Waiting(Marker, Marker, Reversing(At(1), Unlocking))
    case 8 =>
      var l := Waiting(Marker, Null, Reversing(Marker, Unlocking));
      l.(s := l.s.(queue := At(1)))
    case _ => Stage(8).(reading := multiset{}, misled := {1})
  }

  ghost predicate TwoOwners(l: Late) {
    1 in l.misled && 0 in l.s.pc && Holds(l.s.pc[0])
  }

  lemma LateReadBreaksExclusion() returns (l: Late, trace: seq<LateEvent>)
    ensures LateInitial(l) && IsLateRun(l, trace) && TwoOwners(LateAfter(l, trace))
  {
    l, trace := Stage(0), LATE_READ_TRACE[0..];
    assert LateInitial(l) && TwoOwners(Stage(9));
    hide *;
    RunFrom(0);
  }

  lemma {:induction false} RunFrom(k: nat)
    requires k <= |LATE_READ_TRACE|
    ensures IsLateRun(Stage(k), LATE_READ_TRACE[k..])
    ensures LateAfter(Stage(k), LATE_READ_TRACE[k..]) == Stage(|LATE_READ_TRACE|)
    decreases |LATE_READ_TRACE| - k
  {
    if k < |LATE_READ_TRACE| {
      StageStep(k);
      hide Stage, LateStep, LateEnabled;
      RunFrom(k + 1);
      LateUnroll(Stage(k), LATE_READ_TRACE, k);
    }
  }

  /** The trace leads from each stage to the next. */
  ghost predicate Leads(k: nat)
    requires k < |LATE_READ_TRACE|
  {
    && LateEnabled(Stage(k), LATE_READ_TRACE[k])
    && LateStep(Stage(k), LATE_READ_TRACE[k]) == Stage(k + 1)
  }

  lemma StageStep(k: nat)
    requires k < |LATE_READ_TRACE|
    ensures Leads(k)
  {
    assert |LATE_READ_TRACE| == 9;
    hide *;
    StageTryLock();
    StageReady();
    StageRetry();
    StageCas();
    StageUnlock();
    StageUnlockCas();
    StageExchange();
    StageMove();
    StageRead();
  }

  lemma StageTryLock()
    ensures Leads(0)
  {
  }

  lemma StageReady()
    ensures Leads(1)
  {
  }

  lemma StageRetry()
    ensures Leads(2)
  {
  }

  lemma StageCas()
    ensures Leads(3)
  {
  }

  lemma StageUnlock()
    ensures Leads(4)
  {
    assert Stage(4).s.pc[0 := Releasing] == Stage(5).s.pc;
  }

  lemma StageUnlockCas()
    ensures Leads(5)
  {
  }

  lemma StageExchange()
    ensures Leads(6)
  {
  }

  lemma StageMove()
    ensures Leads(7)
  {
  }

  lemma StageRead()
    ensures Leads(8)
  {
  }

  lemma LateUnroll(l: Late, trace: seq<LateEvent>, i: nat)
    requires i < |trace| && LateEnabled(l, trace[i]) && IsLateRun(LateStep(l, trace[i]), trace[i + 1..])
    ensures IsLateRun(l, trace[i..])
    ensures LateAfter(l, trace[i..]) == LateAfter(LateStep(l, trace[i]), trace[i + 1..])
  {
    assert trace[i..][1..] == trace[i + 1..];
  }
}
