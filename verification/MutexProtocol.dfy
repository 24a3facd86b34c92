/**
 The lock-free coroutine mutex as interleaved atomic steps over shared memory.

 One atomic pointer, requests, is the lock bit, a sentinel and a LIFO stack of requests at once;
 queue is a private list of the owner. Every agent owns one awaiter node, and the nodes' next
 pointers live in one shared memory that all agents write. A step is one atomic operation, or one
 iteration of the owner's private reversal loop, of one agent; any agent may step at any time.
 */
module MutexProtocol {
  import opened Sequences
  import opened Chains

  datatype Purpose = Locking | Unlocking

  /** Where an agent stands in lock(), try_lock() or unlock(). */
  datatype PC =
    | Idle
    | Contending                            // ready() failed; trying to push itself
    | Suspended                             // pushed above somebody: subscribe() returned true
    | Won                                   // its push replaced a null pointer: it owns the mutex
    | Reversing(req: Ptr, purpose: Purpose) // inside the loop of build_queue
    | Owner                                 // holds an ownership object
    | Releasing                             // unlock() found the queue empty
    | MustBuild                             // the unlocking exchange failed: requests have arrived
    | HandingOff                            // unlock() is about to resume the head of the queue

  /** arrived and served record, in order, who was suspended and who was handed the mutex. */
  datatype State = State(
    requests: Ptr, queue: Ptr, next: map<Node, Ptr>, pc: map<Node, PC>,
    arrived: seq<Node>, served: seq<Node>)

  datatype Action =
    | TryLock         // ready() on behalf of try_lock()
    | Ready           // ready() on behalf of co_await lock()
    | SubscribeRetry  // a failed weak exchange: next takes the value seen
    | SubscribeCas    // the successful exchange, with the old top it saw
    | Exchange        // build_queue swaps in the doorman
    | MoveOne         // one iteration of the loop of build_queue
    | FinishBuild     // the loop's exit
    | Unlock          // unlock() looks at the queue
    | UnlockCas       // unlock() tries to swap the doorman for null
    | HandOff         // unlock() removes the head of the queue and resumes it

  datatype Event = Event(agent: Node, action: Action)

  predicate Holds(pc: PC) {
    pc.Won? || pc.Reversing? || pc.Owner? || pc.Releasing? || pc.MustBuild? || pc.HandingOff?
  }

  function Stop(a: Node, purpose: Purpose): Ptr {
    if purpose.Locking? then At(a) else Marker
  }

  /** A free mutex and any number of agents. */
  predicate Initial(s: State) {
    && s.requests.Null? && s.queue.Null? && s.arrived == s.served == []
    && s.next.Keys == s.pc.Keys
    && forall a :: a in s.pc ==> s.pc[a].Idle? && s.next[a].Null?
  }

  predicate Enabled(s: State, e: Event) {
    && e.agent in s.pc && e.agent in s.next
    && var pc := s.pc[e.agent];
       match e.action
       case TryLock | Ready => pc.Idle?
       case SubscribeRetry => pc.Contending?
       case SubscribeCas => pc.Contending? && s.next[e.agent] == s.requests
       case Exchange => pc.Won? || pc.MustBuild?
       case MoveOne =>
         pc.Reversing? && pc.req != Stop(e.agent, pc.purpose) && pc.req.At? && pc.req.node in s.next
       case FinishBuild => pc.Reversing? && (pc.req.Null? || pc.req == Stop(e.agent, pc.purpose))
       case Unlock => pc.Owner?
       case UnlockCas => pc.Releasing?
       case HandOff => pc.HandingOff? && s.queue.At? && s.queue.node in s.next && s.queue.node in s.pc
  }

  function Goto(s: State, a: Node, pc: PC): State {
    s.(pc := s.pc[a := pc])
  }

  function Step(s: State, e: Event): State
    requires Enabled(s, e)
  {
    var a := e.agent;
    match e.action
    case TryLock =>
      if s.requests.Null? then Goto(s.(requests := Marker), a, Owner) else s
    case Ready =>
      // a fresh awaiter object: its next pointer is null
      if s.requests.Null? then Goto(s.(requests := Marker, next := s.next[a := Null]), a, Owner)
      else Goto(s.(next := s.next[a := Null]), a, Contending)
    case SubscribeRetry => s.(next := s.next[a := s.requests])
    case SubscribeCas =>
      if s.requests.Null? then Goto(s.(requests := At(a)), a, Won)
      else Goto(s.(requests := At(a), arrived := s.arrived + [a]), a, Suspended)
    case Exchange =>
      Goto(s.(requests := Marker), a,
           Reversing(s.requests, if s.pc[a].Won? then Locking else Unlocking))
    case MoveOne =>
      var x := s.pc[a].req.node;
      Goto(s.(next := s.next[x := s.queue], queue := At(x)), a, s.pc[a].(req := s.next[x]))
    case FinishBuild => Goto(s, a, if s.pc[a].purpose.Locking? then Owner else HandingOff)
    case Unlock => Goto(s, a, if s.queue.Null? then Releasing else HandingOff)
    case UnlockCas =>
      if s.requests.Marker? then Goto(s.(requests := Null), a, Idle) else Goto(s, a, MustBuild)
    case HandOff =>
      var first := s.queue.node;
      var released := Goto(s.(queue := s.next[first], next := s.next[first := Null]), a, Idle);
      Goto(released.(served := s.served + [first]), first, Owner)
  }

  predicate IsRun(s: State, trace: seq<Event>)
    decreases |trace|
  {
    trace == [] || (Enabled(s, trace[0]) && IsRun(Step(s, trace[0]), trace[1..]))
  }

  function After(s: State, trace: seq<Event>): State
    requires IsRun(s, trace)
    decreases |trace|
  {
    if trace == [] then s else After(Step(s, trace[0]), trace[1..])
  }

  // ---------- What memory means ----------

  /** reqs: the stack above the doorman (or above the winner's node); seg: the detached segment
      that build_queue has not moved yet; q: the hand-off queue. */
  datatype View = View(reqs: seq<Node>, seg: seq<Node>, q: seq<Node>)

  /** The waiting line that the three lists stand for, first come first. */
  function Line(v: View): seq<Node> {
    Reverse(v.seg) + v.q + Reverse(v.reqs)
  }

  ghost predicate HolderShape(s: State, v: View, h: Node)
    requires h in s.pc
  {
    match s.pc[h]
    case Won =>
      && Chain(s.next, s.requests, v.reqs, At(h)) && h in s.next && s.next[h] == Null
      && v.seg == [] && v.q == []
    case Reversing(req, purpose) =>
      && Chain(s.next, s.requests, v.reqs, Marker)
      && Chain(s.next, req, v.seg, Stop(h, purpose))
      && (purpose.Unlocking? ==> v.seg + v.q != [])
    case Owner => Chain(s.next, s.requests, v.reqs, Marker) && v.seg == []
    case Releasing => Chain(s.next, s.requests, v.reqs, Marker) && v.seg == [] && v.q == []
    case MustBuild =>
      Chain(s.next, s.requests, v.reqs, Marker) && v.seg == [] && v.q == [] && v.reqs != []
    case HandingOff => Chain(s.next, s.requests, v.reqs, Marker) && v.seg == [] && v.q != []
    case _ => true
  }

  ghost predicate AtMostOneHolder(s: State) {
    forall m, n :: m in s.pc && n in s.pc && Holds(s.pc[m]) && Holds(s.pc[n]) ==> m == n
  }

  ghost predicate Free(s: State) {
    forall n :: n in s.pc ==> !Holds(s.pc[n])
  }

  /** Exactly the suspended agents wait, once each, and nobody suspended was lost or invented. */
  ghost predicate Roster(s: State, line: seq<Node>) {
    && s.next.Keys == s.pc.Keys
    && Distinct(line)
    && (forall n :: n in line <==> n in s.pc && s.pc[n].Suspended?)
    && AtMostOneHolder(s)
    && s.arrived == s.served + line
  }

  /** Memory is the picture v. */
  ghost predicate Shape(s: State, v: View) {
    && Chain(s.next, s.queue, v.q, Null)
    && (Free(s) ==> s.requests.Null? && v == View([], [], []))
    && (forall h :: h in s.pc && Holds(s.pc[h]) ==> HolderShape(s, v, h))
  }

  /** The invariant: memory is the picture v, and v's line is everybody who waits. */
  ghost predicate Good(s: State, v: View) {
    Roster(s, Line(v)) && Shape(s, v)
  }

  function StepView(s: State, v: View, e: Event): View
    requires Enabled(s, e)
  {
    match e.action
    case SubscribeCas => if s.requests.Null? then v else v.(reqs := [e.agent] + v.reqs)
    case Exchange => View([], v.reqs, v.q)
    case MoveOne => if v.seg == [] then v else View(v.reqs, v.seg[1..], [v.seg[0]] + v.q)
    case HandOff => if v.q == [] then v else v.(q := v.q[1..])
    case _ => v
  }

  /** A push puts the newcomer last in line. */
  lemma LinePush(v: View, a: Node)
    ensures Line(v.(reqs := [a] + v.reqs)) == Line(v) + [a]
  {
    assert ([a] + v.reqs)[1..] == v.reqs;
  }

  /** Neither swapping the stack out nor moving a node to the queue changes the line. */
  lemma LineSame(v: View)
    ensures v.seg == [] && v.q == [] ==> Line(View([], v.reqs, v.q)) == Line(v)
    ensures v.seg != [] ==> Line(View(v.reqs, v.seg[1..], [v.seg[0]] + v.q)) == Line(v)
  {
  }

  lemma LineMembers(v: View)
    ensures forall n :: n in Line(v) <==> n in v.reqs || n in v.seg || n in v.q
  {
    ReverseMembers(v.seg);
    ReverseMembers(v.reqs);
  }

  /** One occurrence in a line without repetitions is the only one. */
  lemma DistinctMiddle(before: seq<Node>, x: Node, after: seq<Node>)
    requires Distinct(before + [x] + after)
    ensures x !in before && x !in after
  {
    var s := before + [x] + after;
    assert s[|before|] == x;
    assert forall i :: 0 <= i < |before| ==> s[i] == before[i];
    assert forall i :: 0 <= i < |after| ==> s[|before| + 1 + i] == after[i];
  }

  lemma SegmentHead(v: View)
    requires Distinct(Line(v)) && v.seg != []
    ensures v.seg[0] !in v.seg[1..] && v.seg[0] !in v.q && v.seg[0] !in v.reqs
  {
    var before, after := Reverse(v.seg[1..]), v.q + Reverse(v.reqs);
    assert Line(v) == before + [v.seg[0]] + after;
    DistinctMiddle(before, v.seg[0], after);
    ReverseMembers(v.seg[1..]);
    ReverseMembers(v.reqs);
    assert forall n :: n in v.q || n in Reverse(v.reqs) ==> n in after;
  }

  lemma QueueHead(v: View)
    requires Distinct(Line(v)) && v.seg == [] && v.q != []
    ensures v.q[0] !in v.q[1..] && v.q[0] !in v.reqs
    ensures Line(v) == [v.q[0]] + Line(v.(q := v.q[1..]))
  {
    var after := v.q[1..] + Reverse(v.reqs);
    assert Line(v) == [] + [v.q[0]] + after;
    DistinctMiddle([], v.q[0], after);
    ReverseMembers(v.reqs);
    assert forall n :: n in v.q[1..] || n in Reverse(v.reqs) ==> n in after;
  }

  /** The lock bit: the pointer is null exactly when nobody holds the mutex. */
  lemma LockBit(s: State, v: View)
    requires Shape(s, v)
    ensures s.requests.Null? <==> Free(s)
  {
    if !Free(s) {
      var h :| h in s.pc && Holds(s.pc[h]);
      assert HolderShape(s, v, h);
    }
  }

  /** What the lists say about who is in them. */
  ghost predicate AllWaiting(s: State, v: View) {
    && (forall n :: n in v.reqs ==> n in s.pc && s.pc[n].Suspended?)
    && (forall n :: n in v.seg ==> n in s.pc && s.pc[n].Suspended?)
    && (forall n :: n in v.q ==> n in s.pc && s.pc[n].Suspended?)
  }

  lemma ListsWait(s: State, v: View)
    requires Roster(s, Line(v))
    ensures AllWaiting(s, v)
  {
    LineMembers(v);
  }

  // ---------- The roster, action by action ----------

  /** A step that changes only the program counter of one agent that neither was nor is suspended. */
  lemma RosterGoto(s: State, line: seq<Node>, s': State, a: Node, pc: PC)
    requires Roster(s, line) && a in s.pc && !s.pc[a].Suspended? && !pc.Suspended?
    requires Holds(pc) ==> Holds(s.pc[a]) || Free(s)
    requires s'.pc == s.pc[a := pc] && s'.next.Keys == s.next.Keys
    requires s'.arrived == s.arrived && s'.served == s.served
    ensures Roster(s', line)
  {
  }

  lemma RosterPush(s: State, line: seq<Node>, s': State, a: Node)
    requires Roster(s, line) && a in s.pc && s.pc[a].Contending?
    requires s'.pc == s.pc[a := Suspended] && s'.next.Keys == s.next.Keys
    requires s'.arrived == s.arrived + [a] && s'.served == s.served
    ensures Roster(s', line + [a])
  {
  }

  lemma RosterServe(s: State, line: seq<Node>, s': State, a: Node)
    requires Roster(s, line) && a in s.pc && Holds(s.pc[a]) && line != []
    requires s'.pc == s.pc[a := Idle][line[0] := Owner] && s'.next.Keys == s.next.Keys
    requires s'.arrived == s.arrived && s'.served == s.served + [line[0]]
    ensures Roster(s', line[1..])
  {
    assert line == [line[0]] + line[1..];
    assert line[0] in line;
  }

  // ---------- The shape of memory, action by action ----------

  /** Where the shape of memory is preserved from. */
  ghost predicate StepContext(s: State, v: View, e: Event) {
    && Enabled(s, e) && Shape(s, v) && AllWaiting(s, v) && AtMostOneHolder(s)
    && s.next.Keys == s.pc.Keys
  }

  lemma ShapeTryLock(s: State, v: View, e: Event)
    requires StepContext(s, v, e) && (e.action.TryLock? || e.action.Ready?)
    ensures Shape(Step(s, e), v)
  {
    LockBit(s, v);
    var s', a := Step(s, e), e.agent;
    if s.requests.Null? {
      assert HolderShape(s', v, a);
    } else {
      var h :| h in s.pc && Holds(s.pc[h]);
      assert h in s'.pc && Holds(s'.pc[h]);
      if e.action.Ready? {
        ShapeOtherNext(s, v, h, a, Null);
      }
    }
  }

  lemma ShapeRetry(s: State, v: View, e: Event)
    requires StepContext(s, v, e) && e.action.SubscribeRetry?
    ensures Shape(Step(s, e), v)
  {
    var s', a := Step(s, e), e.agent;
    if !Free(s) {
      var h :| h in s.pc && Holds(s.pc[h]);
      assert h in s'.pc && Holds(s'.pc[h]);
      ShapeOtherNext(s, v, h, a, s.requests);
    }
  }

  /** Writing the next pointer of somebody who neither waits nor holds disturbs nothing. */
  lemma ShapeOtherNext(s: State, v: View, h: Node, x: Node, y: Ptr)
    requires Shape(s, v) && AllWaiting(s, v)
    requires h in s.pc && Holds(s.pc[h]) && x in s.pc && x != h && !s.pc[x].Suspended?
    ensures HolderShape(s.(next := s.next[x := y]), v, h)
    ensures Chain(s.next[x := y], s.queue, v.q, Null)
  {
    assert HolderShape(s, v, h);
    ChainFrame(s.next, x, y, s.queue, v.q, Null);
    match s.pc[h]
    case Won => ChainFrame(s.next, x, y, s.requests, v.reqs, At(h));
    case Reversing(req, purpose) =>
      ChainFrame(s.next, x, y, s.requests, v.reqs, Marker);
      ChainFrame(s.next, x, y, req, v.seg, Stop(h, purpose));
    case _ => ChainFrame(s.next, x, y, s.requests, v.reqs, Marker);
  }

  lemma ShapeCas(s: State, v: View, e: Event)
    requires StepContext(s, v, e) && e.action.SubscribeCas?
    ensures Shape(Step(s, e), StepView(s, v, e))
  {
    LockBit(s, v);
    var s', a := Step(s, e), e.agent;
    if s.requests.Null? {
      assert HolderShape(s', v, a);
    } else {
      var h :| h in s.pc && Holds(s.pc[h]);
      assert h in s'.pc && Holds(s'.pc[h]);
      assert HolderShape(s, v, h);
      assert ([a] + v.reqs)[1..] == v.reqs;
      assert HolderShape(s', StepView(s, v, e), h);
    }
  }

  /** The owner's own step: whoever holds afterwards is the agent that moved. */
  lemma ShapeOfHolder(s: State, v': View, s': State, a: Node)
    requires AtMostOneHolder(s) && a in s.pc && Holds(s.pc[a])
    requires s'.pc.Keys == s.pc.Keys && Holds(s'.pc[a])
    requires forall n :: n in s.pc && n != a ==> s'.pc[n] == s.pc[n]
    requires HolderShape(s', v', a) && Chain(s'.next, s'.queue, v'.q, Null)
    ensures Shape(s', v')
  {
    assert forall h :: h in s'.pc && Holds(s'.pc[h]) ==> h == a;
  }

  lemma ShapeExchange(s: State, v: View, e: Event)
    requires StepContext(s, v, e) && e.action.Exchange?
    ensures v.seg == [] && v.q == []
    ensures Shape(Step(s, e), StepView(s, v, e))
  {
    assert HolderShape(s, v, e.agent);
    ShapeOfHolder(s, StepView(s, v, e), Step(s, e), e.agent);
  }

  lemma ShapeMoveOne(s: State, v: View, e: Event)
    requires StepContext(s, v, e) && e.action.MoveOne? && Distinct(Line(v))
    ensures v.seg != []
    ensures Shape(Step(s, e), StepView(s, v, e))
  {
    var s', v', a := Step(s, e), StepView(s, v, e), e.agent;
    assert HolderShape(s, v, a);
    SegmentHead(v);
    var x := v.seg[0];
    assert s.pc[a].req == At(x);
    ChainFrame(s.next, x, s.queue, s.queue, v.q, Null);
    ChainFrame(s.next, x, s.queue, s.requests, v.reqs, Marker);
    ChainFrame(s.next, x, s.queue, s.next[x], v.seg[1..], Stop(a, s.pc[a].purpose));
    assert v'.q[1..] == v.q;
    assert a != x;
    ShapeOfHolder(s, v', s', a);
  }

  lemma ShapeFinish(s: State, v: View, e: Event)
    requires StepContext(s, v, e) && (e.action.FinishBuild? || e.action.Unlock?)
    ensures Shape(Step(s, e), v)
  {
    assert HolderShape(s, v, e.agent);
    ShapeOfHolder(s, v, Step(s, e), e.agent);
  }

  lemma ShapeUnlockCas(s: State, v: View, e: Event)
    requires StepContext(s, v, e) && e.action.UnlockCas?
    ensures Shape(Step(s, e), v)
    ensures s.requests.Marker? ==> Line(v) == []
  {
    var s', a := Step(s, e), e.agent;
    assert HolderShape(s, v, a);
    if s.requests.Marker? {
      assert forall h :: h in s'.pc ==> !Holds(s'.pc[h]);
    } else {
      ShapeOfHolder(s, v, s', a);
    }
  }

  lemma ShapeHandOff(s: State, v: View, e: Event)
    requires StepContext(s, v, e) && e.action.HandOff? && Distinct(Line(v))
    ensures v.seg == [] && v.q != [] && s.queue == At(v.q[0])
    ensures Shape(Step(s, e), StepView(s, v, e))
  {
    var s', v', a := Step(s, e), StepView(s, v, e), e.agent;
    assert HolderShape(s, v, a);
    QueueHead(v);
    var first := v.q[0];
    ChainFrame(s.next, first, Null, s.next[first], v.q[1..], Null);
    ChainFrame(s.next, first, Null, s.requests, v.reqs, Marker);
    assert first != a;
    assert forall h :: h in s'.pc && Holds(s'.pc[h]) ==> h == first;
    assert HolderShape(s', v', first);
  }

  // ---------- The invariant over every step and every run ----------

  lemma RosterCas(s: State, v: View, e: Event)
    requires Roster(s, Line(v)) && Shape(s, v) && Enabled(s, e) && e.action.SubscribeCas?
    ensures Roster(Step(s, e), Line(StepView(s, v, e)))
    ensures Line(StepView(s, v, e)) == Line(v) + if s.requests.Null? then [] else [e.agent]
  {
    LockBit(s, v);
    var line := Line(v);
    if s.requests.Null? {
      assert line + [] == line;
      RosterGoto(s, line, Step(s, e), e.agent, Won);
    } else {
      LinePush(v, e.agent);
      RosterPush(s, line, Step(s, e), e.agent);
    }
  }

  lemma RosterHandOff(s: State, v: View, e: Event)
    requires Roster(s, Line(v)) && Shape(s, v) && Enabled(s, e) && e.action.HandOff?
    ensures Line(v) != [] && Line(v)[0] == s.queue.node
    ensures Line(StepView(s, v, e)) == Line(v)[1..]
    ensures Roster(Step(s, e), Line(StepView(s, v, e)))
  {
    ListsWait(s, v);
    ShapeHandOff(s, v, e);
    QueueHead(v);
    var line, line' := Line(v), Line(StepView(s, v, e));
    assert line == [v.q[0]] + line';
    RosterServe(s, line, Step(s, e), e.agent);
  }

  lemma RosterRest(s: State, v: View, e: Event)
    requires Roster(s, Line(v)) && Shape(s, v) && Enabled(s, e)
    requires !e.action.SubscribeCas? && !e.action.HandOff?
    ensures Line(StepView(s, v, e)) == Line(v)
    ensures Roster(Step(s, e), Line(v))
  {
    LockBit(s, v);
    LineStays(s, v, e);
    PrivateStep(s, e);
    assert s.next.Keys == s.pc.Keys;
    hide Line, Step, Shape;
    RosterGoto(s, Line(v), Step(s, e), e.agent, Step(s, e).pc[e.agent]);
  }

  lemma LineStays(s: State, v: View, e: Event)
    requires Roster(s, Line(v)) && Shape(s, v) && Enabled(s, e)
    requires !e.action.SubscribeCas? && !e.action.HandOff?
    ensures Line(StepView(s, v, e)) == Line(v)
  {
    ListsWait(s, v);
    if e.action.Exchange? {
      ShapeExchange(s, v, e);
      LineSame(v);
    } else if e.action.MoveOne? {
      ShapeMoveOne(s, v, e);
      LineSame(v);
    }
  }

  /** These steps move one agent, which neither was nor is suspended. */
  lemma PrivateStep(s: State, e: Event)
    requires Enabled(s, e) && !e.action.SubscribeCas? && !e.action.HandOff?
    ensures var s', a := Step(s, e), e.agent;
      && a in s'.pc && s'.pc == s.pc[a := s'.pc[a]] && s'.next.Keys == s.next.Keys
      && s'.arrived == s.arrived && s'.served == s.served
      && !s.pc[a].Suspended? && !s'.pc[a].Suspended?
      && (Holds(s'.pc[a]) ==> Holds(s.pc[a]) || s.requests.Null?)
  {
  }

  /** Every atomic step of every agent keeps the invariant. */
  lemma StepKeepsGood(s: State, v: View, e: Event)
    requires Good(s, v) && Enabled(s, e)
    ensures Good(Step(s, e), StepView(s, v, e))
  {
    ListsWait(s, v);
    if e.action.SubscribeCas? {
      RosterCas(s, v, e);
    } else if e.action.HandOff? {
      RosterHandOff(s, v, e);
    } else {
      RosterRest(s, v, e);
    }
    match e.action
    case TryLock => ShapeTryLock(s, v, e);
    case Ready => ShapeTryLock(s, v, e);
    case SubscribeRetry => ShapeRetry(s, v, e);
    case SubscribeCas => ShapeCas(s, v, e);
    case Exchange => ShapeExchange(s, v, e);
    case MoveOne => ShapeMoveOne(s, v, e);
    case FinishBuild => ShapeFinish(s, v, e);
    case Unlock => ShapeFinish(s, v, e);
    case UnlockCas => ShapeUnlockCas(s, v, e);
    case HandOff => ShapeHandOff(s, v, e);
  }
}
