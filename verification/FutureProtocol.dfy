/**
 One future, its promise objects, any number of subscribers and any number of threads that race to
 resolve it, as interleaved atomic steps. The marker of the awaiter chain is the disabled state.
 */
module FutureProtocol {
  import opened Sequences
  import opened Chains
  import opened Outcomes

  type Place = nat   // a promise object
  type Thread = nat

  /** An awaiter: trying to subscribe, registered, resumed, or told that the result is there. */
  datatype Subscriber = Trying | Waiting | Resumed | Refused

  /** What a call does after it has resolved the future or failed to: return, or go on as the move
      assignment it is part of. */
  datatype Then = Return | MoveFrom(src: Place, dst: Place)

  datatype Call =
    | Resting
    | Claimed(got: bool, outcome: Outcome<int>, cont: Then) // exchanged the promise's pointer for null
    | Resolving(cont: Then)                            // holds the pointer; the result is written
    | Walking(at: Ptr, cont: Then)                     // resumes the detached chain
    | Assigning(src: Place, dst: Place)                 // second half of a move assignment
    | Carrying(got: bool, dst: Place)                   // moves the pointer in a register

  /** The last six fields are records: was the pointer overwritten, did a call that held it throw, how
      often was a result written, how many calls resolved, who subscribed and who was resumed, in
      order. */
  datatype State = State(
    chain: Ptr, result: Outcome<int>, next: map<Node, Ptr>, subs: map<Node, Subscriber>,
    owner: map<Place, bool>, calls: map<Thread, Call>,
    lost: bool, thrown: bool, writes: nat, wins: nat, subscribed: seq<Node>, resumed: seq<Node>)

  datatype Event =
    | CheckReady(n: Node)
    | SubscribeRetry(n: Node)
    | SubscribeCas(n: Node)
    | Set(t: Thread, p: Place, outcome: Outcome<int>)    // set_value, set_exception, drop
    | Construct(t: Thread, src: Place, dst: Place)  // move construction
    | Assign(t: Thread, src: Place, dst: Place)     // move assignment
    | Destroy(t: Thread, p: Place)
    | Write(t: Thread)
    | Throw(t: Thread)                              // constructing the value throws
    | Publish(t: Thread)
    | ResumeOne(t: Thread)
    | Done(t: Thread)
    | TakeSource(t: Thread)
    | Store(t: Thread)

  /** A pending future, the first promise that points to it, and any number of awaiters and threads. */
  predicate Initial(s: State, first: Place) {
    && s.chain.Null? && s.result.NotValue? && s.owner == map[first := true]
    && s.next.Keys == s.subs.Keys
    && (forall n :: n in s.subs ==> s.subs[n].Trying? && s.next[n].Null?)
    && (forall t :: t in s.calls ==> s.calls[t].Resting?)
    && !s.lost && !s.thrown && s.writes == s.wins == 0 && s.subscribed == s.resumed == []
  }

  predicate Enabled(s: State, e: Event) {
    match e
    case CheckReady(n) => n in s.subs && s.subs[n].Trying?
    case SubscribeRetry(n) => n in s.subs && n in s.next && s.subs[n].Trying?
    case SubscribeCas(n) => n in s.subs && n in s.next && s.subs[n].Trying? && s.next[n] == s.chain
    case Set(t, p, _) => t in s.calls && s.calls[t].Resting? && p in s.owner
    case Construct(t, src, dst) =>
      t in s.calls && s.calls[t].Resting? && src in s.owner && dst !in s.owner
    case Assign(t, src, dst) =>
      t in s.calls && s.calls[t].Resting? && src in s.owner && dst in s.owner && src != dst
    case Destroy(t, p) => t in s.calls && s.calls[t].Resting? && p in s.owner
    case Write(t) => t in s.calls && s.calls[t].Claimed?
    case Throw(t) => t in s.calls && s.calls[t].Claimed? && s.calls[t].got && s.calls[t].outcome.Value?
    case Publish(t) => t in s.calls && s.calls[t].Resolving?
    case ResumeOne(t) =>
      t in s.calls && s.calls[t].Walking? && s.calls[t].at.At?
      && s.calls[t].at.node in s.next && s.calls[t].at.node in s.subs
    case Done(t) => t in s.calls && s.calls[t].Walking? && s.calls[t].at.Null?
    case TakeSource(t) => t in s.calls && s.calls[t].Assigning? && s.calls[t].src in s.owner
    case Store(t) => t in s.calls && s.calls[t].Carrying?
  }

  function Goto(s: State, t: Thread, c: Call): State {
    s.(calls := s.calls[t := c])
  }

  function Finish(cont: Then): Call {
    match cont
    case Return => Resting
    case MoveFrom(src, dst) => Assigning(src, dst)
  }

  function Step(s: State, e: Event): State
    requires Enabled(s, e)
  {
    match e
    case CheckReady(n) => if s.chain.Marker? then s.(subs := s.subs[n := Refused]) else s
    case SubscribeRetry(n) =>
      // a failed weak exchange stores the value it saw; the disabled state ends the attempt
      if s.chain.Marker? then s.(next := s.next[n := Null], subs := s.subs[n := Refused])
      else s.(next := s.next[n := s.chain])
    case SubscribeCas(n) =>
      s.(chain := At(n), subs := s.subs[n := Waiting], subscribed := s.subscribed + [n])
    case Set(t, p, outcome) =>
      Goto(s.(owner := s.owner[p := false]), t, Claimed(s.owner[p], outcome, Return))
    case Construct(t, src, dst) =>
      Goto(s.(owner := s.owner[src := false]), t, Carrying(s.owner[src], dst))
    case Assign(t, src, dst) =>
      // operator= drops the target first
      Goto(s.(owner := s.owner[dst := false]), t, Claimed(s.owner[dst], NotValue, MoveFrom(src, dst)))
    case Destroy(t, p) =>
      var s' := s.(owner := s.owner - {p});
      if s.owner[p] then Goto(s', t, Resolving(Return)) else s'
    case Write(t) =>
      var c := s.calls[t];
      if !c.got then Goto(s, t, Finish(c.cont))
      else if c.outcome.NotValue? then Goto(s, t, Resolving(c.cont))
      else Goto(s.(result := c.outcome, writes := s.writes + 1), t, Resolving(c.cont))
    case Throw(t) => Goto(s.(thrown := true), t, Finish(s.calls[t].cont)) // the pointer was local
    case Publish(t) => Goto(s.(chain := Marker), t, Walking(s.chain, s.calls[t].cont))
    case ResumeOne(t) =>
      var c := s.calls[t];
      var y := c.at.node;
      Goto(s.(next := s.next[y := Null], subs := s.subs[y := Resumed], resumed := s.resumed + [y]),
           t, c.(at := s.next[y]))
    case Done(t) => Goto(s.(wins := s.wins + 1), t, Finish(s.calls[t].cont))
    case TakeSource(t) =>
      var c := s.calls[t];
      Goto(s.(owner := s.owner[c.src := false]), t, Carrying(s.owner[c.src], c.dst))
    case Store(t) =>
      var c := s.calls[t];
      Goto(s.(owner := s.owner[c.dst := c.got],
              lost := s.lost || (c.dst in s.owner && s.owner[c.dst])), t, Resting)
  }

  ghost predicate IsRun(s: State, trace: seq<Event>)
    decreases |trace|
  {
    trace == [] || (Enabled(s, trace[0]) && IsRun(Step(s, trace[0]), trace[1..]))
  }

  ghost function After(s: State, trace: seq<Event>): State
    requires IsRun(s, trace)
    decreases |trace|
  {
    if trace == [] then s else After(Step(s, trace[0]), trace[1..])
  }

  predicate Ready(s: State) {
    s.chain.Marker?
  }

  // ---------- The pointer to the future ----------

  datatype Spot = InPromise(p: Place) | InCall(t: Thread)

  predicate HasPointer(s: State, x: Spot) {
    match x
    case InPromise(p) => p in s.owner && s.owner[p]
    case InCall(t) =>
      t in s.calls && (s.calls[t].Resolving? || ((s.calls[t].Claimed? || s.calls[t].Carrying?) && s.calls[t].got))
  }

  /** The pointer is in at most one place; it is nowhere exactly when the future is resolved, a store
      has overwritten it, or a call that held it threw. */
  ghost predicate OnePointer(s: State) {
    && (forall x, y :: HasPointer(s, x) && HasPointer(s, y) ==> x == y)
    && !(Ready(s) && s.lost) && !(Ready(s) && s.thrown) && !(s.lost && s.thrown)
    && (Ready(s) || s.lost || s.thrown <==> forall x :: !HasPointer(s, x))
  }

  /** A result is written at most once, only by the holder of the pointer, and before it resolves. */
  ghost predicate WrittenOnce(s: State) {
    && s.writes == (if s.result.NotValue? then 0 else 1)
    && (s.writes > 0 && !Ready(s) ==> exists t :: t in s.calls && s.calls[t].Resolving?)
  }

  predicate Walker(s: State, t: Thread) {
    t in s.calls && s.calls[t].Walking?
  }

  /** At most one call walks the chain, and only that call will return true. */
  ghost predicate OneWinner(s: State) {
    && (forall t, u :: Walker(s, t) && Walker(s, u) ==> t == u)
    && (!Ready(s) ==> s.wins == 0 && forall t :: !Walker(s, t))
    && (Ready(s) ==> s.wins == if exists t :: Walker(s, t) then 0 else 1)
  }

  /** The pointer stays where it was. */
  ghost predicate Stays(s: State, s': State) {
    forall x :: HasPointer(s', x) <==> HasPointer(s, x)
  }

  ghost predicate Moves(s: State, s': State, from: Spot, to: Spot) {
    HasPointer(s, from) && forall x :: HasPointer(s', x) <==> x == to
  }

  ghost predicate Vanishes(s: State, s': State, from: Spot) {
    HasPointer(s, from) && forall x :: !HasPointer(s', x)
  }

  /** Each step leaves the pointer alone, moves it whole, or loses it: by resolving the future, by
      throwing while it is in the call, or by storing over a promise that had it. */
  lemma PointerStep(s: State, e: Event)
    requires OnePointer(s) && Enabled(s, e)
    ensures var s' := Step(s, e);
      match e
      case Set(t, p, _) =>
        if s.owner[p] then Moves(s, s', InPromise(p), InCall(t)) else Stays(s, s')
      case Construct(t, src, _) =>
        if s.owner[src] then Moves(s, s', InPromise(src), InCall(t)) else Stays(s, s')
      case Assign(t, _, dst) =>
        if s.owner[dst] then Moves(s, s', InPromise(dst), InCall(t)) else Stays(s, s')
      case Destroy(t, p) =>
        if s.owner[p] then Moves(s, s', InPromise(p), InCall(t)) else Stays(s, s')
      case TakeSource(t) =>
        var src := s.calls[t].src;
        if s.owner[src] then Moves(s, s', InPromise(src), InCall(t)) else Stays(s, s')
      case Store(t) =>
        var dst := s.calls[t].dst;
        if s.calls[t].got then Moves(s, s', InCall(t), InPromise(dst))
        else if dst in s.owner && s.owner[dst] then Vanishes(s, s', InPromise(dst))
        else Stays(s, s')
      case Publish(t) => Vanishes(s, s', InCall(t))
      case Throw(t) => Vanishes(s, s', InCall(t))
      case _ => Stays(s, s')
  {
    var s' := Step(s, e);
    match e
    case Set(t, p, _) => Claiming(s, s', p, t);
    case Construct(t, src, _) => Claiming(s, s', src, t);
    case Assign(t, _, dst) => Claiming(s, s', dst, t);
    case Destroy(t, p) => Claiming(s, s', p, t);
    case TakeSource(t) => Claiming(s, s', s.calls[t].src, t);
    case Store(t) => Storing(s, s', t);
    case Publish(t) => Letting(s, s', t);
    case Throw(t) => Letting(s, s', t);
    case _ => PointerStays(s, e);
  }

  // ---------- What each group of steps may change ----------

  /** The steps that only move the pointer between promises and calls. */
  predicate Claims(e: Event) {
    e.Set? || e.Construct? || e.Assign? || e.Destroy? || e.TakeSource? || e.Store?
  }

  /** Those of a call that has claimed the pointer or failed to, short of resuming somebody. */
  predicate Resolves(e: Event) {
    e.Write? || e.Throw? || e.Publish? || e.Done?
  }

  predicate Subscribes(e: Event) {
    e.CheckReady? || e.SubscribeRetry? || e.SubscribeCas?
  }

  lemma ClaimFields(s: State, e: Event)
    requires Enabled(s, e) && Claims(e)
    ensures var s' := Step(s, e);
      && s' == s.(owner := s'.owner, calls := s'.calls, lost := s'.lost)
      && e.t in s.calls && e.t in s'.calls && s'.calls == s.calls[e.t := s'.calls[e.t]]
      && !s.calls[e.t].Walking? && !s'.calls[e.t].Walking?
  {
  }

  lemma WriteFields(s: State, e: Event)
    requires Enabled(s, e) && e.Write?
    ensures var s' := Step(s, e);
      && s' == s.(result := s'.result, writes := s'.writes, calls := s'.calls)
      && e.t in s.calls && e.t in s'.calls && s'.calls == s.calls[e.t := s'.calls[e.t]]
      && !s.calls[e.t].Walking? && !s'.calls[e.t].Walking?
  {
  }

  lemma ResolveFields(s: State, e: Event)
    requires Enabled(s, e) && Resolves(e)
    ensures var s' := Step(s, e);
      && s' == s.(chain := s'.chain, result := s'.result, thrown := s'.thrown, writes := s'.writes,
                  wins := s'.wins, calls := s'.calls)
      && s'.chain == (if e.Publish? then Marker else s.chain) && (!e.Done? ==> s'.wins == s.wins)
      && e.t in s.calls && e.t in s'.calls && s'.calls == s.calls[e.t := s'.calls[e.t]]
      && (e.Write? || e.Throw? ==> !s.calls[e.t].Walking? && !s'.calls[e.t].Walking?)
  {
    if e.Write? {
      WriteFields(s, e);
      hide Step;
    }
  }

  lemma SubscribeFields(s: State, e: Event)
    requires Enabled(s, e) && Subscribes(e)
    ensures var s' := Step(s, e);
      && s' == s.(chain := s'.chain, next := s'.next, subs := s'.subs, subscribed := s'.subscribed)
      && s'.chain == if e.SubscribeCas? then At(e.n) else s.chain
  {
  }

  lemma ResumeFields(s: State, e: Event)
    requires Enabled(s, e) && e.ResumeOne?
    ensures var s' := Step(s, e);
      && s' == s.(next := s'.next, subs := s'.subs, resumed := s'.resumed, calls := s'.calls)
      && e.t in s.calls && e.t in s'.calls && s'.calls == s.calls[e.t := s'.calls[e.t]]
      && s.calls[e.t].Walking? && s'.calls[e.t].Walking?
  {
  }

  /** Subscribing, writing the result and resuming leave the pointer alone. */
  lemma PointerStays(s: State, e: Event)
    requires Enabled(s, e)
    requires e.CheckReady? || e.SubscribeRetry? || e.SubscribeCas? || e.Write? || e.ResumeOne? || e.Done?
    ensures Stays(s, Step(s, e))
  {
    if Subscribes(e) {
      SubscribeFields(s, e);
    } else if e.ResumeOne? {
      ResumeFields(s, e);
    } else {
      ResolveFields(s, e);
      assert HasPointer(Step(s, e), InCall(e.t)) == HasPointer(s, InCall(e.t));
    }
    hide Step;
  }

  /** Exchanging a promise's pointer for null moves the pointer, if any, into the call. */
  lemma Claiming(s: State, s': State, p: Place, t: Thread)
    requires OnePointer(s) && p in s.owner && t in s.calls && !HasPointer(s, InCall(t))
    requires s'.owner == s.owner[p := false] || s'.owner == s.owner - {p}
    requires s'.calls.Keys == s.calls.Keys && HasPointer(s', InCall(t)) == s.owner[p]
    requires forall u :: u in s.calls && u != t ==> s'.calls[u] == s.calls[u]
    ensures if s.owner[p] then Moves(s, s', InPromise(p), InCall(t)) else Stays(s, s')
  {
    forall x | x != InCall(t) && x != InPromise(p)
      ensures HasPointer(s', x) <==> HasPointer(s, x)
    {
    }
    assert !HasPointer(s', InPromise(p));
    if s.owner[p] {
      assert HasPointer(s, InPromise(p));
    }
  }

  /** A call that holds the pointer resolves the future or throws. */
  lemma Letting(s: State, s': State, t: Thread)
    requires OnePointer(s) && HasPointer(s, InCall(t)) && !HasPointer(s', InCall(t))
    requires s'.owner == s.owner && s'.calls.Keys == s.calls.Keys
    requires forall u :: u in s.calls && u != t ==> s'.calls[u] == s.calls[u]
    ensures Vanishes(s, s', InCall(t))
  {
    forall x | x != InCall(t)
      ensures HasPointer(s', x) <==> HasPointer(s, x)
    {
    }
  }

  lemma Storing(s: State, s': State, t: Thread)
    requires OnePointer(s) && t in s.calls && s.calls[t].Carrying?
    requires s'.owner == s.owner[s.calls[t].dst := s.calls[t].got]
    requires s'.calls == s.calls[t := Resting]
    ensures var dst := s.calls[t].dst;
      if s.calls[t].got then Moves(s, s', InCall(t), InPromise(dst))
      else if dst in s.owner && s.owner[dst] then Vanishes(s, s', InPromise(dst))
      else Stays(s, s')
  {
    var dst := s.calls[t].dst;
    forall x | x != InCall(t) && x != InPromise(dst)
      ensures HasPointer(s', x) <==> HasPointer(s, x)
    {
    }
    assert !HasPointer(s', InCall(t));
    assert HasPointer(s', InPromise(dst)) == s.calls[t].got;
    assert HasPointer(s, InCall(t)) == s.calls[t].got;
    assert HasPointer(s, InPromise(dst)) == (dst in s.owner && s.owner[dst]);
  }

  lemma OnePointerStep(s: State, e: Event)
    requires OnePointer(s) && Enabled(s, e) && (e.SubscribeCas? ==> !Ready(s))
    ensures OnePointer(Step(s, e))
  {
    PointerStep(s, e);
    var s' := Step(s, e);
    if e.Store? {
      var t, dst := e.t, s.calls[e.t].dst;
      assert HasPointer(s, InCall(t)) == s.calls[t].got;
      assert HasPointer(s, InPromise(dst)) == (dst in s.owner && s.owner[dst]);
      assert HasPointer(s', InPromise(dst)) == s.calls[t].got;
    } else if e.Publish? || e.Throw? {
      assert HasPointer(s, InCall(e.t));
    } else if Stays(s, s') {
    } else {
      assert exists from, to :: Moves(s, s', from, to);
      var from, to :| Moves(s, s', from, to);
      assert HasPointer(s', to);
    }
  }

  lemma WrittenOnceStep(s: State, e: Event)
    requires OnePointer(s) && WrittenOnce(s) && Enabled(s, e) && (e.SubscribeCas? ==> !Ready(s))
    ensures WrittenOnce(Step(s, e))
  {
    var s' := Step(s, e);
    if s.writes > 0 && !Ready(s) {
      var u :| u in s.calls && s.calls[u].Resolving?;
      assert HasPointer(s, InCall(u));
      if e.Write? {
        assert HasPointer(s, InCall(e.t)) == s.calls[e.t].got;
      }
      assert e.Throw? ==> HasPointer(s, InCall(e.t));
      assert !e.Publish? ==> u in s'.calls && s'.calls[u].Resolving?;
    } else if e.Write? && s.calls[e.t].got {
      assert HasPointer(s, InCall(e.t));
      assert s'.calls[e.t].Resolving?;
    }
  }

  /** Only three steps concern the walk. */
  lemma WalkersStay(s: State, e: Event)
    requires Enabled(s, e) && !e.Publish? && !e.Done? && (e.SubscribeCas? ==> !Ready(s))
    ensures Ready(Step(s, e)) == Ready(s) && Step(s, e).wins == s.wins
    ensures forall t :: Walker(Step(s, e), t) <==> Walker(s, t)
  {
    if Claims(e) {
      ClaimFields(s, e);
    } else if Subscribes(e) {
      SubscribeFields(s, e);
    } else if e.ResumeOne? {
      ResumeFields(s, e);
    } else {
      ResolveFields(s, e);
    }
    hide Step;
  }

  lemma WalkersElsewhere(s: State, e: Event, t: Thread)
    requires Enabled(s, e) && (e == Publish(t) || e == Done(t) || e == ResumeOne(t))
    ensures forall u :: u != t ==> (Walker(Step(s, e), u) <==> Walker(s, u))
  {
  }

  lemma OneWinnerStep(s: State, e: Event)
    requires OnePointer(s) && OneWinner(s) && Enabled(s, e) && (e.SubscribeCas? ==> !Ready(s))
    ensures OneWinner(Step(s, e))
  {
    var s' := Step(s, e);
    if e.Publish? {
      assert HasPointer(s, InCall(e.t));
      WalkersElsewhere(s, e, e.t);
      assert Walker(s', e.t);
    } else if e.Done? {
      assert Walker(s, e.t);
      WalkersElsewhere(s, e, e.t);
      assert !Walker(s', e.t);
    } else {
      WalkersStay(s, e);
      hide Step, Walker;
    }
  }

  // ---------- Waking up the subscribers ----------

  /** rest is who still waits, newest first: on the chain before the future is resolved, and in the
      hands of the resolving call afterwards. */
  ghost predicate Wakeups(s: State, rest: seq<Node>) {
    && s.next.Keys == s.subs.Keys
    && Distinct(s.subscribed)
    && Reverse(s.subscribed) == s.resumed + rest
    && (forall n :: n in rest <==> n in s.subs && s.subs[n].Waiting?)
    && (forall n :: n in s.resumed <==> n in s.subs && s.subs[n].Resumed?)
    && (forall n :: n in s.subs && s.subs[n].Trying? ==> !s.next[n].Marker?)
    && (forall n :: n in s.subs && s.subs[n].Refused? ==> Ready(s))
  }

  ghost predicate OnChain(s: State, rest: seq<Node>) {
    && (!Ready(s) ==> s.resumed == [] && Chain(s.next, s.chain, rest, Null))
    && (Ready(s) ==>
          && (forall t :: Walker(s, t) ==> Chain(s.next, s.calls[t].at, rest, Null))
          && ((forall t :: !Walker(s, t)) ==> rest == []))
  }

  ghost predicate Good(s: State, rest: seq<Node>) {
    OnePointer(s) && WrittenOnce(s) && OneWinner(s) && Wakeups(s, rest) && OnChain(s, rest)
  }

  function StepRest(rest: seq<Node>, e: Event): seq<Node> {
    match e
    case SubscribeCas(n) => [n] + rest
    case ResumeOne(_) => if rest == [] then [] else rest[1..]
    case _ => rest
  }

  /** A subscription can succeed only before the future is resolved. */
  lemma CasBeforeReady(s: State, rest: seq<Node>, e: Event)
    requires Wakeups(s, rest) && Enabled(s, e) && e.SubscribeCas?
    ensures !Ready(s)
  {
  }

  lemma WakeupsCas(s: State, rest: seq<Node>, n: Node)
    requires Wakeups(s, rest) && Enabled(s, SubscribeCas(n)) && s.resumed == []
    ensures Wakeups(Step(s, SubscribeCas(n)), [n] + rest)
  {
    ReverseConcat(s.subscribed, [n]);
    assert Reverse([n]) == [n];
    ReverseMembers(s.subscribed);
    assert s.resumed + rest == rest;
    assert n !in s.subscribed;
  }

  lemma WakeupsResume(s: State, rest: seq<Node>, t: Thread)
    requires Wakeups(s, rest) && Enabled(s, ResumeOne(t)) && rest != [] && s.calls[t].at == At(rest[0])
    ensures Wakeups(Step(s, ResumeOne(t)), rest[1..])
  {
    ResumeLists(s.subscribed, s.resumed, rest);
    hide Reverse, Distinct;
  }

  /** The first who waits becomes the last who was resumed. */
  lemma ResumeLists(subscribed: seq<Node>, resumed: seq<Node>, rest: seq<Node>)
    requires Distinct(subscribed) && Reverse(subscribed) == resumed + rest && rest != []
    ensures Reverse(subscribed) == (resumed + [rest[0]]) + rest[1..]
    ensures rest[0] !in resumed && rest[0] !in rest[1..]
    ensures forall n :: n in rest[1..] <==> n in rest && n != rest[0]
  {
    DistinctReverse(subscribed);
    DistinctAt(resumed + rest, |resumed|);
    assert (resumed + rest)[|resumed|] == rest[0];
    assert (resumed + rest)[|resumed| + 1..] == rest[1..];
    assert (resumed + rest)[..|resumed|] == resumed;
    assert rest == [rest[0]] + rest[1..];
  }

  lemma WakeupsQuiet(s: State, rest: seq<Node>, e: Event)
    requires Wakeups(s, rest) && Enabled(s, e) && !e.SubscribeCas? && !e.ResumeOne?
    ensures Wakeups(Step(s, e), rest)
  {
    if e.CheckReady? || e.SubscribeRetry? {
      TryingFields(s, e);
      hide Wakeups, Step;
      WakeupsFrame(s, Step(s, e), rest, e.n);
    } else {
      ResolverFields(s, e);
      hide Step;
    }
  }

  /** What somebody who tries to subscribe does before the exchange succeeds. */
  lemma TryingFields(s: State, e: Event)
    requires Enabled(s, e) && (e.CheckReady? || e.SubscribeRetry?)
    ensures var s' := Step(s, e);
      && s'.subscribed == s.subscribed && s'.resumed == s.resumed && s'.chain == s.chain
      && (s'.subs == s.subs || (s'.subs == s.subs[e.n := Refused] && Ready(s)))
      && (s'.next == s.next
          || (e.n in s'.next && s'.next == s.next[e.n := s'.next[e.n]]
              && (s'.subs[e.n].Trying? ==> !s'.next[e.n].Marker?)))
  {
  }

  /** What promises and resolving calls do short of resuming somebody: nothing to subscribers. */
  lemma ResolverFields(s: State, e: Event)
    requires Enabled(s, e)
    requires !e.CheckReady? && !e.SubscribeRetry? && !e.SubscribeCas? && !e.ResumeOne?
    ensures var s' := Step(s, e);
      && s'.subs == s.subs && s'.next == s.next
      && s'.subscribed == s.subscribed && s'.resumed == s.resumed
      && (Ready(s) ==> Ready(s'))
  {
    if Claims(e) {
      ClaimFields(s, e);
    } else {
      ResolveFields(s, e);
    }
    hide Step;
  }

  /** A step of somebody who is still trying. */
  lemma WakeupsFrame(s: State, s': State, rest: seq<Node>, n: Node)
    requires Wakeups(s, rest) && n in s.subs && s.subs[n].Trying?
    requires s'.subs == s.subs || (s'.subs == s.subs[n := Refused] && Ready(s))
    requires s'.chain == s.chain
    requires s'.next == s.next
      || (n in s'.next && s'.next == s.next[n := s'.next[n]] && (s'.subs[n].Trying? ==> !s'.next[n].Marker?))
    requires s'.subscribed == s.subscribed && s'.resumed == s.resumed
    ensures Wakeups(s', rest)
  {
    hide Reverse, Distinct;
  }

  lemma OnChainStep(s: State, rest: seq<Node>, e: Event)
    requires Good(s, rest) && Enabled(s, e)
    ensures OnChain(Step(s, e), StepRest(rest, e))
    ensures e.SubscribeCas? ==> s.resumed == []
    ensures e.ResumeOne? ==> rest != [] && s.calls[e.t].at == At(rest[0])
  {
    match e
    case SubscribeRetry(n) => OnChainWrite(s, rest, n, if Ready(s) then Null else s.chain, Step(s, e));
    case SubscribeCas(n) => OnChainCas(s, rest, n);
    case Publish(t) => OnChainPublish(s, rest, t);
    case ResumeOne(t) => OnChainResume(s, rest, t);
    case Done(t) => OnChainDone(s, rest, t);
    case _ => OnChainQuiet(s, rest, e);
  }

  lemma OnChainCas(s: State, rest: seq<Node>, n: Node)
    requires Wakeups(s, rest) && OneWinner(s) && OnChain(s, rest) && Enabled(s, SubscribeCas(n))
    ensures OnChain(Step(s, SubscribeCas(n)), [n] + rest) && s.resumed == []
  {
    CasBeforeReady(s, rest, SubscribeCas(n));
    assert ([n] + rest)[1..] == rest;
  }

  lemma OnChainPublish(s: State, rest: seq<Node>, t: Thread)
    requires OnePointer(s) && OneWinner(s) && OnChain(s, rest) && Enabled(s, Publish(t))
    ensures OnChain(Step(s, Publish(t)), rest)
  {
    assert HasPointer(s, InCall(t));
    var s' := Step(s, Publish(t));
    assert Walker(s', t);
    WalkersElsewhere(s, Publish(t), t);
  }

  lemma OnChainDone(s: State, rest: seq<Node>, t: Thread)
    requires OneWinner(s) && OnChain(s, rest) && Enabled(s, Done(t))
    ensures OnChain(Step(s, Done(t)), rest)
  {
    assert Walker(s, t);
  }

  /** Steps that touch neither the chain nor a walk. */
  lemma OnChainQuiet(s: State, rest: seq<Node>, e: Event)
    requires OnChain(s, rest) && Enabled(s, e)
    requires !e.SubscribeRetry? && !e.SubscribeCas? && !e.Publish? && !e.ResumeOne? && !e.Done?
    ensures OnChain(Step(s, e), rest)
  {
    WalkersStay(s, e);
    QuietWalk(s, e);
    hide Step;
  }

  lemma QuietWalk(s: State, e: Event)
    requires Enabled(s, e)
    requires !e.SubscribeRetry? && !e.SubscribeCas? && !e.Publish? && !e.ResumeOne? && !e.Done?
    ensures var s' := Step(s, e);
      && s'.chain == s.chain && s'.next == s.next && s'.resumed == s.resumed
      && forall t :: Walker(s, t) ==> t in s'.calls && s'.calls[t] == s.calls[t]
  {
    if Claims(e) {
      ClaimFields(s, e);
      hide Step;
    } else if !e.CheckReady? {
      ResolveFields(s, e);
      hide Step;
    }
  }

  /** Writing the next pointer of somebody who does not wait. */
  lemma OnChainWrite(s: State, rest: seq<Node>, n: Node, y: Ptr, s': State)
    requires OnChain(s, rest) && n !in rest
    requires s'.chain == s.chain && s'.next == s.next[n := y] && s'.resumed == s.resumed
    requires s'.calls == s.calls
    ensures OnChain(s', rest)
  {
    if Ready(s) {
      forall t | Walker(s, t)
        ensures Chain(s'.next, s.calls[t].at, rest, Null)
      {
        ChainFrame(s.next, n, y, s.calls[t].at, rest, Null);
      }
    } else {
      ChainFrame(s.next, n, y, s.chain, rest, Null);
    }
    assert forall t :: Walker(s', t) <==> Walker(s, t);
  }

  lemma OnChainResume(s: State, rest: seq<Node>, t: Thread)
    requires Good(s, rest) && Enabled(s, ResumeOne(t))
    ensures rest != [] && s.calls[t].at == At(rest[0])
    ensures OnChain(Step(s, ResumeOne(t)), rest[1..])
  {
    var s' := Step(s, ResumeOne(t));
    assert Walker(s, t);
    var y := rest[0];
    assert y !in rest[1..] by {
      DistinctReverse(s.subscribed);
      DistinctAt(Reverse(s.subscribed), |s.resumed|);
      assert (s.resumed + rest)[|s.resumed| + 1..] == rest[1..];
    }
    ChainFrame(s.next, y, Null, s.next[y], rest[1..], Null);
    assert Walker(s, t) && Walker(s', t);
    WalkersElsewhere(s, ResumeOne(t), t);
  }

  /** Every step of everybody keeps the invariant. */
  lemma StepKeepsGood(s: State, rest: seq<Node>, e: Event)
    requires Good(s, rest) && Enabled(s, e)
    ensures Good(Step(s, e), StepRest(rest, e))
  {
    if e.SubscribeCas? {
      CasBeforeReady(s, rest, e);
    }
    OnePointerStep(s, e);
    WrittenOnceStep(s, e);
    OneWinnerStep(s, e);
    OnChainStep(s, rest, e);
    match e
    case SubscribeCas(n) => WakeupsCas(s, rest, n);
    case ResumeOne(t) => WakeupsResume(s, rest, t);
    case _ => WakeupsQuiet(s, rest, e);
  }

  lemma {:induction false} RunKeepsGood(s: State, rest: seq<Node>, trace: seq<Event>)
    returns (rest': seq<Node>)
    requires Good(s, rest) && IsRun(s, trace)
    ensures Good(After(s, trace), rest')
    decreases |trace|
  {
    rest' := rest;
    if trace != [] {
      StepKeepsGood(s, rest, trace[0]);
      hide Good;
      rest' := RunKeepsGood(Step(s, trace[0]), StepRest(rest, trace[0]), trace[1..]);
    }
  }
}
