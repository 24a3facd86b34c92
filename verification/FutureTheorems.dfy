/** What a future and its promises guarantee over every interleaving. */
module FutureTheorems {
  import opened Sequences
  import opened Chains
  import opened Outcomes
  import opened FutureProtocol

  lemma InitGood(s: State, first: Place)
    requires Initial(s, first)
    ensures Good(s, [])
  {
    assert HasPointer(s, InPromise(first));
  }

  /** Every awaiter that subscribed waits or was resumed, never twice, newest first: the resumed ones
      followed by the waiting ones are the reverse of the order of subscription. Once the resolving
      call has returned, everybody who subscribed has been resumed. An awaiter that was refused is
      in neither list, and the future is ready. */
  lemma ExactlyOnceWakeup(s: State, first: Place, trace: seq<Event>)
    returns (rest: seq<Node>)
    requires Initial(s, first) && IsRun(s, trace)
    ensures var t := After(s, trace);
      && Wakeups(t, rest)
      && (forall n :: n in t.subs && t.subs[n].Refused? ==>
            Ready(t) && n !in t.resumed && n !in rest)
      && (!Ready(t) ==> t.resumed == [] && Chain(t.next, t.chain, rest, Null))
      && (t.wins > 0 ==> t.resumed == Reverse(t.subscribed))
  {
    InitGood(s, first);
    hide *;
    rest := RunKeepsGood(s, [], trace);
    AllAwake(After(s, trace), rest);
  }

  lemma AllAwake(t: State, rest: seq<Node>)
    requires Good(t, rest)
    ensures Wakeups(t, rest)
    ensures forall n :: n in t.subs && t.subs[n].Refused? ==> Ready(t) && n !in t.resumed && n !in rest
    ensures !Ready(t) ==> t.resumed == [] && Chain(t.next, t.chain, rest, Null)
    ensures t.wins > 0 ==> t.resumed == Reverse(t.subscribed)
  {
    if t.wins > 0 {
      assert rest == [];
      assert t.resumed + [] == t.resumed;
    }
  }

  /** Over any mix of setting, dropping, moving and destroying promises: the pointer to the future is
      in at most one place, at most one call returns true, the result is written at most once and
      only before the future becomes ready, and then it is what the one call that found the pointer in
      order to resolve the future came with. */
  lemma PromiseRace(s: State, first: Place, trace: seq<Event>)
    requires Initial(s, first) && IsRun(s, trace)
    ensures var t := After(s, trace);
      && (forall x, y :: HasPointer(t, x) && HasPointer(t, y) ==> x == y)
      && (Ready(t) || t.lost || t.thrown <==> forall x :: !HasPointer(t, x))
      && !(Ready(t) && t.lost) && !(Ready(t) && t.thrown) && !(t.lost && t.thrown)
      && t.writes <= 1 && t.wins <= 1
      && (t.wins == 1 ==> Ready(t))
      && (!t.result.NotValue? ==> Ready(t) || exists u :: u in t.calls && t.calls[u].Resolving?)
      && (Ready(t) ==> |Resolutions(s, trace)| == 1 && Resolutions(s, trace)[0].outcome == t.result)
  {
    InitGood(s, first);
    ResultIsTheWinners(s, first, trace);
    var rest := RunKeepsGood(s, [], trace);
  }

  /** The assertion in future::set, that no value has been set before, cannot fail; and a call that
      took the pointer finds a future that is not resolved yet. */
  lemma SetFindsNoValue(s: State, rest: seq<Node>, t: Thread)
    requires Good(s, rest) && t in s.calls && s.calls[t].Claimed? && s.calls[t].got
    ensures s.result.NotValue? && s.writes == 0 && !Ready(s)
  {
    assert HasPointer(s, InCall(t));
    if s.writes > 0 {
      var u :| u in s.calls && s.calls[u].Resolving?;
      assert HasPointer(s, InCall(u));
    }
  }

  /** ready() is final: from then on, in every continuation, the future stays ready, its result never
      changes and no subscription succeeds. */
  lemma {:induction false} ReadyIsFinal(s: State, rest: seq<Node>, trace: seq<Event>)
    requires Good(s, rest) && Ready(s) && IsRun(s, trace)
    ensures var t := After(s, trace);
      Ready(t) && t.result == s.result && t.writes == s.writes && t.subscribed == s.subscribed
    decreases |trace|
  {
    if trace != [] {
      var e := trace[0];
      StepKeepsGood(s, rest, e);
      if e.SubscribeCas? {
        CasBeforeReady(s, rest, e);
      } else if e.Write? && s.calls[e.t].got {
        SetFindsNoValue(s, rest, e.t);
      }
      ReadyFinalStep(s, e);
      hide Good, Step;
      ReadyIsFinal(Step(s, e), StepRest(rest, e), trace[1..]);
    }
  }

  lemma ReadyFinalStep(s: State, e: Event)
    requires Enabled(s, e) && Ready(s) && !e.SubscribeCas? && !(e.Write? && s.calls[e.t].got)
    ensures Ready(Step(s, e)) && Step(s, e).result == s.result
    ensures Step(s, e).writes == s.writes && Step(s, e).subscribed == s.subscribed
  {
  }

  // ---------- Whose outcome it is ----------

  /** A call that found the pointer in order to resolve the future, and what it came with: a value, an
      exception, or nothing when a promise is dropped, assigned to or destroyed. */
  datatype Resolution = Resolution(call: Thread, outcome: Outcome<int>)

  function Claim(s: State, e: Event): seq<Resolution>
    requires Enabled(s, e)
  {
    match e
    case Set(t, p, outcome) => if s.owner[p] then [Resolution(t, outcome)] else []
    case Assign(t, _, dst) => if s.owner[dst] then [Resolution(t, NotValue)] else []
    case Destroy(t, p) => if s.owner[p] then [Resolution(t, NotValue)] else []
    case _ => []
  }

  ghost function Resolutions(s: State, trace: seq<Event>): seq<Resolution>
    requires IsRun(s, trace)
    decreases |trace|
  {
    if trace == [] then []
    else Claim(s, trace[0]) + Resolutions(Step(s, trace[0]), trace[1..])
  }

  /** What must have been recorded while the pointer is at a place. */
  function Recorded(s: State, x: Spot): seq<Resolution>
    requires HasPointer(s, x)
  {
    match x
    case InPromise(_) => []
    case InCall(t) =>
      match s.calls[t]
      case Claimed(_, outcome, _) => [Resolution(t, outcome)]
      case Resolving(_) => [Resolution(t, s.result)]
      case _ => []
  }

  ghost predicate Told(s: State, rs: seq<Resolution>) {
    && |rs| <= 1
    && (forall x :: HasPointer(s, x) ==> rs == Recorded(s, x))
    && (Ready(s) ==> |rs| == 1 && rs[0].outcome == s.result)
    && (forall t :: Walker(s, t) ==> |rs| == 1 && rs[0].call == t)
  }

  /** A pointer in a promise or in a call that has just claimed it means that nothing was written. */
  lemma NothingWritten(s: State, x: Spot)
    requires OnePointer(s) && WrittenOnce(s) && HasPointer(s, x)
    requires x.InCall? ==> !s.calls[x.t].Resolving?
    ensures s.result.NotValue?
  {
    if s.writes > 0 {
      var u :| u in s.calls && s.calls[u].Resolving?;
      assert HasPointer(s, InCall(u));
    }
  }

  /** The pointer leaves a promise: a claim that is going to resolve is recorded. */
  lemma ToldClaim(s: State, e: Event, p: Place, rs: seq<Resolution>)
    requires OnePointer(s) && WrittenOnce(s) && Told(s, rs) && Enabled(s, e) && Claims(e) && !e.Store?
    requires Moves(s, Step(s, e), InPromise(p), InCall(e.t)) && HasPointer(Step(s, e), InCall(e.t))
    ensures Told(Step(s, e), rs + Claim(s, e))
  {
    WalkersStay(s, e);
    NothingWritten(s, InPromise(p));
    assert rs == [];
    assert Recorded(Step(s, e), InCall(e.t)) == Claim(s, e);
  }

  /** The pointer stays where it is, and nothing is recorded. */
  lemma ToldStays(s: State, e: Event, rs: seq<Resolution>)
    requires Told(s, rs) && Enabled(s, e) && !e.Publish? && !e.Write? && (e.SubscribeCas? ==> !Ready(s))
    requires Stays(s, Step(s, e)) && Step(s, e).result == s.result
    requires forall u :: u in s.calls && HasPointer(s, InCall(u)) ==>
      u in Step(s, e).calls && Step(s, e).calls[u] == s.calls[u]
    requires forall u :: Walker(Step(s, e), u) ==> Walker(s, u)
    ensures Told(Step(s, e), rs)
  {
    var s' := Step(s, e);
    assert Ready(s') == Ready(s);
    forall x | HasPointer(s', x)
      ensures rs == Recorded(s', x)
    {
      assert HasPointer(s, x);
    }
  }

  lemma ToldWrite(s: State, t: Thread, rs: seq<Resolution>)
    requires OnePointer(s) && WrittenOnce(s) && Told(s, rs) && Enabled(s, Write(t))
    ensures Told(Step(s, Write(t)), rs)
  {
    var s' := Step(s, Write(t));
    PointerStep(s, Write(t));
    WalkersStay(s, Write(t));
    if s.calls[t].got {
      assert HasPointer(s, InCall(t));
      NothingWritten(s, InCall(t));
      assert Recorded(s', InCall(t)) == rs;
    }
    forall x | HasPointer(s', x)
      ensures rs == Recorded(s', x)
    {
      assert HasPointer(s, x);
    }
  }

  lemma ToldPublish(s: State, t: Thread, rs: seq<Resolution>)
    requires OnePointer(s) && OneWinner(s) && Told(s, rs) && Enabled(s, Publish(t))
    ensures Told(Step(s, Publish(t)), rs)
  {
    assert HasPointer(s, InCall(t));
    PointerStep(s, Publish(t));
    WalkersElsewhere(s, Publish(t), t);
  }

  /** A move puts the pointer into its target, or overwrites it there. */
  lemma ToldStore(s: State, t: Thread, rs: seq<Resolution>)
    requires OnePointer(s) && Told(s, rs) && Enabled(s, Store(t)) && !Stays(s, Step(s, Store(t)))
    ensures Told(Step(s, Store(t)), rs)
  {
    PointerStep(s, Store(t));
    WalkersStay(s, Store(t));
    assert s.calls[t].got ==> HasPointer(s, InCall(t));
  }

  lemma StaysFields(s: State, rest: seq<Node>, e: Event)
    requires OnePointer(s) && Wakeups(s, rest) && Enabled(s, e) && !e.Write? && Stays(s, Step(s, e))
    ensures Claim(s, e) == [] && !e.Publish? && Step(s, e).result == s.result && (e.SubscribeCas? ==> !Ready(s))
    ensures forall u :: u in s.calls && HasPointer(s, InCall(u)) ==>
      u in Step(s, e).calls && Step(s, e).calls[u] == s.calls[u]
    ensures forall u :: Walker(Step(s, e), u) ==> Walker(s, u)
  {
    if Claims(e) {
      ClaimFields(s, e);
      WalkersStay(s, e);
      NoClaim(s, e);
    } else if Subscribes(e) {
      SubscribeFields(s, e);
    } else if e.ResumeOne? {
      ResumeFields(s, e);
    } else {
      ResolveFields(s, e);
      assert !e.Done? ==> HasPointer(s, InCall(e.t));
      NotResolved(s, e);
    }
    hide Step;
  }

  lemma NoClaim(s: State, e: Event)
    requires OnePointer(s) && Enabled(s, e) && Claims(e) && Stays(s, Step(s, e))
    ensures Claim(s, e) == [] && (HasPointer(s, InCall(e.t)) ==> Step(s, e).calls[e.t] == s.calls[e.t])
  {
    PointerStep(s, e);
    match e
    case Set(_, p, _) => assert HasPointer(s, InPromise(p)) == s.owner[p];
    case Assign(_, _, dst) => assert HasPointer(s, InPromise(dst)) == s.owner[dst];
    case Destroy(_, p) => assert HasPointer(s, InPromise(p)) == s.owner[p];
    case Store(t) => assert HasPointer(s, InCall(t)) == s.calls[t].got;
    case _ =>
  }

  lemma NotResolved(s: State, e: Event)
    requires OnePointer(s) && Enabled(s, e) && Resolves(e) && !e.Write? && Stays(s, Step(s, e))
    ensures e.Done? && Step(s, e).result == s.result
  {
    PointerStep(s, e);
  }

  lemma ToldMoves(s: State, e: Event, rs: seq<Resolution>)
    requires OnePointer(s) && WrittenOnce(s) && OneWinner(s) && Told(s, rs) && Enabled(s, e)
    requires !Stays(s, Step(s, e)) && !e.Write?
    ensures Told(Step(s, e), rs + Claim(s, e))
  {
    assert rs + [] == rs;
    PointerStep(s, e);
    match e
    case Set(_, p, _) => ToldClaim(s, e, p, rs);
    case Construct(_, src, _) => ToldClaim(s, e, src, rs);
    case Assign(_, _, dst) => ToldClaim(s, e, dst, rs);
    case Destroy(_, p) => ToldClaim(s, e, p, rs);
    case TakeSource(t) => ToldClaim(s, e, s.calls[t].src, rs);
    case Store(t) => ToldStore(s, t, rs);
    case Publish(t) => ToldPublish(s, t, rs);
    case Throw(t) => WalkersStay(s, e);
    case _ =>
  }

  lemma ToldStep(s: State, rest: seq<Node>, e: Event, rs: seq<Resolution>)
    requires Good(s, rest) && Told(s, rs) && Enabled(s, e)
    ensures Told(Step(s, e), rs + Claim(s, e))
  {
    hide Told, OnePointer, WrittenOnce, OneWinner, Wakeups, OnChain, Step, Stays;
    if e.Write? {
      ToldWrite(s, e.t, rs);
      assert Claim(s, e) == [];
    } else if Stays(s, Step(s, e)) {
      StaysFields(s, rest, e);
      ToldStays(s, e, rs);
    } else {
      ToldMoves(s, e, rs);
    }
    assert rs + [] == rs;
  }

  lemma {:induction false} ToldRun(s: State, rest: seq<Node>, trace: seq<Event>, rs: seq<Resolution>)
    requires Good(s, rest) && Told(s, rs) && IsRun(s, trace)
    ensures Told(After(s, trace), rs + Resolutions(s, trace))
    decreases |trace|
  {
    if trace == [] {
      assert rs + [] == rs;
    } else {
      StepKeepsGood(s, rest, trace[0]);
      ToldStep(s, rest, trace[0], rs);
      var t, more := Step(s, trace[0]), Claim(s, trace[0]);
      assert After(s, trace) == After(t, trace[1..]);
      assert Resolutions(s, trace) == more + Resolutions(t, trace[1..]);
      assert IsRun(t, trace[1..]);
      hide *;
      ToldRun(t, StepRest(rest, trace[0]), trace[1..], rs + more);
      assert rs + (more + Resolutions(t, trace[1..])) == rs + more + Resolutions(t, trace[1..]);
    }
  }

  /** In every run at most one call finds the pointer in order to resolve the future, and when the
      future is ready, that call's outcome is the result: what it was set to, or no value when a promise
      was dropped, assigned to or destroyed. No other call's outcome shows, and only that call walks
      the chain and reports success. */
  lemma ResultIsTheWinners(s: State, first: Place, trace: seq<Event>)
    requires Initial(s, first) && IsRun(s, trace)
    ensures var t, rs := After(s, trace), Resolutions(s, trace);
      && |rs| <= 1
      && (Ready(t) ==> |rs| == 1 && rs[0].outcome == t.result)
      && (forall u :: u in t.calls && t.calls[u].Walking? ==> |rs| == 1 && rs[0].call == u)
      && (forall u :: u in t.calls && t.calls[u].Claimed? && t.calls[u].got ==>
            rs == [Resolution(u, t.calls[u].outcome)])
  {
    InitGood(s, first);
    NothingTold(s, first);
    hide *;
    ToldRun(s, [], trace, []);
    assert [] + Resolutions(s, trace) == Resolutions(s, trace);
    ToldMeans(After(s, trace), Resolutions(s, trace));
  }

  lemma NothingTold(s: State, first: Place)
    requires Initial(s, first)
    ensures Told(s, [])
  {
  }

  lemma ToldMeans(t: State, rs: seq<Resolution>)
    requires Told(t, rs)
    ensures |rs| <= 1 && (Ready(t) ==> |rs| == 1 && rs[0].outcome == t.result)
    ensures forall u :: u in t.calls && t.calls[u].Walking? ==> |rs| == 1 && rs[0].call == u
    ensures forall u :: u in t.calls && t.calls[u].Claimed? && t.calls[u].got ==>
      rs == [Resolution(u, t.calls[u].outcome)]
  {
    assert forall u :: u in t.calls && t.calls[u].Walking? ==> Walker(t, u);
    assert forall u :: u in t.calls && t.calls[u].Claimed? && t.calls[u].got ==> HasPointer(t, InCall(u));
  }

  // ---------- How a call goes on ----------

  /** What a call does once the future is resolved, or somebody else has done it. */
  function Aim(c: Call): Then {
    match c
    case Claimed(_, _, cont) => cont
    case Resolving(cont) => cont
    case Walking(_, cont) => cont
    case Assigning(src, dst) => MoveFrom(src, dst)
    case _ => Return
  }

  /** A call keeps its aim to the end: when it has resolved the future or failed to, an assignment goes
      on with its own two promises and any other call returns. A promise is gone once destroyed. */
  lemma CallGoesOn(s: State, e: Event)
    requires Enabled(s, e) && !Subscribes(e)
    ensures e.t in s.calls && e.t in Step(s, e).calls
    ensures var s', c, c' := Step(s, e), s.calls[e.t], Step(s, e).calls[e.t];
      match e
      case Assign(_, src, dst) => c'.Claimed? && Aim(c') == MoveFrom(src, dst)
      case Set(_, _, _) => c'.Claimed? && Aim(c') == Return
      case Destroy(_, p) => (if s.owner[p] then c'.Resolving? else c'.Resting?) && Aim(c') == Return
      case Construct(_, _, dst) => c'.Carrying? && c'.dst == dst
      case Write(_) => Aim(c') == Aim(c) && if c.got then c'.Resolving? else c'.Resting? || c'.Assigning?
      case Throw(_) => Aim(c') == Aim(c) && (c'.Resting? || c'.Assigning?)
      case Publish(_) => Aim(c') == Aim(c) && c'.Walking? && c'.at == s.chain
      case ResumeOne(_) =>
        Aim(c') == Aim(c) && c'.Walking? && c'.at == s.next[c.at.node] && s'.next == s.next[c.at.node := Null]
      case Done(_) => Aim(c') == Aim(c) && (c'.Resting? || c'.Assigning?)
      case TakeSource(_) => c'.Carrying? && Aim(c) == MoveFrom(c.src, c'.dst)
      case Store(_) => c'.Resting?
  {
  }

  /** Which promises exist: construction and storing add one, only destruction removes one. */
  lemma PromisesExist(s: State, e: Event)
    requires Enabled(s, e)
    ensures Step(s, e).owner.Keys ==
      match e
      case Destroy(_, p) => s.owner.Keys - {p}
      case Store(t) => s.owner.Keys + {s.calls[t].dst}
      case _ => s.owner.Keys
  {
  }

  /** Whoever tries to subscribe is refused exactly when the future is ready, and otherwise succeeds
      right after a failed exchange if nobody else comes between. */
  lemma RetrySucceeds(s: State, n: Node)
    requires Enabled(s, SubscribeRetry(n)) && n in s.subs
    ensures var s' := Step(s, SubscribeRetry(n));
      if Ready(s) then n in s'.subs && s'.subs[n].Refused? && s'.next == s.next[n := Null]
      else Enabled(s', SubscribeCas(n))
    ensures var s' := Step(s, CheckReady(n)); n in s'.subs && (s'.subs[n].Refused? <==> Ready(s))
  {
  }

  // ---------- When a future is abandoned ----------

  /** A store finds that its target holds the pointer, and overwrites it. */
  predicate StoreOverwrites(s: State, e: Event)
    requires Enabled(s, e)
  {
    e.Store? && var dst := s.calls[e.t].dst; dst in s.owner && s.owner[dst]
  }

  /** Some store of the run does. */
  ghost predicate Overwrites(s: State, trace: seq<Event>)
    requires IsRun(s, trace)
    decreases |trace|
  {
    trace != [] && (StoreOverwrites(s, trace[0]) || Overwrites(Step(s, trace[0]), trace[1..]))
  }

  /** Some call of the run throws while it holds the pointer. */
  predicate Throws(trace: seq<Event>) {
    trace != [] && (trace[0].Throw? || Throws(trace[1..]))
  }

  lemma LossStep(s: State, e: Event)
    requires Enabled(s, e)
    ensures Step(s, e).lost <==> s.lost || StoreOverwrites(s, e)
    ensures Step(s, e).thrown <==> s.thrown || e.Throw?
  {
  }

  lemma {:induction false} LossExactly(s: State, trace: seq<Event>)
    requires IsRun(s, trace)
    ensures After(s, trace).lost <==> s.lost || Overwrites(s, trace)
    ensures After(s, trace).thrown <==> s.thrown || Throws(trace)
    decreases |trace|
  {
    if trace != [] {
      LossStep(s, trace[0]);
      hide Step, StoreOverwrites;
      LossExactly(Step(s, trace[0]), trace[1..]);
    }
  }

  /** No promise points to the future and no call is under way. */
  ghost predicate Quiet(t: State) {
    && (forall p :: p in t.owner ==> !t.owner[p])
    && (forall u :: u in t.calls ==> t.calls[u].Resting?)
  }

  /** When everything is quiet, the future has been resolved, exactly once and with everybody resumed,
      if and only if no store overwrote the pointer and no call threw while it held it. */
  lemma NeverAbandoned(s: State, first: Place, trace: seq<Event>)
    requires Initial(s, first) && IsRun(s, trace) && Quiet(After(s, trace))
    ensures var t := After(s, trace);
      && (Ready(t) <==> !Overwrites(s, trace) && !Throws(trace))
      && (Ready(t) ==> t.wins == 1 && t.resumed == Reverse(t.subscribed))
  {
    InitGood(s, first);
    var rest := RunKeepsGood(s, [], trace);
    LossExactly(s, trace);
    QuietMeans(After(s, trace), rest);
    hide Good;
  }

  lemma QuietMeans(t: State, rest: seq<Node>)
    requires Good(t, rest) && Quiet(t)
    ensures Ready(t) <==> !t.lost && !t.thrown
    ensures Ready(t) ==> t.wins == 1 && t.resumed == Reverse(t.subscribed)
  {
    assert forall x :: !HasPointer(t, x);
    assert forall u :: !Walker(t, u);
    assert t.resumed + [] == t.resumed;
  }

  /** Whoever resolves can always go on: the walk meets only awaiters that still wait. */
  lemma ResolverCanMove(s: State, rest: seq<Node>, t: Thread)
    requires Good(s, rest) && t in s.calls && s.calls[t].Walking?
    ensures Enabled(s, if rest == [] then Done(t) else ResumeOne(t))
    ensures rest != [] ==> s.calls[t].at == At(rest[0]) && s.subs[rest[0]].Waiting?
  {
    assert Walker(s, t);
    if rest != [] {
      assert rest[0] in rest;
    }
  }

  // ---------- When a move loses the future ----------

  /** The promise that a call is going to store into. */
  function Target(c: Call): set<Place> {
    match c
    case Resting => {}
    case Claimed(_, _, cont) => TargetOf(cont)
    case Resolving(cont) => TargetOf(cont)
    case Walking(_, cont) => TargetOf(cont)
    case Assigning(_, dst) => {dst}
    case Carrying(_, dst) => {dst}
  }

  function TargetOf(cont: Then): set<Place> {
    match cont
    case Return => {}
    case MoveFrom(_, dst) => {dst}
  }

  function MoveTarget(e: Event): set<Place> {
    match e
    case Assign(_, _, dst) => {dst}
    case Construct(_, _, dst) => {dst}
    case _ => {}
  }

  /** No move into a promise begins while another one into it is under way. */
  predicate Separate(s: State, e: Event) {
    forall u :: u in s.calls ==> Target(s.calls[u]) !! MoveTarget(e)
  }

  ghost predicate IsSeparateRun(s: State, trace: seq<Event>)
    decreases |trace|
  {
    trace == [] ||
      (Enabled(s, trace[0]) && Separate(s, trace[0]) && IsSeparateRun(Step(s, trace[0]), trace[1..]))
  }

  /** A promise that is about to be stored into is empty, and by one call only. */
  ghost predicate TargetsEmpty(s: State) {
    && !s.lost
    && (forall t, u :: t in s.calls && u in s.calls && t != u ==> Target(s.calls[t]) !! Target(s.calls[u]))
    && (forall t, p :: t in s.calls && p in Target(s.calls[t]) && p in s.owner ==> !s.owner[p])
  }

  /** A step changes at most the call that makes it. */
  lemma CallsStep(s: State, e: Event)
    requires Enabled(s, e)
    ensures Subscribes(e) ==> Step(s, e).calls == s.calls
    ensures !Subscribes(e) ==>
      e.t in s.calls && e.t in Step(s, e).calls
      && Step(s, e).calls == s.calls[e.t := Step(s, e).calls[e.t]]
  {
    if Claims(e) {
      ClaimFields(s, e);
    } else if Subscribes(e) {
      SubscribeFields(s, e);
    } else if e.ResumeOne? {
      ResumeFields(s, e);
    } else {
      ResolveFields(s, e);
    }
    hide Step;
  }

  /** Its target is new, or gone, or the same. */
  lemma TargetStep(s: State, e: Event)
    requires Enabled(s, e) && !Subscribes(e)
    ensures e.t in s.calls && e.t in Step(s, e).calls
    ensures var c, c' := s.calls[e.t], Step(s, e).calls[e.t];
      Target(c') <= Target(c) || (Target(c') == MoveTarget(e) && (e.Assign? || e.Construct?))
  {
  }

  lemma OwnerStep(s: State, e: Event)
    requires Enabled(s, e)
    ensures var s' := Step(s, e);
      && (forall p :: p in s'.owner && s'.owner[p] ==>
            (p in s.owner && s.owner[p])
            || (e.Store? && p in Target(s.calls[e.t]) && Target(s'.calls[e.t]) == {}))
      && (e.Assign? ==> !s'.owner[e.dst])
      && (e.Construct? ==> e.dst !in s'.owner)
  {
  }

  lemma SeparateStep(s: State, e: Event)
    requires TargetsEmpty(s) && Enabled(s, e) && Separate(s, e)
    ensures TargetsEmpty(Step(s, e))
  {
    CallsStep(s, e);
    if !Subscribes(e) {
      TargetStep(s, e);
    }
    OwnerStep(s, e);
    LossStep(s, e);
    assert e.Store? ==> s.calls[e.t].dst in Target(s.calls[e.t]);
    hide Step, Target;
  }

  lemma {:induction false} SeparateMovesKeepIt(s: State, trace: seq<Event>)
    requires TargetsEmpty(s) && IsSeparateRun(s, trace)
    ensures IsRun(s, trace) && !After(s, trace).lost
    decreases |trace|
  {
    if trace != [] {
      SeparateStep(s, trace[0]);
      hide TargetsEmpty, Step;
      SeparateMovesKeepIt(Step(s, trace[0]), trace[1..]);
    }
  }

  /** What a caller can see to: as long as no two moves into the same promise overlap and no
      constructed value throws, the future has been resolved when everything is quiet. */
  lemma SeparateMovesResolve(s: State, first: Place, trace: seq<Event>)
    requires Initial(s, first) && IsSeparateRun(s, trace) && !Throws(trace)
    ensures IsRun(s, trace) && !Overwrites(s, trace)
    ensures var t := After(s, trace);
      Quiet(t) ==> Ready(t) && t.wins == 1 && t.resumed == Reverse(t.subscribed)
  {
    SeparateMovesKeepIt(s, trace);
    LossExactly(s, trace);
    if Quiet(After(s, trace)) {
      NeverAbandoned(s, first, trace);
    }
    hide *;
  }

  // ---------- Runs that abandon the future ----------

  ghost predicate Abandoned(t: State) {
    !Ready(t) && Quiet(t)
  }

  /** A future without awaiters and two threads. */
  function Moving(owner: map<Place, bool>, zero: Call, one: Call): State {
    State(Null, NotValue, map[], map[], owner, map[0 := zero, 1 := one], false, false, 0, 0, [], [])
  }

  /** One call claims the pointer, and constructing its value throws. */
  lemma ThrowingSetAbandons() returns (s: State, trace: seq<Event>)
    ensures Initial(s, 0) && IsRun(s, trace) && Throws(trace) && !Overwrites(s, trace)
    ensures Abandoned(After(s, trace))
  {
    s, trace := Moving(map[0 := true], Resting, Resting), [Set(0, 0, Value(7)), Throw(0)];
    var s1 := Moving(map[0 := false], Claimed(true, Value(7), Return), Resting);
    var s2 := Moving(map[0 := false], Resting, Resting).(thrown := true);
    assert trace[1..][1..] == [] && trace[1..][0] == Throw(0);
    assert Step(s, trace[0]) == s1 && Step(s1, trace[1]) == s2;
  }

  /** Two threads assign the same promise to another one at once: the first to finish stores the
      pointer, the second null over it, and nobody can resolve the future any more. */
  const LOSING_TRACE: seq<Event> := [
    Construct(0, 0, 1), Store(0), Assign(0, 1, 0), Assign(1, 1, 0), Write(0), Write(1),
    TakeSource(1), TakeSource(0), Store(1), Store(0)]

  /** The states of the run. */
  function Stage(k: nat): State {
    var claimed, assigning := Claimed(false, NotValue, MoveFrom(1, 0)), Assigning(1, 0);
    var one := map[0 := false, 1 := true];
    var none := map[0 := false, 1 := false];
    match k
    case 0 => Moving(map[0 := true], Resting, Resting)
    case 1 => Moving(map[0 := false], Carrying(true, 1), Resting)
    case 2 => Moving(one, Resting, Resting)
    case 3 => Moving(one, claimed, Resting)
    case 4 => Moving(one, claimed, claimed)
    case 5 => Moving(one, assigning, claimed)
    case 6 => Moving(one, assigning, assigning)
    case 7 => Moving(none, assigning, Carrying(true, 0))
    case 8 => Moving(none, Carrying(false, 0), Carrying(true, 0))
    case 9 => Moving(map[0 := true, 1 := false], Carrying(false, 0), Resting)
    case _ => Moving(none, Resting, Resting).(lost := true)
  }

  lemma OverlappingMovesLose() returns (s: State, trace: seq<Event>)
    ensures Initial(s, 0) && IsRun(s, trace) && Abandoned(After(s, trace))
  {
    s, trace := Stage(0), LOSING_TRACE[0..];
    assert Initial(s, 0) && Abandoned(Stage(10));
    assert |LOSING_TRACE| == 10;
    hide *;
    RunFrom(0);
  }

  lemma {:induction false} RunFrom(k: nat)
    requires k <= |LOSING_TRACE|
    ensures IsRun(Stage(k), LOSING_TRACE[k..])
    ensures After(Stage(k), LOSING_TRACE[k..]) == Stage(|LOSING_TRACE|)
    decreases |LOSING_TRACE| - k
  {
    if k < |LOSING_TRACE| {
      StageStep(k);
      hide Stage, Step, Enabled;
      RunFrom(k + 1);
      Unroll(Stage(k), LOSING_TRACE, k);
    }
  }

  /** The trace leads from each stage to the next. */
  ghost predicate Leads(k: nat)
    requires k < |LOSING_TRACE|
  {
    Enabled(Stage(k), LOSING_TRACE[k]) && Step(Stage(k), LOSING_TRACE[k]) == Stage(k + 1)
  }

  lemma StageStep(k: nat)
    requires k < |LOSING_TRACE|
    ensures Leads(k)
  {
    assert |LOSING_TRACE| == 10;
    hide *;
    MoveOut();
    BothClaim();
    BothWrite();
    BothTake();
    StorePointer();
    StoreNull();
  }

  lemma MoveOut()
    ensures Leads(0) && Leads(1)
  {
  }

  lemma BothClaim()
    ensures Leads(2) && Leads(3)
  {
  }

  lemma BothWrite()
    ensures Leads(4) && Leads(5)
  {
  }

  lemma BothTake()
    ensures Leads(6) && Leads(7)
  {
  }

  lemma StorePointer()
    ensures Leads(8)
  {
  }

  lemma StoreNull()
    ensures Leads(9)
  {
  }

  lemma Unroll(s: State, trace: seq<Event>, i: nat)
    requires i < |trace| && Enabled(s, trace[i]) && IsRun(Step(s, trace[i]), trace[i + 1..])
    ensures IsRun(s, trace[i..])
    ensures After(s, trace[i..]) == After(Step(s, trace[i]), trace[i + 1..])
  {
    assert trace[i..][1..] == trace[i + 1..];
  }
}
