/**
 The ready-queue machine of one thread: who runs, who is queued, and who sits in a suspend point.
 Coroutines are abstract; what they do next is any of the events.
 */
module CoroQueue {
  import opened Options
  import opened Sequences

  type Handle = nat // the address of a coroutine frame

  /** direct: the handles that the outermost suspend_now still resumes itself; made and resumed record
      how often each coroutine became ready and was resumed. */
  datatype State = State(
    running: Option<Handle>, active: bool, queue: seq<Handle>, direct: seq<Handle>,
    points: seq<seq<Handle>>, parked: set<Handle>, finished: set<Handle>,
    made: multiset<Handle>, resumed: multiset<Handle>)

  datatype Event =
    | MakeReady(h: Handle, p: nat)  // something a parked coroutine waits for happens
    | Merge(p: nat, into: nat)      // operator<<
    | Discard(p: nat)               // a suspend point is destroyed or cleared
    | Await(p: nat)                 // the running coroutine awaits a suspend point
    | Pause
    | Park                          // it awaits something that is not ready
    | Finish(p: nat)                // it ends; the suspend point is what its future resolved
    | Next                          // control returns to the code that installed the queue

  function Init(coroutines: set<Handle>, points: nat): State {
    State(None, false, [], [], seq(points, _ => []), coroutines, {}, multiset{}, multiset{})
  }

  /** A coroutine's events need one that runs; those of the thread's own code none. */
  predicate Enabled(s: State, e: Event) {
    match e
    case MakeReady(h, p) => h in s.parked && p < |s.points|
    case Merge(p, into) => p < |s.points| && into < |s.points| && p != into
    case Discard(p) => p < |s.points| && (s.active ==> s.running.Some?)
    case Await(p) => p < |s.points| && s.running.Some?
    case Pause => s.running.Some?
    case Park => s.running.Some?
    case Finish(p) => p < |s.points| && s.running.Some?
    case Next => s.active && s.running.None?
  }

  function Resume(s: State, h: Handle): State {
    s.(running := Some(h), resumed := s.resumed + multiset{h})
  }

  function Last(s: seq<Handle>): Handle
    requires s != []
  {
    s[|s| - 1]
  }

  function ButLast(all: seq<Handle>): (rest: seq<Handle>)
    ensures all != [] ==> rest + [Last(all)] == all
  {
    if all == [] then [] else all[..|all| - 1]
  }

  /** What awaiting a suspend point puts into the queue: all its handles but the last, which runs next,
      and then the awaiting coroutine unless it is among them. */
  function Requeued(all: seq<Handle>, me: Handle): seq<Handle>
    requires all != []
  {
    ButLast(all) + if me in ButLast(all) then [] else [me]
  }

  function Step(s: State, e: Event): State
    requires Enabled(s, e)
  {
    match e
    case MakeReady(h, p) =>
      s.(parked := s.parked - {h}, points := s.points[p := s.points[p] + [h]],
         made := s.made + multiset{h})
    case Merge(p, into) =>
      s.(points := s.points[into := s.points[into] + s.points[p]][p := []])
    case Discard(p) =>
      var cleared := s.(points := s.points[p := []]);
      if s.active then cleared.(queue := s.queue + s.points[p])
      else if s.points[p] == [] then cleared
      else cleared.(active := true, direct := s.points[p])
    case Await(p) =>
      var c, all := s.running.value, s.points[p];
      if all == [] then s // await_ready
      else
        Resume(s.(points := s.points[p := []], queue := s.queue + Requeued(all, c),
                  made := s.made + multiset{c}), Last(all))
    case Pause =>
      var q := s.queue + [s.running.value];
      Resume(s.(queue := q[1..], made := s.made + multiset{s.running.value}), q[0])
    case Park => s.(running := None, parked := s.parked + {s.running.value})
    case Finish(p) =>
      var all := s.points[p];
      var gone := s.(running := None, finished := s.finished + {s.running.value},
                     points := s.points[p := []]);
      if all == [] then gone
      else Resume(gone.(queue := s.queue + all[..|all| - 1]), Last(all))
    case Next =>
      if s.direct != [] then Resume(s.(direct := s.direct[1..]), s.direct[0])
      else if s.queue != [] then Resume(s.(queue := s.queue[1..]), s.queue[0])
      else s.(active := false)
  }

  ghost predicate IsRun(s: State, trace: seq<Event>)
    decreases |trace|
  {
    trace == [] || (Enabled(s, trace[0]) && IsRun(Step(s, trace[0]), trace[1..]))
  }

  ghost function After(s: State, trace: seq<Event>): State
    requires IsRun(s, trace)
    decreases |trace|
  {
    if trace == [] then s else After(Step(s, trace[0]), trace[1..])
  }

  // ---------- Who runs next ----------

  /** The events at which the first coroutine of the queue goes on. */
  predicate Takes(s: State, e: Event)
    requires Enabled(s, e)
  {
    e.Pause? || (e.Next? && s.direct == [] && s.queue != [])
  }

  /** Who goes on then, whoever that is. */
  function Leaves(s: State, e: Event): seq<Handle>
    requires Enabled(s, e)
  {
    if Takes(s, e) then [Step(s, e).running.value] else []
  }

  /** Who comes to stand behind the queue: the pausing coroutine, the handles of a discarded point,
      and all but the last of an awaited point, or of what a finished coroutine resolved, where the
      awaiting coroutine follows them. */
  function Joins(s: State, e: Event): seq<Handle>
    requires Enabled(s, e)
  {
    match e
    case Pause => [s.running.value]
    case Discard(p) => if s.active then s.points[p] else []
    case Await(p) => ButLast(s.points[p]) + if s.points[p] == [] then [] else [s.running.value]
    case Finish(p) => ButLast(s.points[p])
    case _ => []
  }

  lemma TakesStep(s: State, e: Event)
    requires Enabled(s, e) && Takes(s, e)
    ensures var t, line := Step(s, e), s.queue + Joins(s, e);
      line != [] && t.running == Some(line[0]) && t.queue == line[1..] && t.resumed == s.resumed + multiset{line[0]}
  {
    assert e.Next? ==> s.queue + [] == s.queue;
  }

  lemma AwaitStep(s: State, p: nat)
    requires Enabled(s, Await(p)) && s.running.value !in s.points[p]
    ensures Step(s, Await(p)).queue == s.queue + Joins(s, Await(p))
  {
    var all := s.points[p];
    assert all != [] ==> s.running.value !in ButLast(all);
    assert s.queue + [] == s.queue;
  }

  lemma JoinsStep(s: State, e: Event)
    requires QuietOutside(s) && Enabled(s, e) && !Takes(s, e) && !e.Await?
    ensures Step(s, e).queue == s.queue + Joins(s, e)
  {
    assert s.queue + [] == s.queue;
  }

  /** In a state in which each coroutine is in one place, the queue grows by whoever joins at its end
      only. It loses its head only, and exactly when that head is the coroutine that goes on. */
  lemma QueueStep(s: State, e: Event, coroutines: set<Handle>)
    requires Good(s, coroutines) && Enabled(s, e)
    ensures Leaves(s, e) + Step(s, e).queue == s.queue + Joins(s, e)
    ensures Takes(s, e) ==> Step(s, e).running.Some? && Step(s, e).resumed == s.resumed + multiset(Leaves(s, e))
  {
    hide Step, Joins, ButLast;
    if Takes(s, e) {
      TakesStep(s, e);
      hide Takes;
      assert [(s.queue + Joins(s, e))[0]] + (s.queue + Joins(s, e))[1..] == s.queue + Joins(s, e);
    } else if e.Await? {
      NotElsewhere(s, coroutines, e.p);
      AwaitStep(s, e.p);
      assert [] + Step(s, e).queue == Step(s, e).queue;
    } else {
      JoinsStep(s, e);
      assert [] + Step(s, e).queue == Step(s, e).queue;
    }
  }

  /** Whom the other events resume: what the installing code holds itself comes before the queue, and
      the last handle of an awaited point, or of what a finished coroutine resolved, goes on at once. */
  lemma JumpsTheQueue(s: State, e: Event)
    requires Enabled(s, e) && !Takes(s, e)
    ensures var t := Step(s, e);
      match e
      case Await(p) => t.running == if s.points[p] == [] then s.running else Some(Last(s.points[p]))
      case Finish(p) => t.running == if s.points[p] == [] then None else Some(Last(s.points[p]))
      case Next =>
        if s.direct == [] then !t.active && t.running.None?
        else t.running.Some? && [t.running.value] + t.direct == s.direct
      case Park => t.running.None?
      case _ => t.running == s.running
    ensures var t, installs := Step(s, e), e.Discard? && !s.active && s.points[e.p] != [];
      && t.active == (installs || (s.active && !(e.Next? && s.direct == [])))
      && (!e.Next? ==> t.direct == if installs then s.points[e.p] else s.direct)
  {
  }

  /** What an event does to the suspend points: one gets the handle that becomes ready or, behind its
      own, those merged into it, and one whose handles were taken is empty; no other changes. */
  lemma PointsStep(s: State, e: Event)
    requires Enabled(s, e)
    ensures var t := Step(s, e);
      && |t.points| == |s.points|
      && forall i :: 0 <= i < |s.points| ==>
        match e
        case MakeReady(h, p) => t.points[i] == s.points[i] + if i == p then [h] else []
        case Merge(p, into) =>
          t.points[i] == if i == into then s.points[into] + s.points[p] else if i == p then [] else s.points[i]
        case Discard(p) => t.points[i] == if i == p then [] else s.points[i]
        case Await(p) => t.points[i] == if i == p then [] else s.points[i]
        case Finish(p) => t.points[i] == if i == p then [] else s.points[i]
        case _ => t.points[i] == s.points[i]
  {
  }

  /** The coroutines that a run takes from the queue, as they go on. */
  ghost function Taken(s: State, trace: seq<Event>): seq<Handle>
    requires IsRun(s, trace)
    decreases |trace|
  {
    if trace == [] then [] else Leaves(s, trace[0]) + Taken(Step(s, trace[0]), trace[1..])
  }

  ghost function Joined(s: State, trace: seq<Event>): seq<Handle>
    requires IsRun(s, trace)
    decreases |trace|
  {
    if trace == [] then [] else Joins(s, trace[0]) + Joined(Step(s, trace[0]), trace[1..])
  }

  /** First in, first out: those who were taken from the queue, in that order, and those who stand in
      it now are those who stood in it at the start and those who joined since. So a coroutine at
      place k goes on after exactly the k before it have been taken. */
  lemma QueueIsFifo(s: State, trace: seq<Event>, coroutines: set<Handle>)
    requires Good(s, coroutines) && IsRun(s, trace)
    ensures Taken(s, trace) + After(s, trace).queue == s.queue + Joined(s, trace)
    ensures forall k :: 0 <= k < |s.queue| && k < |Taken(s, trace)| ==> Taken(s, trace)[k] == s.queue[k]
  {
    hide Good, IsRun, Step, Joins, Leaves;
    FifoRun(s, trace, coroutines);
    assert forall k :: 0 <= k < |s.queue| ==> (s.queue + Joined(s, trace))[k] == s.queue[k];
    assert forall k :: 0 <= k < |Taken(s, trace)| ==>
      (Taken(s, trace) + After(s, trace).queue)[k] == Taken(s, trace)[k];
  }

  lemma {:induction false} FifoRun(s: State, trace: seq<Event>, coroutines: set<Handle>)
    requires Good(s, coroutines) && IsRun(s, trace)
    ensures Taken(s, trace) + After(s, trace).queue == s.queue + Joined(s, trace)
    decreases |trace|
  {
    hide Good, Joins, Leaves, Step;
    if trace != [] {
      var e, t, rest := trace[0], Step(s, trace[0]), trace[1..];
      QueueStep(s, e, coroutines);
      StepKeepsGood(s, e, coroutines);
      assert Taken(s, trace) == Leaves(s, e) + Taken(t, rest);
      assert Joined(s, trace) == Joins(s, e) + Joined(t, rest);
      assert After(s, trace) == After(t, rest) && IsRun(t, rest);
      hide *;
      FifoRun(t, rest, coroutines);
      FifoStep(s.queue, Joins(s, e), Leaves(s, e), t.queue, Taken(t, rest), After(t, rest).queue, Joined(t, rest));
    }
  }

  // ---------- Where everybody is ----------

  /** How often h occurs in a list. */
  function Count(hs: seq<Handle>, h: Handle): nat {
    multiset(hs)[h]
  }

  function InPoints(points: seq<seq<Handle>>, h: Handle): nat {
    if points == [] then 0 else Count(points[0], h) + InPoints(points[1..], h)
  }

  /** How often h is ready to run. */
  function Ready(s: State, h: Handle): nat {
    Count(s.queue, h) + Count(s.direct, h) + InPoints(s.points, h)
  }

  function One(b: bool): nat {
    if b then 1 else 0
  }

  /** In how many places h is. */
  function Places(s: State, h: Handle): nat {
    Ready(s, h) + One(s.running == Some(h)) + One(h in s.parked) + One(h in s.finished)
  }

  /** Each coroutine is in exactly one place; it was resumed once for each time it became ready, but
      for the time it is ready now. */
  ghost predicate Accounted(s: State, coroutines: set<Handle>, h: Handle) {
    Places(s, h) == One(h in coroutines) && s.made[h] == s.resumed[h] + Ready(s, h)
  }

  /** Without an installed queue nothing runs and nothing is queued. */
  ghost predicate QuietOutside(s: State) {
    !s.active ==> s.running.None? && s.queue == [] && s.direct == []
  }

  ghost predicate Good(s: State, coroutines: set<Handle>) {
    QuietOutside(s) && forall h :: Accounted(s, coroutines, h)
  }

  lemma {:induction false} PointUpdate(points: seq<seq<Handle>>, p: nat, hs: seq<Handle>, h: Handle)
    requires p < |points|
    ensures InPoints(points[p := hs], h) + Count(points[p], h) == InPoints(points, h) + Count(hs, h)
  {
    var updated := points[p := hs];
    if p == 0 {
      assert updated[1..] == points[1..];
    } else {
      PointUpdate(points[1..], p - 1, hs, h);
      assert updated[1..] == points[1..][p - 1 := hs];
    }
  }

  lemma {:induction false} NoPoints(points: seq<seq<Handle>>, h: Handle)
    requires forall i :: 0 <= i < |points| ==> points[i] == []
    ensures InPoints(points, h) == 0
  {
    if points != [] {
      NoPoints(points[1..], h);
    }
  }

  lemma CountSplit(a: seq<Handle>, b: seq<Handle>, h: Handle)
    ensures Count(a + b, h) == Count(a, h) + Count(b, h)
  {
  }

  /** A list is its first or last element and the rest. */
  lemma CountEnds(hs: seq<Handle>, h: Handle)
    requires hs != []
    ensures Count(hs, h) == Count(hs[..|hs| - 1], h) + One(h == Last(hs))
    ensures Count(hs, h) == One(h == hs[0]) + Count(hs[1..], h)
  {
    assert hs == hs[..|hs| - 1] + [Last(hs)];
    assert hs == [hs[0]] + hs[1..];
  }

  lemma NotElsewhere(s: State, coroutines: set<Handle>, p: nat)
    requires Good(s, coroutines) && s.running.Some? && p < |s.points|
    ensures s.running.value !in s.points[p]
  {
    var c := s.running.value;
    PointUpdate(s.points, p, [], c);
    assert Accounted(s, coroutines, c);
    assert Count(s.points[p], c) == 0;
  }

  lemma MakeReadyKeeps(s: State, r: Handle, p: nat, coroutines: set<Handle>, h: Handle)
    requires Accounted(s, coroutines, h) && Enabled(s, MakeReady(r, p))
    ensures Accounted(Step(s, MakeReady(r, p)), coroutines, h)
  {
    PointUpdate(s.points, p, s.points[p] + [r], h);
    CountSplit(s.points[p], [r], h);
  }

  lemma MergeKeeps(s: State, p: nat, into: nat, coroutines: set<Handle>, h: Handle)
    requires Accounted(s, coroutines, h) && Enabled(s, Merge(p, into))
    ensures Accounted(Step(s, Merge(p, into)), coroutines, h)
  {
    var first := s.points[into := s.points[into] + s.points[p]];
    PointUpdate(s.points, into, s.points[into] + s.points[p], h);
    PointUpdate(first, p, [], h);
    CountSplit(s.points[into], s.points[p], h);
  }

  lemma DiscardKeeps(s: State, p: nat, coroutines: set<Handle>, h: Handle)
    requires Accounted(s, coroutines, h) && QuietOutside(s) && Enabled(s, Discard(p))
    ensures Accounted(Step(s, Discard(p)), coroutines, h)
  {
    PointUpdate(s.points, p, [], h);
    CountSplit(s.queue, s.points[p], h);
  }

  lemma AwaitKeeps(s: State, p: nat, coroutines: set<Handle>, h: Handle)
    requires Good(s, coroutines) && Enabled(s, Await(p))
    ensures Accounted(Step(s, Await(p)), coroutines, h)
  {
    assert Accounted(s, coroutines, h);
    var c, all := s.running.value, s.points[p];
    if all != [] {
      var rest := all[..|all| - 1];
      NotElsewhere(s, coroutines, p);
      assert c !in rest;
      PointUpdate(s.points, p, [], h);
      CountEnds(all, h);
      CountSplit(rest, [c], h);
      CountSplit(s.queue, rest + [c], h);
    }
  }

  lemma FinishKeeps(s: State, p: nat, coroutines: set<Handle>, h: Handle)
    requires Accounted(s, coroutines, h) && Enabled(s, Finish(p))
    ensures Accounted(Step(s, Finish(p)), coroutines, h)
  {
    var all := s.points[p];
    PointUpdate(s.points, p, [], h);
    if all != [] {
      CountEnds(all, h);
      CountSplit(s.queue, all[..|all| - 1], h);
    }
  }

  lemma PauseKeeps(s: State, coroutines: set<Handle>, h: Handle)
    requires Accounted(s, coroutines, h) && Enabled(s, Pause)
    ensures Accounted(Step(s, Pause), coroutines, h)
  {
    CountSplit(s.queue, [s.running.value], h);
    CountEnds(s.queue + [s.running.value], h);
  }

  lemma NextKeeps(s: State, coroutines: set<Handle>, h: Handle)
    requires Accounted(s, coroutines, h) && Enabled(s, Next)
    ensures Accounted(Step(s, Next), coroutines, h)
  {
    if s.direct != [] {
      CountEnds(s.direct, h);
    } else if s.queue != [] {
      CountEnds(s.queue, h);
    }
  }

  lemma StepKeepsGood(s: State, e: Event, coroutines: set<Handle>)
    requires Good(s, coroutines) && Enabled(s, e)
    ensures Good(Step(s, e), coroutines)
  {
    forall h
      ensures Accounted(Step(s, e), coroutines, h)
    {
      assert Accounted(s, coroutines, h);
      match e
      case MakeReady(r, p) => MakeReadyKeeps(s, r, p, coroutines, h);
      case Merge(p, into) => MergeKeeps(s, p, into, coroutines, h);
      case Discard(p) => DiscardKeeps(s, p, coroutines, h);
      case Await(p) => AwaitKeeps(s, p, coroutines, h);
      case Pause => PauseKeeps(s, coroutines, h);
      case Park =>
      case Finish(p) => FinishKeeps(s, p, coroutines, h);
      case Next => NextKeeps(s, coroutines, h);
    }
  }

  lemma {:induction false} RunKeepsGood(s: State, trace: seq<Event>, coroutines: set<Handle>)
    requires Good(s, coroutines) && IsRun(s, trace)
    ensures Good(After(s, trace), coroutines)
    decreases |trace|
  {
    if trace != [] {
      StepKeepsGood(s, trace[0], coroutines);
      hide Good;
      RunKeepsGood(Step(s, trace[0]), trace[1..], coroutines);
    }
  }

  /** Conservation: in every run every coroutine is in exactly one place, running, queued, in one
      suspend point, parked or finished; each was resumed exactly as often as it was made ready, minus
      one if it is ready now; and the installed queue is given up only when it is empty. */
  lemma HandlesAreConserved(coroutines: set<Handle>, points: nat, trace: seq<Event>)
    requires IsRun(Init(coroutines, points), trace)
    ensures var t := After(Init(coroutines, points), trace);
      && (forall h :: Places(t, h) == One(h in coroutines))
      && (forall h :: t.made[h] == t.resumed[h] + Ready(t, h))
      && (!t.active ==> t.running.None? && t.queue == [] && t.direct == [])
  {
    forall h
      ensures Accounted(Init(coroutines, points), coroutines, h)
    {
      NoPoints(Init(coroutines, points).points, h);
    }
    RunKeepsGood(Init(coroutines, points), trace, coroutines);
    forall h
      ensures var t := After(Init(coroutines, points), trace);
        Places(t, h) == One(h in coroutines) && t.made[h] == t.resumed[h] + Ready(t, h)
    {
      assert Accounted(After(Init(coroutines, points), trace), coroutines, h);
    }
  }

  /** The queue of the current thread; direct holds the handles that the code which installed it still
      resumes itself. The parameter s is the machine's state at the call. */
  class RunQueue {
    var active: bool
    var queue: seq<Handle>
    var direct: seq<Handle>

    ghost predicate Valid()
      reads this
    {
      !active ==> queue == [] && direct == []
    }

    /** The object and the machine agree. */
    ghost predicate Shows(s: State)
      reads this
    {
      active == s.active && queue == s.queue && direct == s.direct
    }

    constructor ()
      ensures Valid() && !active
    {
      active, queue, direct := false, [], [];
    }

    method Push(h: Handle)
      requires Valid() && active
      modifies this
      ensures Valid() && active && queue == old(queue) + [h] && direct == old(direct)
    {
      queue := queue + [h];
    }

    /** install_queue_and_call, up to the first resumption. */
    method Install(handles: seq<Handle>)
      requires Valid() && !active
      modifies this
      ensures Valid() && active && queue == [] && direct == handles
    {
      active, direct := true, handles;
    }

    /** resume: under an active queue the handle waits its turn, otherwise a queue is installed. */
    method Resume(h: Handle)
      requires Valid()
      modifies this
      ensures Valid() && active
      ensures if old(active) then queue == old(queue) + [h] && direct == old(direct)
              else queue == [] && direct == [h]
    {
      if active {
        Push(h);
      } else {
        Install([h]);
      }
    }

    /** swap_coroutine, which pause also does; without a queue the caller goes on. */
    method SwapCoroutine(me: Handle, ghost s: State) returns (next: Handle)
      requires Valid() && Shows(s) && (active ==> s.running == Some(me))
      modifies this
      ensures Valid() && active == old(active)
      ensures old(active) ==> [next] + queue == old(queue) + [me] && direct == old(direct)
      ensures old(active) ==> Shows(Step(s, Pause)) && Step(s, Pause).running == Some(next)
      ensures !old(active) ==> next == me && queue == old(queue)
    {
      if !active {
        return me;
      }
      queue := queue + [me];
      next := queue[0];
      queue := queue[1..];
    }

    /** resume_handle_next, and one iteration of flush_queue. */
    method ResumeHandleNext(ghost s: State) returns (next: Option<Handle>)
      requires Valid() && Shows(s) && direct == [] && s.running.None?
      modifies this
      ensures Valid() && active == old(active)
      ensures next.None? <==> !old(active) || old(queue) == []
      ensures next.Some? ==> [next.value] + queue == old(queue) && direct == old(direct)
      ensures next.Some? ==> Shows(Step(s, Next)) && Step(s, Next).running == next
      ensures next.None? && old(active) ==> !Step(s, Next).active && queue == []
    {
      if !active || queue == [] {
        return None;
      }
      next := Some(queue[0]);
      queue := queue[1..];
    }
  }
}
