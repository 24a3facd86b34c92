/**
 The scheduler over whole runs: any number of workers and clients, each operation atomic under the
 scheduler's mutex. How the vector is arranged after an operation is left to the implementation of
 the heap: an event may carry any arrangement that the operation's contract allows.
 */
module SchedulerTheorems {
  import opened Options
  import opened TimerHeap
  import opened Schedulers

  // ---------- Draining ----------

  /** One call that found something due: the entry it returned, and the vector it left. */
  datatype Hit = Hit(it: Item, after: seq<Item>)

  /** Repeated calls at the same time, from s to last, each of which finds something due. */
  ghost predicate Drains(s: seq<Item>, hits: seq<Hit>, now: Time, last: seq<Item>)
    decreases |hits|
  {
    if hits == [] then s == last
    else Expires(s, now, hits[0].after, hits[0].it) && Drains(hits[0].after, hits[1..], now, last)
  }

  function Returned(hits: seq<Hit>): seq<Item> {
    if hits == [] then [] else [hits[0].it] + Returned(hits[1..])
  }

  /** got is exactly the live entries of s that are due, in order of time. */
  ghost predicate ExactlyDue(s: seq<Item>, got: seq<Item>, now: Time) {
    && (forall it: Item :: multiset(got)[it] == if it.tp <= now then Live(s)[it] else 0)
    && (forall i, j :: 0 <= i < j < |got| ==> got[i].tp <= got[j].tp)
  }

  /** Repeated get_expired at a fixed time, until it names a time, returns exactly the live entries
      that are due, each once, in order of time. */
  lemma {:induction false} DrainIsExact(s: seq<Item>, hits: seq<Hit>, now: Time, last: seq<Item>,
                                        after: seq<Item>, r: Expired)
    requires Drains(s, hits, now, last) && Waits(last, now, after, r)
    ensures ExactlyDue(s, Returned(hits), now)
    decreases |hits|
  {
    hide Waits, Expires, ExactlyDue;
    if hits == [] {
      NothingDue(s, now, after, r);
    } else {
      DrainIsExact(hits[0].after, hits[1..], now, last, after, r);
      DrainOne(s, hits[0].after, hits[0].it, Returned(hits[1..]), now);
    }
  }

  lemma DrainOne(before: seq<Item>, after: seq<Item>, x: Item, rest: seq<Item>, now: Time)
    requires Expires(before, now, after, x) && ExactlyDue(after, rest, now)
    ensures ExactlyDue(before, [x] + rest, now)
  {
    var got := [x] + rest;
    forall it: Item
      ensures multiset(got)[it] == if it.tp <= now then Live(before)[it] else 0
    {
      assert Live(after)[it] == Live(before)[it] - if it == x then 1 else 0;
      assert multiset(rest)[it] == if it.tp <= now then Live(after)[it] else 0;
    }
    forall j | 0 < j < |got|
      ensures x.tp <= got[j].tp
    {
      assert got[j] == rest[j - 1] && rest[j - 1] in multiset(rest);
      assert got[j] in Live(after) && got[j] in Live(before);
    }
  }

  lemma NothingDue(s: seq<Item>, now: Time, last: seq<Item>, r: Expired)
    requires Waits(s, now, last, r)
    ensures ExactlyDue(s, [], now)
  {
    forall it: Item | it.tp <= now
      ensures Live(s)[it] == 0
    {
      assert it !in Live(s);
    }
  }

  // ---------- Runs ----------

  type WorkerId = nat

  /** A worker holds the mutex or does something else, or sleeps until a time or a notification. */
  datatype Worker = Busy | Asleep(until: Expired)

  /** entered and gone record the live entries that ever came and left. A remove that would read past
      the end is no step. */
  datatype State = State(
    items: seq<Item>, workers: map<WorkerId, Worker>, entered: multiset<Item>, gone: multiset<Item>)

  datatype Event =
    | Schedule(it: Item, after: seq<Item>)
    | Remove(id: Ident, after: seq<Item>, got: Option<Item>)
    | Poll(w: WorkerId, now: Time, after: seq<Item>, r: Expired, got: Option<Item>, sleep: bool)
    | Wake(w: WorkerId)

  /** Nothing scheduled, and any number of workers. */
  ghost predicate Initial(s: State) {
    && s.items == [] && s.entered == s.gone == multiset{}
    && forall w :: w in s.workers ==> s.workers[w].Busy?
  }

  ghost predicate Enabled(s: State, e: Event) {
    match e
    case Schedule(it, after) => IsHeap(after) && multiset(after) == multiset(s.items) + multiset{it}
    case Remove(id, after, got) =>
      (match got
       case Some(it) => Removes(s.items, id, after, it)
       case None =>
         RemovesNothing(s.items, id, after) && (s.items == [] || !AllTwins(s.items, id)))
    case Poll(w, now, after, r, got, sleep) =>
      && w in s.workers && s.workers[w].Busy?
      && (match got
          case Some(it) => r.Due? && it.p == Some(r.p) && !sleep && Expires(s.items, now, after, it)
          case None => !r.Due? && Waits(s.items, now, after, r))
    case Wake(w) => w in s.workers
  }

  function One(it: Item): multiset<Item> {
    if Alive(it) then multiset{it} else multiset{}
  }

  function Taken(got: Option<Item>): multiset<Item> {
    match got
    case Some(it) => multiset{it}
    case None => multiset{}
  }

  function Step(s: State, e: Event): State {
    match e
    case Schedule(it, after) =>
      var notify := s.items == [] || s.items[0].tp > it.tp;
      s.(items := after, entered := s.entered + One(it),
         workers := if notify then map w | w in s.workers :: Busy else s.workers)
    case Remove(_, after, got) => s.(items := after, gone := s.gone + Taken(got))
    case Poll(w, _, after, r, got, sleep) =>
      s.(items := after, gone := s.gone + Taken(got),
         workers := if sleep then s.workers[w := Asleep(r)] else s.workers)
    case Wake(w) => s.(workers := s.workers[w := Busy])
  }

  /** until is no later than the time t. */
  predicate NoLater(until: Expired, t: Time) {
    until.NextAt? && until.t <= t
  }

  /** No worker sleeps past the time of an entry: unless somebody has notified it. */
  ghost predicate InTime(s: State) {
    forall w, x :: w in s.workers && s.workers[w].Asleep? && x in s.items ==> NoLater(s.workers[w].until, x.tp)
  }

  /** Whatever came is still live, or has left; nothing leaves twice. */
  ghost predicate Accounted(s: State) {
    s.entered == Live(s.items) + s.gone
  }

  ghost predicate Good(s: State) {
    IsHeap(s.items) && InTime(s) && Accounted(s)
  }

  lemma ScheduleInTime(s: State, e: Event)
    requires Good(s) && Enabled(s, e) && e.Schedule?
    ensures InTime(Step(s, e))
  {
    var s' := Step(s, e);
    forall w, x | w in s'.workers && s'.workers[w].Asleep? && x in s'.items
      ensures NoLater(s'.workers[w].until, x.tp)
    {
      assert x in multiset(s'.items) && (x in multiset(s.items) || x == e.it);
      assert s.items[0] in s.items;
      assert NoLater(s.workers[w].until, s.items[0].tp);
    }
  }

  /** Entries that leave, and entries that die in place, keep everybody in time. */
  lemma ShrinkInTime(s: State, after: seq<Item>)
    requires InTime(s) && Shrinks(s.items, after)
    ensures InTime(s.(items := after))
  {
  }

  lemma PollInTime(s: State, e: Event)
    requires Good(s) && Enabled(s, e) && e.Poll?
    ensures InTime(Step(s, e))
  {
    ShrinkInTime(s, e.after);
    if e.sleep && e.after != [] {
      TopIsLeastOfAll(e.after);
    }
  }

  lemma LeavesOnce(live: multiset<Item>, gone: multiset<Item>, it: Item)
    requires it in live
    ensures (live - multiset{it}) + (gone + multiset{it}) == live + gone
  {
  }

  lemma AccountedStep(s: State, e: Event)
    requires Accounted(s) && Enabled(s, e)
    ensures Accounted(Step(s, e))
  {
    match e
    case Schedule(it, after) => LivePlus(s.items, after, it);
    case Remove(_, after, got) =>
      if got.Some? {
        LeavesOnce(Live(s.items), s.gone, got.value);
      }
    case Poll(_, _, after, _, got, _) =>
      if got.Some? {
        LeavesOnce(Live(s.items), s.gone, got.value);
      }
    case Wake(_) =>
  }

  lemma HeapStep(s: State, e: Event)
    requires IsHeap(s.items) && Enabled(s, e)
    ensures IsHeap(Step(s, e).items)
  {
    hide IsHeap;
  }

  lemma StepKeepsGood(s: State, e: Event)
    requires Good(s) && Enabled(s, e)
    ensures Good(Step(s, e))
  {
    AccountedStep(s, e);
    HeapStep(s, e);
    hide IsHeap, Accounted;
    match e
    case Schedule(_, _) => ScheduleInTime(s, e);
    case Remove(_, after, _) => ShrinkInTime(s, after);
    case Poll(_, _, _, _, _, _) => PollInTime(s, e);
    case Wake(_) =>
  }

  ghost predicate IsRun(s: State, trace: seq<Event>)
    decreases |trace|
  {
    trace == [] || (Enabled(s, trace[0]) && IsRun(Step(s, trace[0]), trace[1..]))
  }

  function After(s: State, trace: seq<Event>): State
    decreases |trace|
  {
    if trace == [] then s else After(Step(s, trace[0]), trace[1..])
  }

  lemma {:induction false} RunKeepsGood(s: State, trace: seq<Event>)
    requires Good(s) && IsRun(s, trace)
    ensures Good(After(s, trace))
    decreases |trace|
  {
    if trace != [] {
      StepKeepsGood(s, trace[0]);
      hide Good;
      RunKeepsGood(Step(s, trace[0]), trace[1..]);
    }
  }

  /** No missed deadline: in every run no worker that is asleep and has not been notified waits for
      longer than until the earliest entry, although schedule notifies only when it puts a new entry
      before the first one. And each scheduled promise leaves exactly once. */
  lemma NoMissedDeadline(s: State, trace: seq<Event>)
    requires Initial(s) && IsRun(s, trace)
    ensures var t := After(s, trace);
      && (forall w, x :: w in t.workers && t.workers[w].Asleep? && x in Live(t.items)
            ==> t.workers[w].until.NextAt? && t.workers[w].until.t <= x.tp)
      && t.entered == Live(t.items) + t.gone
  {
    RunKeepsGood(s, trace);
    LiveMembers(After(s, trace).items);
  }

  /** What a worker does: after a poll that found something due it goes on, after one that did not it
      may sleep exactly until the time of the first live entry, or until it is notified; a new first
      entry wakes everybody. */
  lemma SleepsExactly(s: State, e: Event, w: WorkerId)
    requires Enabled(s, e) && w in s.workers
    ensures var s' := Step(s, e);
      && w in s'.workers
      && match e
         case Poll(v, _, _, r, got, sleep) =>
           s'.workers[w] == if v == w && sleep then Asleep(r) else s.workers[w]
         case Schedule(it, _) =>
           s'.workers[w] == if s.items == [] || it.tp < s.items[0].tp then Busy else s.workers[w]
         case Wake(v) => s'.workers[w] == if v == w then Busy else s.workers[w]
         case Remove(_, _, _) => s'.workers[w] == s.workers[w]
  {
  }

  // ---------- Runs in which remove goes wrong ----------

  const A := Item(1, Some(0), 7)
  const B := Item(2, Some(1), 8)
  const C := Item(3, Some(2), 8)
  const DEAD := Item(2, None, 8)

  function OneWorker(items: seq<Item>, entered: multiset<Item>, gone: multiset<Item>): State {
    State(items, map[0 := Busy], entered, gone)
  }

  lemma Prepend(s: State, e: Event, trace: seq<Event>)
    requires Enabled(s, e) && IsRun(Step(s, e), trace)
    ensures IsRun(s, [e] + trace) && After(s, [e] + trace) == After(Step(s, e), trace)
  {
    assert ([e] + trace)[1..] == trace;
  }

  /** Two entries; the later one is removed and stays as a dead one, the other expires. The vector then
      holds nothing but a dead entry, and removing its identifier once more reads past the end. */
  lemma RemoveCanRunPastEnd() returns (s: State, trace: seq<Event>, id: Ident)
    ensures Initial(s) && IsRun(s, trace)
    ensures After(s, trace).items != [] && AllTwins(After(s, trace).items, id)
  {
    id := 8;
    var s2 := OneWorker([A, B], multiset{A, B}, multiset{});
    var s3 := OneWorker([A, DEAD], multiset{A, B}, multiset{B});
    var e2 := Remove(8, [A, DEAD], Some(B));
    var rest := OnlyDeadLeft();
    RemoveB([A, B], [A, DEAD]);
    hide Removes, Expires, RemovesNothing, Waits, AllTwins;
    assert Step(s2, e2) == s3;
    Prepend(s2, e2, rest);
    s, trace := ScheduleTwo([e2] + rest);
  }

  lemma OnlyDeadLeft() returns (rest: seq<Event>)
    ensures var s3 := OneWorker([A, DEAD], multiset{A, B}, multiset{B});
      IsRun(s3, rest) && After(s3, rest).items == [DEAD] && AllTwins([DEAD], 8)
  {
    var s3 := OneWorker([A, DEAD], multiset{A, B}, multiset{B});
    var e3 := Poll(0, 1, [DEAD], Due(0), Some(A), false);
    ExpireA();
    hide Removes, Expires, RemovesNothing, Waits;
    assert Step(s3, e3).items == [DEAD];
    Prepend(s3, e3, []);
    rest := [e3] + [];
  }

  /** Three entries, two of them with one identifier: once the earlier of these has been removed, its
      dead entry hides the other one, and removing the identifier again returns nothing. */
  lemma DeadTwinHides() returns (s: State, trace: seq<Event>, id: Ident)
    ensures Initial(s) && IsRun(s, trace)
    ensures var items := After(s, trace).items;
      items != [] && items[0].id != id && HasLive(items, id) && Hidden(items, id)
  {
    id := 8;
    CIsHidden();
    var rest := TwinDies();
    hide *;
    s, trace := ScheduleTwo(rest);
  }

  lemma CIsHidden()
    ensures var items := [A, DEAD, C];
      items[0].id != 8 && HasLive(items, 8) && Hidden(items, 8)
  {
    var items := [A, DEAD, C];
    LiveMembers(items);
    assert items[2] == C && C in items && C in Live(items);
  }

  lemma TwinDies() returns (trace: seq<Event>)
    ensures var s := OneWorker([A, B], multiset{A, B}, multiset{});
      IsRun(s, trace) && After(s, trace).items == [A, DEAD, C]
  {
    var s2 := OneWorker([A, B], multiset{A, B}, multiset{});
    var s3 := OneWorker([A, B, C], multiset{A, B, C}, multiset{});
    var s4 := OneWorker([A, DEAD, C], multiset{A, B, C}, multiset{B});
    var e2, e3 := Schedule(C, [A, B, C]), Remove(8, [A, DEAD, C], Some(B));
    ScheduleC();
    RemoveBOfThree();
    assert s4.items == [A, DEAD, C];
    hide *;
    Last(s3, e3, s4);
    Prepend(s2, e2, [e3] + []);
    trace := [e2] + ([e3] + []);
  }

  lemma Last(s: State, e: Event, s': State)
    requires Enabled(s, e) && Step(s, e) == s'
    ensures IsRun(s, [e] + []) && After(s, [e] + []) == s'
  {
    Prepend(s, e, []);
  }

  lemma ScheduleC()
    ensures var s, e := OneWorker([A, B], multiset{A, B}, multiset{}), Schedule(C, [A, B, C]);
      Enabled(s, e) && Step(s, e) == OneWorker([A, B, C], multiset{A, B, C}, multiset{})
  {
    assert [A, B] + [C] == [A, B, C];
  }

  lemma RemoveBOfThree()
    ensures var s := OneWorker([A, B, C], multiset{A, B, C}, multiset{});
      var e := Remove(8, [A, DEAD, C], Some(B));
      Enabled(s, e) && Step(s, e) == OneWorker([A, DEAD, C], multiset{A, B, C}, multiset{B})
  {
    RemoveB([A, B, C], [A, DEAD, C]);
    hide Removes;
  }

  lemma ScheduleTwo(rest: seq<Event>) returns (s: State, trace: seq<Event>)
    requires IsRun(OneWorker([A, B], multiset{A, B}, multiset{}), rest)
    ensures Initial(s) && IsRun(s, trace)
    ensures After(s, trace) == After(OneWorker([A, B], multiset{A, B}, multiset{}), rest)
  {
    s := OneWorker([], multiset{}, multiset{});
    var s1 := OneWorker([A], multiset{A}, multiset{});
    var e0, e1 := Schedule(A, [A]), Schedule(B, [A, B]);
    ScheduleA();
    ScheduleB();
    assert Initial(s);
    hide *;
    Prepend(s1, e1, rest);
    Prepend(s, e0, [e1] + rest);
    trace := [e0] + ([e1] + rest);
  }

  lemma ScheduleA()
    ensures var s, e := OneWorker([], multiset{}, multiset{}), Schedule(A, [A]);
      Enabled(s, e) && Step(s, e) == OneWorker([A], multiset{A}, multiset{})
  {
  }

  lemma ScheduleB()
    ensures var s, e := OneWorker([A], multiset{A}, multiset{}), Schedule(B, [A, B]);
      Enabled(s, e) && Step(s, e) == OneWorker([A, B], multiset{A, B}, multiset{})
  {
    assert [A] + [B] == [A, B];
  }

  lemma RemoveB(s: seq<Item>, t: seq<Item>)
    requires s == [A, B] || s == [A, B, C]
    requires |t| == |s| && t == s[1 := DEAD]
    ensures Removes(s, 8, t, B)
  {
    assert s[1] == B && DEAD == B.(p := None);
    LiveUpdate(s, 1);
    UpdateShrinks(s, 1, t);
  }

  lemma ExpireA()
    ensures Expires([A, DEAD], 1, [DEAD], A)
  {
    var s := [A, DEAD];
    LiveMembers(s);
    assert s[0] == A && s[1] == DEAD && s[1..] == [DEAD];
    assert Live(s) == Live([DEAD]) + multiset{A};
  }
}
