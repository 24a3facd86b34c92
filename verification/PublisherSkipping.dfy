/**
 A subscriber of any type, among arbitrary others: which items it is given, and when its fetch reads an
 empty queue. The steps of next() and what may fall between them are those of PublisherDelivery.
 */
module PublisherSkipping {
  import opened Options
  import opened Sequences
  import opened PublisherSpec
  import opened PublisherTheorems
  import D = PublisherDelivery

  /** base: the reading position when the current next() began; delivered: the values received;
      indices: their indices in the history, of which the first is 1. */
  datatype Reader<T> = Reader(
    w: World<T>, h: Handle, mode: Mode, phase: D.Phase, base: nat, delivered: seq<T>, indices: seq<int>)

  predicate Enabled<T>(o: Reader<T>, e: D.Event<T>) {
    && o.w.q.pos >= 1 && InUse(o.w.q, o.h)
    && match e
       case Other(op) => CanDo(o.w, op) && D.Foreign(op, o.h)
       case AwaitReady => o.phase.Outside?
       case AwaitSuspend(_) => o.phase.Checked?
       case GiveUp => o.phase.Checked?
       case Resume => o.phase.Suspended? && o.w.q.slots[o.h].awt.None?
       case AwaitResume => Resuming(o) && CanGet(o.w.q, o.h, o.mode)
  }

  predicate Resuming<T>(o: Reader<T>) {
    o.phase.Fetching? || o.phase.Split?
  }

  /** The index of the item that get_value returns. */
  function Index<T>(q: Queue<T>, h: Handle, mode: Mode): int
    requires h < |q.slots|
  {
    var rel := Diff(q.pos, q.slots[h].pos + 1);
    match mode
    case AllValues => q.pos - 1 - rel
    case SkipIfBehind => q.pos - 1 - if rel >= |q.items| then |q.items| - 1 else rel
    case SkipToRecent => q.pos - 1
  }

  function Step<T>(o: Reader<T>, e: D.Event<T>): Reader<T>
    requires Enabled(o, e)
  {
    match e
    case Other(op) => o.(w := Do(o.w, op))
    case AwaitReady =>
      var (q, ready) := Advance(o.w.q, o.h, o.mode);
      o.(w := o.w.(q := q), phase := if ready then D.Fetching else D.Checked,
         base := o.w.q.slots[o.h].pos)
    case AwaitSuspend(awt) =>
      var (q, suspended) := AdvanceSuspend(o.w.q, o.h, awt);
      o.(w := o.w.(q := q),
         phase := if suspended then D.Suspended
                  else if o.w.q.closed && !o.w.q.slots[o.h].kicked then D.Split
                  else D.Fetching)
    case GiveUp => o.(phase := D.Outside)
    case Resume => o.(phase := D.Fetching)
    case AwaitResume =>
      match GetValue(o.w.q, o.h, o.mode)
      case None => o.(phase := D.Ended)
      case Some(v) =>
        o.(phase := D.Outside, delivered := o.delivered + [v],
           indices := o.indices + [Index(o.w.q, o.h, o.mode)])
  }

  /** The steps of next() come in order, and only the last one delivers. */
  lemma NextInOrder<T>(o: Reader<T>, e: D.Event<T>)
    requires Enabled(o, e)
    ensures var p, p' := o.phase, Step(o, e).phase;
      match e
      case Other(_) => p' == p
      case AwaitReady => p'.Fetching? || p'.Checked?
      case AwaitSuspend(_) => p'.Suspended? || p'.Fetching? || p'.Split?
      case GiveUp => p'.Outside?
      case Resume => p'.Fetching?
      case AwaitResume => if GetValue(o.w.q, o.h, o.mode).None? then p'.Ended? else p'.Outside?
    ensures !e.AwaitResume? ==> Step(o, e).delivered == o.delivered
    ensures e.AwaitResume? ==>
      var r := GetValue(o.w.q, o.h, o.mode);
      Step(o, e).delivered == o.delivered + if r.Some? then [r.value] else []
  {
  }

  function MySlot<T>(o: Reader<T>): Slot
    requires InUse(o.w.q, o.h)
  {
    o.w.q.slots[o.h]
  }

  /** Everything delivered is the item of the history with its index. */
  ghost predicate FromHistory<T>(o: Reader<T>) {
    && |o.delivered| == |o.indices|
    && forall i :: 0 <= i < |o.indices| ==>
         1 <= o.indices[i] <= |o.w.history| && o.delivered[i] == o.w.history[o.indices[i] - 1]
  }

  ghost predicate Forward(indices: seq<int>) {
    forall i, j :: 0 <= i < j < |indices| ==> indices[i] <= indices[j]
  }

  /** No item that can still come is older than this. */
  function Oldest<T>(o: Reader<T>): int
    requires InUse(o.w.q, o.h)
  {
    match o.mode
    case AllValues => MySlot(o).pos
    case SkipIfBehind => Max(MySlot(o).pos, o.w.q.pos - |o.w.q.items|)
    case SkipToRecent => o.w.q.pos - 1
  }

  /** Up to where await_ready may skip. */
  function Newer<T>(o: Reader<T>): int {
    match o.mode
    case AllValues => 0
    case SkipIfBehind => o.w.q.pos - |o.w.q.items|
    case SkipToRecent => o.w.q.pos - 1
  }

  /** Where the reading position stands. */
  ghost predicate Positioned<T>(o: Reader<T>) {
    && InUse(o.w.q, o.h)
    && var l, pos := MySlot(o), o.w.q.pos;
       match o.phase
       case Outside => l.pos < pos || l.kicked
       case Checked => (l.pos < pos && l.pos == o.base) || l.kicked
       case Suspended => l.pos == o.base + 1 <= pos
       case Fetching => l.kicked || o.base + 1 <= l.pos <= Min(pos, Max(o.base + 1, Newer(o)))
       case Split => l.pos == o.base < pos && o.w.q.closed
       case Ended => true
  }

  ghost predicate Progress<T>(o: Reader<T>) {
    && Positioned(o) && FromHistory(o) && Forward(o.indices)
    && (o.indices != [] && !o.phase.Ended? && !MySlot(o).kicked ==>
          o.indices[|o.indices| - 1] <= Oldest(o))
  }

  ghost predicate Good<T>(o: Reader<T>, free: seq<nat>) {
    Window(o.w) && FreeList(o.w.q, free) && InUse(o.w.q, o.h) && Progress(o)
  }

  function StepFree<T>(o: Reader<T>, e: D.Event<T>, free: seq<nat>): seq<nat> {
    if e.Other? then FreeAfter(o.w, e.op, free) else free
  }

  /** The oldest item in the queue only gets younger. */
  lemma WindowMoves<T>(w: World<T>, op: Op<T>)
    requires Window(w) && CanDo(w, op)
    ensures Do(w, op).q.pos - |Do(w, op).q.items| >= w.q.pos - |w.q.items|
  {
  }

  /** The subscriber's progress survives publishing, closing and kicking. */
  lemma ProgressStays<T>(o: Reader<T>, w: World<T>)
    requires Progress(o) && o.w.history <= w.history && InUse(w.q, o.h)
    requires o.w.q.pos <= w.q.pos && (o.w.q.closed ==> w.q.closed)
    requires o.w.q.pos - |o.w.q.items| <= w.q.pos - |w.q.items|
    requires w.q.slots[o.h].pos == MySlot(o).pos && (MySlot(o).kicked ==> w.q.slots[o.h].kicked)
    ensures Progress(o.(w := w))
  {
  }

  lemma OtherKeepsGood<T>(o: Reader<T>, op: Op<T>, free: seq<nat>)
    requires Good(o, free) && Enabled(o, D.Other(op))
    ensures Good(Step(o, D.Other(op)), FreeAfter(o.w, op, free))
  {
    WindowStep(o.w, op);
    FreeListStep(o.w, op, free);
    D.ForeignKeepsSlot(o.w, op, o.h, free);
    D.ClosedStays(o.w, op);
    D.PosMoves(o.w, op);
    WindowMoves(o.w, op);
    hide Do, Window, FreeList, Progress;
    ProgressStays(o, Do(o.w, op));
  }

  /** await_ready and await_suspend move this subscriber's position, never past the end. */
  lemma OwnKeepsSlot<T>(o: Reader<T>, e: D.Event<T>)
    requires Enabled(o, e) && (e.AwaitReady? || e.AwaitSuspend?)
    requires Window(o.w) && (MySlot(o).pos < o.w.q.pos || MySlot(o).kicked)
    ensures var o' := Step(o, e);
      && InUse(o'.w.q, o.h)
      && o' == o.(w := o'.w, phase := o'.phase, base := if e.AwaitReady? then MySlot(o).pos else o.base)
      && o'.w == o.w.(q := o.w.q.(slots := o'.w.q.slots))
      && MySlot(o').kicked == MySlot(o).kicked && MySlot(o).pos <= MySlot(o').pos
      && (if MySlot(o).kicked then o'.phase == if e.AwaitReady? then D.Checked else D.Fetching
          else if e.AwaitReady? then o'.phase.Checked? || o'.phase.Fetching?
          else if o.w.q.closed then o'.phase.Split? else o'.phase.Suspended? || o'.phase.Fetching?)
      && (!MySlot(o).kicked ==>
            if o'.phase.Checked? || o'.phase.Split? then MySlot(o').pos == MySlot(o).pos
            else if o'.phase.Suspended? || e.AwaitSuspend? then MySlot(o').pos == MySlot(o).pos + 1 <= o.w.q.pos
            else MySlot(o).pos + 1 <= MySlot(o').pos <= Min(o.w.q.pos, Max(MySlot(o).pos + 1, Newer(o))))
  {
  }

  lemma OwnProgress<T>(o: Reader<T>, e: D.Event<T>)
    requires Progress(o) && Window(o.w) && Enabled(o, e) && (e.AwaitReady? || e.AwaitSuspend?)
    ensures Progress(Step(o, e))
  {
    OwnKeepsSlot(o, e);
    hide Step, Window;
    assert FromHistory(Step(o, e)) && Forward(Step(o, e).indices);
    hide FromHistory, Forward;
  }

  lemma OwnKeepsGood<T>(o: Reader<T>, e: D.Event<T>, free: seq<nat>)
    requires Good(o, free) && Enabled(o, e) && (e.AwaitReady? || e.AwaitSuspend?)
    ensures Good(Step(o, e), free)
  {
    OwnKeepsSlot(o, e);
    OwnProgress(o, e);
    var op := if e.AwaitReady? then DoAdvance(o.h, o.mode) else DoAdvanceSuspend(o.h, e.awt);
    WindowStep(o.w, op);
    FreeListStep(o.w, op, free);
    assert Step(o, e).w == Do(o.w, op);
    hide Step, Do, Window, FreeList, Progress;
  }

  /** What is fetched is in the history, and not older than Oldest says. */
  lemma FetchedIndex<T>(o: Reader<T>, free: seq<nat>)
    requires Good(o, free) && Enabled(o, D.AwaitResume)
    requires GetValue(o.w.q, o.h, o.mode).Some?
    ensures var i := Index(o.w.q, o.h, o.mode);
      && 1 <= i <= |o.w.history| && Oldest(o) <= i
      && GetValue(o.w.q, o.h, o.mode).value == o.w.history[i - 1]
      && !MySlot(o).kicked && MySlot(o).pos < o.w.q.pos
      && (o.mode.AllValues? ==> i == MySlot(o).pos)
      && (o.mode.SkipIfBehind? ==> i == Max(MySlot(o).pos, o.w.q.pos - |o.w.q.items|))
  {
  }

  lemma FetchKeepsGood<T>(o: Reader<T>, free: seq<nat>)
    requires Good(o, free) && Enabled(o, D.AwaitResume)
    ensures Good(Step(o, D.AwaitResume), free)
  {
    if GetValue(o.w.q, o.h, o.mode).Some? {
      FetchedIndex(o, free);
      hide Window, FreeList, GetValue, Index;
    }
  }

  lemma StepKeepsGood<T>(o: Reader<T>, e: D.Event<T>, free: seq<nat>)
    requires Good(o, free) && Enabled(o, e)
    ensures Good(Step(o, e), StepFree(o, e, free))
  {
    match e
    case Other(op) => OtherKeepsGood(o, op, free);
    case AwaitReady => OwnKeepsGood(o, e, free);
    case AwaitSuspend(_) => OwnKeepsGood(o, e, free);
    case GiveUp =>
    case Resume =>
    case AwaitResume => FetchKeepsGood(o, free);
  }

  ghost predicate IsRun<T>(o: Reader<T>, trace: seq<D.Event<T>>)
    decreases |trace|
  {
    trace == [] || (Enabled(o, trace[0]) && IsRun(Step(o, trace[0]), trace[1..]))
  }

  ghost function After<T>(o: Reader<T>, trace: seq<D.Event<T>>): Reader<T>
    requires IsRun(o, trace)
    decreases |trace|
  {
    if trace == [] then o else After(Step(o, trace[0]), trace[1..])
  }

  lemma {:induction false} RunKeepsGood<T>(o: Reader<T>, trace: seq<D.Event<T>>, free: seq<nat>)
    returns (free': seq<nat>)
    requires Good(o, free) && IsRun(o, trace)
    ensures Good(After(o, trace), free')
    ensures After(o, trace).mode == o.mode
    decreases |trace|
  {
    free' := free;
    if trace != [] {
      StepKeepsGood(o, trace[0], free);
      assert Step(o, trace[0]).mode == o.mode;
      hide Good, Step;
      free' := RunKeepsGood(Step(o, trace[0]), trace[1..], StepFree(o, trace[0], free));
    }
  }

  function Subscribed<T>(w: World<T>, sub: Sub, at: nat, mode: Mode): Reader<T> {
    var (q, h) := Subscribe(w.q, sub, at);
    Reader(w.(q := q), h, mode, D.Outside, at, [], [])
  }

  lemma SubscribedGood<T>(w: World<T>, sub: Sub, at: nat, mode: Mode, free: seq<nat>)
    requires Window(w) && FreeList(w.q, free) && at < w.q.pos
    ensures Good(Subscribed(w, sub, at, mode), if free == [] then [] else free[1..])
  {
    SubscribeTakesFreeSlot(w.q, sub, at, free);
  }

  /** Whatever its type, and whatever happens between its steps: a subscriber that started at an
      existing position is given only items that were published, never an older one than before. */
  lemma NeverBackwards<T>(w: World<T>, sub: Sub, at: nat, mode: Mode, free: seq<nat>,
                          trace: seq<D.Event<T>>)
    requires Window(w) && FreeList(w.q, free) && at < w.q.pos
    requires IsRun(Subscribed(w, sub, at, mode), trace)
    ensures var o := After(Subscribed(w, sub, at, mode), trace);
      FromHistory(o) && Forward(o.indices)
  {
    SubscribedGood(w, sub, at, mode, free);
    hide *;
    var free' := RunKeepsGood(Subscribed(w, sub, at, mode), trace, if free == [] then [] else free[1..]);
    GoodMeans(After(Subscribed(w, sub, at, mode), trace), free');
  }

  lemma GoodMeans<T>(o: Reader<T>, free: seq<nat>)
    requires Good(o, free)
    ensures FromHistory(o) && Forward(o.indices)
  {
  }

  /** What a subscriber that skips is given, exactly: something if and only if it is not kicked and there
      is an item after the position at which its next() began; and then, if it skips only when behind,
      the next item, or the oldest in the queue if that one is gone, and otherwise the newest. */
  ghost predicate SkipsExactly<T>(o: Reader<T>)
    requires InUse(o.w.q, o.h) && CanGet(o.w.q, o.h, o.mode)
  {
    var r, history := GetValue(o.w.q, o.h, o.mode), o.w.history;
    var i := if o.mode.SkipToRecent? then |history|
             else Max(o.base + 1, |history| + 1 - |o.w.q.items|);
    && (r.Some? <==> !MySlot(o).kicked && o.base < |history|)
    && (r.Some? ==> 1 <= i <= |history| && r.value == history[i - 1])
  }

  lemma FetchSkips<T>(o: Reader<T>, free: seq<nat>)
    requires Good(o, free) && Enabled(o, D.AwaitResume) && o.phase.Fetching? && !o.mode.AllValues?
    ensures SkipsExactly(o)
  {
  }

  /** Every fetch of every run, but for a next() that closing has split. */
  lemma SkippingIsExact<T>(w: World<T>, sub: Sub, at: nat, mode: Mode, free: seq<nat>,
                           trace: seq<D.Event<T>>)
    requires Window(w) && FreeList(w.q, free) && at < w.q.pos && !mode.AllValues?
    requires IsRun(Subscribed(w, sub, at, mode), trace)
    requires After(Subscribed(w, sub, at, mode), trace).phase.Fetching?
    ensures var o := After(Subscribed(w, sub, at, mode), trace);
      InUse(o.w.q, o.h) && CanGet(o.w.q, o.h, o.mode) && SkipsExactly(o)
  {
    SubscribedGood(w, sub, at, mode, free);
    SubscribedMode(w, sub, at, mode);
    hide *;
    var free' := RunKeepsGood(Subscribed(w, sub, at, mode), trace, if free == [] then [] else free[1..]);
    FetchOfRun(After(Subscribed(w, sub, at, mode), trace), free');
  }

  lemma FetchOfRun<T>(o: Reader<T>, free: seq<nat>)
    requires Good(o, free) && o.phase.Fetching? && !o.mode.AllValues?
    ensures InUse(o.w.q, o.h) && CanGet(o.w.q, o.h, o.mode) && SkipsExactly(o)
  {
    EmptyRead(o, free);
    FetchSkips(o, free);
  }

  // ---------- Reading an empty queue ----------

  /** In every run, the fetch of a subscriber indexes an empty queue if and only if it is of a type that
      skips, not kicked, and nothing had been published when the queue was closed between its failed
      await_ready and its await_suspend. */
  lemma EmptyReadExact<T>(w: World<T>, sub: Sub, at: nat, mode: Mode, free: seq<nat>,
                          trace: seq<D.Event<T>>)
    requires Window(w) && FreeList(w.q, free) && at < w.q.pos
    requires IsRun(Subscribed(w, sub, at, mode), trace)
    requires Resuming(After(Subscribed(w, sub, at, mode), trace))
    ensures var o := After(Subscribed(w, sub, at, mode), trace);
      && InUse(o.w.q, o.h)
      && (!CanGet(o.w.q, o.h, o.mode) <==>
            !mode.AllValues? && !MySlot(o).kicked && o.phase.Split? && o.w.history == [])
  {
    SubscribedGood(w, sub, at, mode, free);
    hide *;
    var free' := RunKeepsGood(Subscribed(w, sub, at, mode), trace, if free == [] then [] else free[1..]);
    EmptyRead(After(Subscribed(w, sub, at, mode), trace), free');
    assert Subscribed(w, sub, at, mode).mode == mode by { SubscribedMode(w, sub, at, mode); }
  }

  lemma SubscribedMode<T>(w: World<T>, sub: Sub, at: nat, mode: Mode)
    ensures Subscribed(w, sub, at, mode).mode == mode
  {
  }

  lemma EmptyRead<T>(o: Reader<T>, free: seq<nat>)
    requires Good(o, free) && Resuming(o)
    ensures InUse(o.w.q, o.h)
    ensures !CanGet(o.w.q, o.h, o.mode) <==>
      !o.mode.AllValues? && !MySlot(o).kicked && o.phase.Split? && o.w.history == []
  {
  }

  /** Nothing is published; the queue is closed between the failed await_ready and await_suspend. */
  lemma CloseCanReadEmpty(mode: Mode) returns (w: World<int>, trace: seq<D.Event<int>>)
    requires !mode.AllValues?
    ensures Window(w) && FreeList(w.q, [])
    ensures IsRun(Subscribed(w, 0, 0, mode), trace)
    ensures var o := After(Subscribed(w, 0, 0, mode), trace);
      Resuming(o) && !CanGet(o.w.q, o.h, mode)
  {
    w := Start<int>(8, 1);
    var o := Subscribed(w, 0, 0, mode);
    var o1 := o.(phase := D.Checked);
    var o2 := o1.(w := Do(o1.w, DoClose));
    var o3 := o2.(phase := D.Split);
    assert o.w.q.slots == [Slot(0, 0, None, true, false)];
    assert o2.w.q.slots == [Slot(0, 0, None, true, false)] && o2.w.q.closed && o2.w.q.pos == 1;
    assert Step(o2, D.AwaitSuspend(1)) == o3;
    Prepend(o2, D.AwaitSuspend(1), []);
    assert Step(o1, D.Other(DoClose)) == o2;
    Prepend(o1, D.Other(DoClose), [D.AwaitSuspend(1)] + []);
    assert Step(o, D.AwaitReady) == o1;
    Prepend(o, D.AwaitReady, [D.Other(DoClose)] + ([D.AwaitSuspend(1)] + []));
    trace := [D.AwaitReady] + ([D.Other(DoClose)] + ([D.AwaitSuspend(1)] + []));
  }

  lemma Prepend<T>(o: Reader<T>, e: D.Event<T>, trace: seq<D.Event<T>>)
    requires Enabled(o, e) && IsRun(Step(o, e), trace)
    ensures IsRun(o, [e] + trace) && After(o, [e] + trace) == After(Step(o, e), trace)
  {
    assert ([e] + trace)[1..] == trace;
  }
}
