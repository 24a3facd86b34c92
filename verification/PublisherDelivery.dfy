/**
 One all_values subscriber that awaits next(), among arbitrary others. next() is three steps:
 await_ready (advance), await_suspend (advance_suspend) and await_resume (get_value); everything
 else, pushes, closing, kicks and the operations of other subscribers, may fall between them.
 */
module PublisherDelivery {
  import opened Options
  import opened Sequences
  import opened PublisherSpec
  import opened PublisherTheorems

  /** Checked: await_ready has failed; Fetching: await_resume comes next; Split: so it does, but the
      queue was closed between the failed await_ready and await_suspend, which did not advance. */
  datatype Phase = Outside | Checked | Suspended | Fetching | Split | Ended

  /** The awaiter that the subscriber registered last, and how often it was suspended with an awaiter
      registered, its awaiter was returned to be resumed, and it was resumed. */
  datatype Wake = Wake(awt: Option<Awt>, suspended: nat, returned: nat, resumed: nat)

  const NO_WAKE := Wake(None, 0, 0, 0)

  /** start: position at subscription; delivered: the values received so far. repeated and behind
      record the position at which an item was delivered once more, and that the subscriber once had
      more than the maximum length to read. */
  datatype Observed<T> = Observed(
    w: World<T>, h: Handle, start: nat, phase: Phase, delivered: seq<T>,
    repeated: Option<nat>, behind: bool, wake: Wake)

  datatype Event<+T> =
    | Other(op: Op<T>)
    | AwaitReady
    | AwaitSuspend(awt: Awt)
    | GiveUp        // next_ready() returns false instead of suspending
    | Resume
    | AwaitResume

  /** The operations that only this subscriber itself performs on its slot. */
  predicate Foreign<T>(op: Op<T>, h: Handle) {
    match op
    case DoLeave(i) => i != h
    case DoAdvance(i, _) => i != h
    case DoAdvanceSuspend(i, _) => i != h
    case _ => true
  }

  predicate Enabled<T>(o: Observed<T>, e: Event<T>) {
    && o.w.q.pos >= 1 && InUse(o.w.q, o.h)
    && match e
       case Other(op) =>
         // nobody else registers this subscriber's awaiter
         CanDo(o.w, op) && Foreign(op, o.h) && (op.DoAdvanceSuspend? ==> o.wake.awt != Some(op.awt))
       case AwaitReady => o.phase.Outside?
       case AwaitSuspend(awt) => o.phase.Checked? && NotOthers(o.w.q, o.h, awt)
       case GiveUp => o.phase.Checked?
       case Resume => o.phase.Suspended? && o.wake.resumed < o.wake.returned
       case AwaitResume => o.phase.Fetching? || o.phase.Split?
  }

  /** No other slot in use holds the awaiter. */
  predicate NotOthers<T>(q: Queue<T>, h: Handle, awt: Awt) {
    forall i :: 0 <= i < |q.slots| && i != h && q.slots[i].used ==> q.slots[i].awt != Some(awt)
  }

  /** How often a list holds the awaiter. */
  function Times(awts: seq<Awt>, awt: Option<Awt>): nat {
    match awt
    case None => 0
    case Some(a) => multiset(awts)[a]
  }

  /** The number of items before the next one to deliver. */
  function Next<T>(o: Observed<T>): int {
    o.start + |o.delivered| - if o.repeated.Some? then 1 else 0
  }

  function Step<T>(o: Observed<T>, e: Event<T>): Observed<T>
    requires Enabled(o, e)
  {
    match e
    case Other(op) =>
      var w := Do(o.w, op);
      o.(w := w, behind := o.behind || |w.history| - Next(o) > w.q.maxLen,
         wake := o.wake.(returned := o.wake.returned + Times(Returned(o.w, op), o.wake.awt)))
    case AwaitReady =>
      var (q, ready) := Advance(o.w.q, o.h, AllValues);
      o.(w := o.w.(q := q), phase := if ready then Fetching else Checked)
    case AwaitSuspend(awt) =>
      var (q, suspended) := AdvanceSuspend(o.w.q, o.h, awt);
      o.(w := o.w.(q := q),
         phase := if suspended then Suspended
                  else if o.w.q.closed && !o.w.q.slots[o.h].kicked then Split
                  else Fetching,
         wake := if suspended then o.wake.(awt := Some(awt), suspended := o.wake.suspended + 1)
                 else o.wake)
    case GiveUp => o.(phase := Outside)
    case Resume => o.(phase := Fetching, wake := o.wake.(resumed := o.wake.resumed + 1))
    case AwaitResume =>
      match GetValue(o.w.q, o.h, AllValues)
      case None => o.(phase := Ended)
      case Some(v) =>
        o.(phase := Outside, delivered := o.delivered + [v],
           repeated := if o.phase.Split? then Some(o.w.q.slots[o.h].pos) else o.repeated)
  }

  function MySlot<T>(o: Observed<T>): Slot
    requires InUse(o.w.q, o.h)
  {
    o.w.q.slots[o.h]
  }

  /** The items delivered are the ones published right after the starting position, each once, but for
      the one before position c, which came again when the queue was closed there. */
  ghost predicate Exactly<T>(o: Observed<T>) {
    var history, n := o.w.history, Next(o);
    match o.repeated
    case None => o.delivered != [] ==> n <= |history| && o.delivered == history[o.start..n]
    case Some(c) =>
      && 1 <= c && o.start <= c <= n <= |history|
      && o.delivered == history[o.start..c] + [history[c - 1]] + history[c..n]
  }

  /** Where the reading position stands in each phase. */
  ghost predicate Positioned<T>(o: Observed<T>) {
    && InUse(o.w.q, o.h)
    && var l := MySlot(o);
       match o.phase
       case Outside => l.pos == Next(o)
       case Checked => l.pos == Next(o) && (o.repeated.Some? ==> l.kicked)
       case Suspended => l.pos == Next(o) + 1
       case Fetching => l.kicked || l.pos == Next(o) + 1
       case Split => l.pos == Next(o) && o.w.q.closed && o.repeated.None?
       case Ended => true
  }

  /** Unless it fell behind, everything the subscriber has still to read is in the queue, and it does
      not sit in front of an item without somebody having woken it for a reason. */
  ghost predicate Retained<T>(o: Observed<T>) {
    InUse(o.w.q, o.h) && !MySlot(o).kicked && !o.phase.Ended? ==>
      var l := MySlot(o);
      && Next(o) <= |o.w.history|
      && (!o.behind ==> |o.w.history| - Next(o) <= |o.w.q.items|)
      && (o.phase.Suspended? ==> l.awt.Some? || l.pos < o.w.q.pos || o.w.q.closed)
      && (o.phase.Fetching? ==> l.pos < o.w.q.pos || o.w.q.closed)
  }

  /** Who once fell behind stays behind: the item it needs has left the queue. */
  ghost predicate StaysBehind<T>(o: Observed<T>) {
    o.behind ==> o.phase.Ended? || |o.w.history| - Next(o) > o.w.q.maxLen
  }

  ghost predicate Progress<T>(o: Observed<T>) {
    && Exactly(o) && Positioned(o) && StaysBehind(o)
    && (o.repeated.Some? ==> o.w.q.closed)
  }

  ghost predicate Good<T>(o: Observed<T>, free: seq<nat>) {
    Window(o.w) && FreeList(o.w.q, free) && InUse(o.w.q, o.h) && o.start < SIZE && Progress(o)
  }

  function StepFree<T>(o: Observed<T>, e: Event<T>, free: seq<nat>): seq<nat> {
    if e.Other? then FreeAfter(o.w, e.op, free) else free
  }

  /** What an operation of somebody else does to this subscriber's slot: nothing, except that a push,
      a close or a kick takes its awaiter, and a kick marks it. */
  lemma ForeignKeepsSlot<T>(w: World<T>, op: Op<T>, h: Handle, free: seq<nat>)
    requires Window(w) && FreeList(w.q, free) && CanDo(w, op) && Foreign(op, h) && InUse(w.q, h)
    ensures InUse(Do(w, op).q, h)
    ensures var l, l' := w.q.slots[h], Do(w, op).q.slots[h];
      && l'.pos == l.pos
      && (l.kicked ==> l'.kicked)
      && (l'.awt != l.awt ==> l'.awt.None? && (l'.kicked || op.DoPush? || op.DoClose?))
    ensures w.history <= Do(w, op).history
  {
    match op
    case DoSubscribe(sub, at) => SubscribeTakesFreeSlot(w.q, sub, at, free);
    case DoSubscribeRecent(sub) => SubscribeTakesFreeSlot(w.q, sub, w.q.pos - 1, free);
    case DoSubscribeCopy(sub, i) => SubscribeTakesFreeSlot(w.q, sub, w.q.slots[i].pos, free);
    case _ =>
  }

  /** A closed queue stays closed, and the limits are constants. */
  lemma ClosedStays<T>(w: World<T>, op: Op<T>)
    requires Window(w) && CanDo(w, op)
    ensures var q, q' := w.q, Do(w, op).q;
      && q'.maxLen == q.maxLen && (q.closed ==> q'.closed) && (op.DoClose? ==> q'.closed)
  {
  }

  /** Only a push of something moves the end of the stream. */
  lemma PosMoves<T>(w: World<T>, op: Op<T>)
    requires Window(w) && CanDo(w, op)
    ensures var q, q' := w.q, Do(w, op).q;
      if op.DoPush? && op.batch != [] then q'.pos > q.pos
      else q'.pos == q.pos && (op.DoPush? ==> q' == q)
  {
  }

  /** Trimming keeps what a subscriber within the maximum length still needs, */
  lemma TrimKeeps<T>(q: Queue<T>, count: nat, h: Handle)
    requires InUse(q, h)
    ensures var q' := PushLocked(q, count).0;
      |q'.items| >= Min(Diff(q'.pos, q.slots[h].pos), Min(q.maxLen, |q.items|))
  {
    hide Diff;
  }

  /** and only a push or a close trims the queue. */
  lemma NeededStays<T>(w: World<T>, op: Op<T>, h: Handle)
    requires Window(w) && CanDo(w, op) && InUse(w.q, h)
    ensures var q, q' := w.q, Do(w, op).q;
      || (q'.pos == q.pos && q'.items == q.items)
      || |q'.items| >= Min(Diff(q'.pos, q.slots[h].pos), Min(q.maxLen, |q.items| + q'.pos - q.pos))
  {
    hide NeedLen, Cleared, Woken, Diff;
    match op
    case DoPush(batch) => TrimKeeps(w.q.(items := Reverse(batch) + w.q.items), |batch|, h);
    case DoClose => TrimKeeps(w.q.(closed := true), 0, h);
    case _ =>
  }

  /** The subscriber's progress survives publishing, closing and kicking. */
  lemma ProgressStays<T>(o: Observed<T>, w: World<T>, o': Observed<T>)
    requires Progress(o) && o.w.history <= w.history
    requires w.q.maxLen == o.w.q.maxLen && (o.w.q.closed ==> w.q.closed)
    requires InUse(o.w.q, o.h) && InUse(w.q, o.h)
    requires w.q.slots[o.h].pos == MySlot(o).pos && (MySlot(o).kicked ==> w.q.slots[o.h].kicked)
    requires o' == o.(w := w, behind := o.behind || |w.history| - Next(o) > w.q.maxLen, wake := o'.wake)
    ensures Progress(o')
  {
    assert Next(o') == Next(o);
    ExactlyStays(o, o');
    hide Exactly;
  }

  lemma ExactlyStays<T>(o: Observed<T>, o': Observed<T>)
    requires Exactly(o) && o.w.history <= o'.w.history
    requires o'.start == o.start && o'.delivered == o.delivered && o'.repeated == o.repeated
    ensures Exactly(o')
  {
    var n, w := Next(o), o'.w;
    match o.repeated
    case None =>
      if o.delivered != [] {
        assert w.history[o.start..n] == o.w.history[o.start..n];
      }
    case Some(c) =>
      assert w.history[o.start..c] == o.w.history[o.start..c];
      assert w.history[c..n] == o.w.history[c..n];
  }

  lemma OtherKeepsGood<T>(o: Observed<T>, op: Op<T>, free: seq<nat>)
    requires Good(o, free) && Enabled(o, Other(op))
    ensures Good(Step(o, Other(op)), FreeAfter(o.w, op, free))
  {
    WindowStep(o.w, op);
    FreeListStep(o.w, op, free);
    ForeignKeepsSlot(o.w, op, o.h, free);
    ClosedStays(o.w, op);
    hide Do, Window, FreeList, Progress, Returned;
    ProgressStays(o, Do(o.w, op), Step(o, Other(op)));
  }

  /** await_ready and await_suspend leave everything but this subscriber's slot alone. */
  lemma OwnKeepsSlot<T>(o: Observed<T>, e: Event<T>)
    requires Enabled(o, e) && (e.AwaitReady? || e.AwaitSuspend?)
    ensures var o' := Step(o, e);
      && InUse(o'.w.q, o.h) && o' == o.(w := o'.w, phase := o'.phase, wake := o'.wake)
      && o'.w == o.w.(q := o.w.q.(slots := o'.w.q.slots))
      && MySlot(o').kicked == MySlot(o).kicked
      && (if e.AwaitReady?
          then o'.phase == if MySlot(o).kicked || (MySlot(o).pos + 1 == o.w.q.pos && !o.w.q.closed)
                           then Checked else Fetching
          else if MySlot(o).kicked then o'.phase.Fetching?
          else if o.w.q.closed then o'.phase.Split?
          else o'.phase == if MySlot(o).pos + 1 == o.w.q.pos then Suspended else Fetching)
      && MySlot(o').pos
         == MySlot(o).pos + (if o'.phase.Checked? || o'.phase.Split? || MySlot(o).kicked then 0 else 1)
      && (if o'.phase.Suspended?
          then MySlot(o').awt == Some(e.awt)
            && o'.wake == o.wake.(awt := Some(e.awt), suspended := o.wake.suspended + 1)
          else MySlot(o').awt == MySlot(o).awt && o'.wake == o.wake)
  {
  }

  lemma OwnProgress<T>(o: Observed<T>, e: Event<T>)
    requires Progress(o) && Enabled(o, e) && (e.AwaitReady? || e.AwaitSuspend?)
    ensures Progress(Step(o, e))
  {
    OwnKeepsSlot(o, e);
    var o' := Step(o, e);
    hide Step;
    assert Next(o') == Next(o);
    assert Exactly(o');
    hide Exactly;
  }

  lemma OwnKeepsGood<T>(o: Observed<T>, e: Event<T>, free: seq<nat>)
    requires Good(o, free) && Enabled(o, e) && (e.AwaitReady? || e.AwaitSuspend?)
    ensures Good(Step(o, e), free)
  {
    OwnKeepsSlot(o, e);
    OwnProgress(o, e);
    var op := if e.AwaitReady? then DoAdvance(o.h, AllValues) else DoAdvanceSuspend(o.h, e.awt);
    WindowStep(o.w, op);
    FreeListStep(o.w, op, free);
    assert Step(o, e).w == Do(o.w, op);
    hide Step, Do, Window, FreeList, Progress;
  }

  /** A value that is fetched is the item right after the last one delivered. */
  lemma FetchedIsNext<T>(o: Observed<T>, free: seq<nat>)
    requires Good(o, free) && o.phase.Fetching?
    requires GetValue(o.w.q, o.h, AllValues).Some?
    ensures 0 <= Next(o) < |o.w.history| && |o.w.history| - Next(o) <= o.w.q.maxLen
    ensures !MySlot(o).kicked && GetValue(o.w.q, o.h, AllValues).value == o.w.history[Next(o)]
  {
    assert MySlot(o).pos <= o.w.q.pos;
  }

  /** After a next() that closing has split, the item before the position comes, delivered before or
      not, exactly if it exists and is still in the queue; otherwise the stream seems to end, even if
      there are items to read. */
  lemma SplitFetch<T>(o: Observed<T>, free: seq<nat>)
    requires Good(o, free) && o.phase.Split?
    ensures var c := MySlot(o).pos;
      && (GetValue(o.w.q, o.h, AllValues).Some? <==> Repeats(o))
      && (Repeats(o) ==> GetValue(o.w.q, o.h, AllValues) == Some(o.w.history[c - 1]))
  {
    var c := MySlot(o).pos;
    if c > o.w.q.pos {
      assert o.delivered == [] && c == o.start;
    }
  }

  /** The next await_resume delivers an item once more. */
  ghost predicate Repeats<T>(o: Observed<T>) {
    && o.phase.Split? && InUse(o.w.q, o.h) && !MySlot(o).kicked
    && 1 <= MySlot(o).pos <= |o.w.history| && |o.w.history| - MySlot(o).pos < |o.w.q.items|
  }

  lemma FetchKeepsGood<T>(o: Observed<T>, free: seq<nat>)
    requires Good(o, free) && Enabled(o, AwaitResume)
    ensures Good(Step(o, AwaitResume), free)
  {
    if GetValue(o.w.q, o.h, AllValues).None? {
      EndsStays(o);
    } else if o.phase.Split? {
      SplitFetch(o, free);
      RepeatedProgress(o);
    } else {
      FetchedIsNext(o, free);
      FetchedProgress(o, GetValue(o.w.q, o.h, AllValues).value);
    }
    hide Window, FreeList, Progress, GetValue;
  }

  lemma EndsStays<T>(o: Observed<T>)
    requires Progress(o)
    ensures Progress(o.(phase := Ended))
  {
    var o' := o.(phase := Ended);
    assert Next(o') == Next(o) && Exactly(o');
    hide Exactly;
  }

  lemma FetchedProgress<T>(o: Observed<T>, v: T)
    requires Progress(o) && o.phase.Fetching? && !MySlot(o).kicked
    requires 0 <= Next(o) < |o.w.history| && v == o.w.history[Next(o)]
    requires |o.w.history| - Next(o) <= o.w.q.maxLen
    ensures Progress(o.(phase := Outside, delivered := o.delivered + [v]))
  {
    NextAppends(o, v);
    var o' := o.(phase := Outside, delivered := o.delivered + [v]);
    assert Exactly(o.(delivered := o.delivered + [v])) ==> Exactly(o');
    hide Exactly;
  }

  lemma RepeatedProgress<T>(o: Observed<T>)
    requires Progress(o) && Repeats(o) && |o.w.q.items| <= o.w.q.maxLen
    ensures var c := MySlot(o).pos;
      Progress(o.(phase := Outside, delivered := o.delivered + [o.w.history[c - 1]], repeated := Some(c)))
  {
    SplitAppends(o);
    var n := Next(o);
    var o' := o.(delivered := o.delivered + [o.w.history[n - 1]], repeated := Some(n));
    assert Exactly(o') ==> Exactly(o'.(phase := Outside));
    hide Exactly;
  }

  lemma SplitAppends<T>(o: Observed<T>)
    requires Exactly(o) && Repeats(o) && Next(o) == MySlot(o).pos && o.repeated.None?
    ensures var n, history := Next(o), o.w.history;
      Exactly(o.(delivered := o.delivered + [history[n - 1]], repeated := Some(n)))
  {
    var n, history := Next(o), o.w.history;
    assert history[o.start..n] + [history[n - 1]] + history[n..n] == history[o.start..n] + [history[n - 1]];
    assert o.delivered == history[o.start..n];
  }

  lemma NextAppends<T>(o: Observed<T>, v: T)
    requires Exactly(o) && 0 <= Next(o) < |o.w.history| && v == o.w.history[Next(o)]
    ensures Exactly(o.(delivered := o.delivered + [v]))
  {
    var n, history := Next(o), o.w.history;
    match o.repeated
    case None => assert o.start <= n && history[o.start..n + 1] == history[o.start..n] + [v];
    case Some(c) =>
      assert history[c..n + 1] == history[c..n] + [v];
      var before := history[o.start..c] + [history[c - 1]];
      assert (before + history[c..n]) + [v] == before + (history[c..n] + [v]);
  }

  lemma StepKeepsGood<T>(o: Observed<T>, e: Event<T>, free: seq<nat>)
    requires Good(o, free) && Enabled(o, e)
    ensures Good(Step(o, e), StepFree(o, e, free))
  {
    match e
    case Other(op) => OtherKeepsGood(o, op, free);
    case AwaitReady => OwnKeepsGood(o, e, free);
    case AwaitSuspend(_) => OwnKeepsGood(o, e, free);
    case GiveUp =>
    case Resume =>
    case AwaitResume => FetchKeepsGood(o, free);
  }

  /** next() takes its three steps in order, unless it is ready or cannot suspend, and only its last one
      delivers: the value that it fetched, or the end. */
  lemma NextInOrder<T>(o: Observed<T>, e: Event<T>)
    requires Enabled(o, e)
    ensures var p, p', r := o.phase, Step(o, e).phase, GetValue(o.w.q, o.h, AllValues);
      match e
      case Other(_) => p' == p
      case AwaitReady => p'.Fetching? || p'.Checked?
      case AwaitSuspend(_) => p'.Suspended? || p'.Fetching? || p'.Split?
      case GiveUp => p'.Outside?
      case Resume => p'.Fetching?
      case AwaitResume => if r.None? then p'.Ended? else p'.Outside?
    ensures var r := GetValue(o.w.q, o.h, AllValues);
      Step(o, e).delivered == o.delivered + if e.AwaitResume? && r.Some? then [r.value] else []
  {
  }

  // ---------- Nothing is trimmed too early ----------

  lemma OtherKeepsRetained<T>(o: Observed<T>, op: Op<T>, free: seq<nat>)
    requires Good(o, free) && Retained(o) && Enabled(o, Other(op))
    ensures Retained(Step(o, Other(op)))
  {
    ForeignKeepsSlot(o.w, op, o.h, free);
    ClosedStays(o.w, op);
    PosMoves(o.w, op);
    NeededStays(o.w, op, o.h);
    WindowStep(o.w, op);
    hide Do, FreeList;
  }

  lemma StepKeepsRetained<T>(o: Observed<T>, e: Event<T>, free: seq<nat>)
    requires Good(o, free) && Retained(o) && WakeCounted(o) && Enabled(o, e)
    ensures Retained(Step(o, e))
  {
    match e
    case Other(op) => OtherKeepsRetained(o, op, free);
    case AwaitReady =>
      OwnKeepsSlot(o, e);
      hide Step, FreeList;
    case AwaitSuspend(_) =>
      OwnKeepsSlot(o, e);
      hide Step, FreeList;
    case GiveUp =>
    case Resume =>
    case AwaitResume =>
      if o.phase.Fetching? && GetValue(o.w.q, o.h, AllValues).Some? {
        FetchedIsNext(o, free);
      }
  }

  /** await_resume, exactly: the subscriber gets the next item of the history if and only if there is
      one, it was not kicked, and it never had more than the maximum length to read; otherwise, unless
      kicked or behind, it has been delivered everything and the stream is closed. */
  lemma FetchExact<T>(o: Observed<T>, free: seq<nat>)
    requires Good(o, free) && Retained(o) && o.phase.Fetching?
    ensures var r, n := GetValue(o.w.q, o.h, AllValues), Next(o);
      && (r.Some? <==> !MySlot(o).kicked && !o.behind && 0 <= n < |o.w.history|)
      && (r.Some? ==> r.value == o.w.history[n])
      && (r.None? && !MySlot(o).kicked && !o.behind ==> o.w.q.closed && n == |o.w.history|)
  {
    if GetValue(o.w.q, o.h, AllValues).Some? {
      FetchedIsNext(o, free);
    }
  }

  /** The end of the stream is reported to a subscriber that was neither kicked nor behind, and has
      items to read. */
  ghost predicate EndsEarly<T>(o: Observed<T>) {
    && Enabled(o, AwaitResume) && GetValue(o.w.q, o.h, AllValues).None?
    && !MySlot(o).kicked && !o.behind && Next(o) < |o.w.history|
  }

  /** The queue was closed between a failed await_ready and await_suspend, and everything in it has
      still to be read. */
  ghost predicate Loses<T>(o: Observed<T>) {
    && o.phase.Split? && InUse(o.w.q, o.h) && !MySlot(o).kicked && !o.behind
    && |o.w.history| - MySlot(o).pos == |o.w.q.items| > 0
  }

  /** What one await_resume yields: after a next() that closing has split the item before the position
      or nothing, and otherwise the next item. */
  ghost predicate FetchesExactly<T>(o: Observed<T>) {
    && InUse(o.w.q, o.h)
    && var r, n := GetValue(o.w.q, o.h, AllValues), Next(o);
       && (r.Some? <==>
             if o.phase.Split? then Repeats(o)
             else !MySlot(o).kicked && !o.behind && 0 <= n < |o.w.history|)
       && (r.Some? && !o.phase.Split? ==> r.value == o.w.history[n])
       && (r.Some? && o.phase.Split? ==> 1 <= n <= |o.w.history| && r.value == o.w.history[n - 1])
       && (EndsEarly(o) <==> Loses(o))
       && (r.None? && !MySlot(o).kicked && !o.behind && !Loses(o) ==>
             o.w.q.closed && n == |o.w.history|)
  }

  lemma ResumeExact<T>(o: Observed<T>, free: seq<nat>)
    requires Good(o, free) && Retained(o) && Enabled(o, AwaitResume)
    ensures FetchesExactly(o)
  {
    if o.phase.Split? {
      SplitFetch(o, free);
    } else {
      FetchExact(o, free);
    }
    hide GetValue, FreeList, Exactly;
  }

  // ---------- Waking up ----------

  /** The awaiter of a suspended subscriber is in its slot, or was returned once and not resumed yet;
      otherwise it is neither. */
  ghost predicate WakeCounted<T>(o: Observed<T>) {
    && InUse(o.w.q, o.h)
    && var l, k := MySlot(o), o.wake;
       && (l.awt.Some? ==> l.awt == k.awt && o.phase.Suspended?)
       && (k.awt.Some? ==> NotOthers(o.w.q, o.h, k.awt.value))
       && k.suspended == k.returned + (if l.awt.Some? then 1 else 0)
       && k.returned == k.resumed + (if o.phase.Suspended? && l.awt.None? then 1 else 0)
  }

  lemma CountNone(awts: seq<Awt>, a: Awt)
    requires a !in awts
    ensures multiset(awts)[a] == 0
  {
    assert a in multiset(awts) <==> a in awts;
  }

  lemma CountOnce(awts: seq<Awt>, a: Awt, k: nat)
    requires k < |awts| && forall j :: 0 <= j < |awts| ==> (awts[j] == a <==> j == k)
    ensures multiset(awts)[a] == 1
  {
    assert awts == awts[..k] + [a] + awts[k + 1..];
    CountNone(awts[..k], a);
    CountNone(awts[k + 1..], a);
  }

  /** If only slot h can hold the awaiter, it is collected once if it does, and otherwise not at all. */
  lemma CollectedOnce(slots: seq<Slot>, at: seq<nat>, woken: seq<Awt>, h: Handle, a: Awt)
    requires Registered(slots, at, woken) && h < |slots| && slots[h].used
    requires slots[h].awt.None? || slots[h].awt == Some(a)
    requires forall i :: 0 <= i < |slots| && i != h && slots[i].used ==> slots[i].awt != Some(a)
    ensures multiset(woken)[a] == if slots[h].awt.Some? then 1 else 0
  {
    if slots[h].awt.Some? {
      var k :| 0 <= k < |at| && at[k] == h;
      CountOnce(woken, a, k);
    } else {
      CountNone(woken, a);
    }
  }

  /** What an operation does to the registrations, as this subscriber sees them. */
  ghost predicate WakesOnly<T>(w: World<T>, op: Op<T>, h: Handle, a: Awt)
    requires CanDo(w, op) && w.q.pos >= 1
  {
    && InUse(w.q, h) && InUse(Do(w, op).q, h) && NotOthers(Do(w, op).q, h, a)
    && var before, now := w.q.slots[h].awt, Do(w, op).q.slots[h].awt;
       && (now == before || now.None?)
       && multiset(Returned(w, op))[a] == if before.Some? && now.None? then 1 else 0
  }

  /** The subscriber's slot holds its awaiter or none, and no other slot holds it. */
  ghost predicate OnlyOwn<T>(w: World<T>, h: Handle, a: Awt) {
    && w.q.pos >= 1 && InUse(w.q, h) && NotOthers(w.q, h, a)
    && (w.q.slots[h].awt.None? || w.q.slots[h].awt == Some(a))
  }

  lemma PushWakesOnly<T>(w: World<T>, batch: seq<T>, h: Handle, a: Awt)
    requires OnlyOwn(w, h, a)
    ensures WakesOnly(w, DoPush(batch), h, a)
  {
    var at := PushWakes(w.q, batch);
    if batch != [] {
      CollectedOnce(w.q.slots, at, Push(w.q, batch).1, h, a);
    }
    hide Woken, NeedLen;
  }

  lemma CloseWakesOnly<T>(w: World<T>, h: Handle, a: Awt)
    requires OnlyOwn(w, h, a)
    ensures WakesOnly(w, DoClose, h, a)
  {
    var at := CloseWakes(w.q);
    if !w.q.closed {
      CollectedOnce(w.q.slots, at, Close(w.q).1, h, a);
    }
    hide Woken, NeedLen;
  }

  lemma KickWakesOnly<T>(w: World<T>, sub: Sub, h: Handle, a: Awt)
    requires OnlyOwn(w, h, a)
    ensures WakesOnly(w, DoKick(sub), h, a)
  {
    var k := Find(w.q.slots, sub);
    if k < |w.q.slots| {
      KickExact(w.q, sub, k);
    }
  }

  lemma SubscribeWakesOnly<T>(w: World<T>, op: Op<T>, h: Handle, a: Awt, free: seq<nat>)
    requires OnlyOwn(w, h, a) && FreeList(w.q, free) && CanDo(w, op)
    requires op.DoSubscribe? || op.DoSubscribeRecent? || op.DoSubscribeCopy?
    ensures WakesOnly(w, op, h, a)
  {
    match op
    case DoSubscribe(sub, at) => SubscribeTakesFreeSlot(w.q, sub, at, free);
    case DoSubscribeRecent(sub) => SubscribeTakesFreeSlot(w.q, sub, w.q.pos - 1, free);
    case DoSubscribeCopy(sub, i) => SubscribeTakesFreeSlot(w.q, sub, w.q.slots[i].pos, free);
  }

  lemma OthersWakeNobody<T>(w: World<T>, op: Op<T>, h: Handle, a: Awt)
    requires OnlyOwn(w, h, a) && CanDo(w, op) && Foreign(op, h)
    requires op.DoLeave? || op.DoAdvance? || (op.DoAdvanceSuspend? && op.awt != a)
    ensures WakesOnly(w, op, h, a)
  {
  }

  lemma ForeignAwaiters<T>(w: World<T>, op: Op<T>, h: Handle, a: Awt, free: seq<nat>)
    requires OnlyOwn(w, h, a) && FreeList(w.q, free) && CanDo(w, op) && Foreign(op, h)
    requires op.DoAdvanceSuspend? ==> op.awt != a
    ensures WakesOnly(w, op, h, a)
  {
    hide WakesOnly, OnlyOwn, Do, FreeList;
    match op
    case DoPush(batch) => PushWakesOnly(w, batch, h, a);
    case DoClose => CloseWakesOnly(w, h, a);
    case DoKick(sub) => KickWakesOnly(w, sub, h, a);
    case DoSubscribe(_, _) => SubscribeWakesOnly(w, op, h, a, free);
    case DoSubscribeRecent(_) => SubscribeWakesOnly(w, op, h, a, free);
    case DoSubscribeCopy(_, _) => SubscribeWakesOnly(w, op, h, a, free);
    case _ => OthersWakeNobody(w, op, h, a);
  }

  lemma WakeStep<T>(o: Observed<T>, e: Event<T>, free: seq<nat>)
    requires Good(o, free) && WakeCounted(o) && Enabled(o, e)
    ensures WakeCounted(Step(o, e))
  {
    match e
    case Other(op) =>
      var a := if o.wake.awt.Some? then o.wake.awt.value else 0;
      ForeignKeepsSlot(o.w, op, o.h, free);
      if o.wake.awt.Some? {
        ForeignAwaiters(o.w, op, o.h, a, free);
      }
      hide Do, Window, FreeList, Progress, Returned;
    case AwaitReady =>
      OwnKeepsSlot(o, e);
      OwnKeepsOthers(o, e);
      hide Step;
    case AwaitSuspend(_) =>
      OwnKeepsSlot(o, e);
      OwnKeepsOthers(o, e);
      hide Step;
    case _ =>
  }

  lemma OwnKeepsOthers<T>(o: Observed<T>, e: Event<T>)
    requires Enabled(o, e) && (e.AwaitReady? || e.AwaitSuspend?)
    ensures var q, q' := o.w.q, Step(o, e).w.q;
      |q'.slots| == |q.slots| && forall i :: 0 <= i < |q.slots| && i != o.h ==> q'.slots[i] == q.slots[i]
  {
  }

  // ---------- Every run ----------

  ghost predicate IsRun<T>(o: Observed<T>, trace: seq<Event<T>>)
    decreases |trace|
  {
    trace == [] || (Enabled(o, trace[0]) && IsRun(Step(o, trace[0]), trace[1..]))
  }

  ghost function After<T>(o: Observed<T>, trace: seq<Event<T>>): Observed<T>
    requires IsRun(o, trace)
    decreases |trace|
  {
    if trace == [] then o else After(Step(o, trace[0]), trace[1..])
  }

  /** Some await_resume of the run delivers an item once more. */
  ghost predicate SomeRepeats<T>(o: Observed<T>, trace: seq<Event<T>>)
    requires IsRun(o, trace)
    decreases |trace|
  {
    trace != [] &&
      ((trace[0].AwaitResume? && Repeats(o)) || SomeRepeats(Step(o, trace[0]), trace[1..]))
  }

  /** Some await_resume of the run reports the end early. */
  ghost predicate SomeEndsEarly<T>(o: Observed<T>, trace: seq<Event<T>>)
    requires IsRun(o, trace)
    decreases |trace|
  {
    trace != [] &&
      ((trace[0].AwaitResume? && EndsEarly(o)) || SomeEndsEarly(Step(o, trace[0]), trace[1..]))
  }

  ghost predicate SomeLoses<T>(o: Observed<T>, trace: seq<Event<T>>)
    requires IsRun(o, trace)
    decreases |trace|
  {
    trace != [] &&
      ((trace[0].AwaitResume? && Loses(o)) || SomeLoses(Step(o, trace[0]), trace[1..]))
  }

  lemma {:induction false} EarlyEnds<T>(o: Observed<T>, trace: seq<Event<T>>, free: seq<nat>)
    requires Good(o, free) && Retained(o) && WakeCounted(o) && IsRun(o, trace)
    ensures SomeEndsEarly(o, trace) <==> SomeLoses(o, trace)
    decreases |trace|
  {
    if trace != [] {
      StepKeepsGood(o, trace[0], free);
      StepKeepsRetained(o, trace[0], free);
      WakeStep(o, trace[0], free);
      if trace[0].AwaitResume? {
        ResumeExact(o, free);
      }
      hide Good, Retained, EndsEarly, Loses, Step, WakeCounted;
      EarlyEnds(Step(o, trace[0]), trace[1..], StepFree(o, trace[0], free));
    }
  }

  lemma RepeatStep<T>(o: Observed<T>, e: Event<T>, free: seq<nat>)
    requires Good(o, free) && Enabled(o, e)
    ensures Step(o, e).repeated.Some? <==> o.repeated.Some? || (e.AwaitResume? && Repeats(o))
  {
    if e.AwaitResume? && o.phase.Split? {
      SplitFetch(o, free);
    }
  }

  lemma {:induction false} RunKeepsGood<T>(o: Observed<T>, trace: seq<Event<T>>, free: seq<nat>)
    returns (free': seq<nat>)
    requires Good(o, free) && IsRun(o, trace)
    ensures Good(After(o, trace), free')
    ensures WakeCounted(o) ==> WakeCounted(After(o, trace))
    ensures WakeCounted(o) && Retained(o) ==> Retained(After(o, trace))
    ensures After(o, trace).repeated.Some? <==> o.repeated.Some? || SomeRepeats(o, trace)
    decreases |trace|
  {
    free' := free;
    if trace != [] {
      StepKeepsGood(o, trace[0], free);
      RepeatStep(o, trace[0], free);
      if WakeCounted(o) {
        WakeStep(o, trace[0], free);
        if Retained(o) {
          StepKeepsRetained(o, trace[0], free);
        }
      }
      hide Good, Retained, Repeats, Step, WakeCounted;
      free' := RunKeepsGood(Step(o, trace[0]), trace[1..], StepFree(o, trace[0], free));
    }
  }

  /** A subscriber that has just registered in a world reached by any operations. */
  function Subscribed<T>(w: World<T>, sub: Sub, at: nat): Observed<T> {
    var (q, h) := Subscribe(w.q, sub, at);
    Observed(w.(q := q), h, at, Outside, [], None, |w.history| - at > w.q.maxLen, NO_WAKE)
  }

  lemma SubscribedGood<T>(w: World<T>, sub: Sub, at: nat, free: seq<nat>)
    requires Window(w) && FreeList(w.q, free) && at < SIZE
    ensures Good(Subscribed(w, sub, at), if free == [] then [] else free[1..])
    ensures at == w.q.pos - 1 ==> Retained(Subscribed(w, sub, at))
    ensures WakeCounted(Subscribed(w, sub, at))
  {
    SubscribeTakesFreeSlot(w.q, sub, at, free);
  }

  /** Delivery: in every run, from any starting position, what the subscriber has received is exactly
      the items published right after that position, none missing or reordered, and none doubled but
      for at most one: the item before position c comes twice exactly when an await_resume follows an
      await_suspend that found the queue closed at position c, while that item is still queued. */
  lemma GapFreeDelivery<T>(w: World<T>, sub: Sub, at: nat, free: seq<nat>, trace: seq<Event<T>>)
    requires Window(w) && FreeList(w.q, free) && at < SIZE
    requires IsRun(Subscribed(w, sub, at), trace)
    ensures var o := After(Subscribed(w, sub, at), trace);
      && Exactly(o)
      && (o.repeated.Some? <==> SomeRepeats(Subscribed(w, sub, at), trace))
      && (o.repeated.Some? ==> o.w.q.closed)
  {
    SubscribedGood(w, sub, at, free);
    var o := Subscribed(w, sub, at);
    assert o.repeated.None?;
    hide Good, IsRun, Window, FreeList, Retained, Subscribed, SomeRepeats, Exactly;
    var free' := RunKeepsGood(o, trace, if free == [] then [] else free[1..]);
    GoodMeans(After(o, trace), free');
  }

  lemma GoodMeans<T>(o: Observed<T>, free: seq<nat>)
    requires Good(o, free)
    ensures Exactly(o) && (o.repeated.Some? ==> o.w.q.closed)
  {
  }

  /** Retention: every await_resume of a subscriber that started at the most recent position, exactly.
      As long as closing has not split the next(), the next item comes if and only if there is one, it
      was not kicked and has never had more than the maximum length to read. */
  lemma Retention<T>(w: World<T>, sub: Sub, free: seq<nat>, trace: seq<Event<T>>)
    requires Window(w) && FreeList(w.q, free) && w.q.pos - 1 < SIZE
    requires IsRun(Subscribed(w, sub, w.q.pos - 1), trace)
    requires Enabled(After(Subscribed(w, sub, w.q.pos - 1), trace), AwaitResume)
    ensures FetchesExactly(After(Subscribed(w, sub, w.q.pos - 1), trace))
  {
    SubscribedGood(w, sub, w.q.pos - 1, free);
    var o := Subscribed(w, sub, w.q.pos - 1);
    hide *;
    var free' := RunKeepsGood(o, trace, if free == [] then [] else free[1..]);
    ResumeExact(After(o, trace), free');
  }

  /** Complete delivery: in every run, a subscriber that started at the most recent position, was not
      kicked and did not fall behind is told of the end too early if and only if some await_resume
      follows an await_suspend that found the queue closed, with everything in it still to be read. */
  lemma EndIsExact<T>(w: World<T>, sub: Sub, free: seq<nat>, trace: seq<Event<T>>)
    requires Window(w) && FreeList(w.q, free) && w.q.pos - 1 < SIZE
    requires IsRun(Subscribed(w, sub, w.q.pos - 1), trace)
    ensures var o := Subscribed(w, sub, w.q.pos - 1);
      SomeEndsEarly(o, trace) <==> SomeLoses(o, trace)
  {
    SubscribedGood(w, sub, w.q.pos - 1, free);
    hide *;
    EarlyEnds(Subscribed(w, sub, w.q.pos - 1), trace, if free == [] then [] else free[1..]);
  }

  /** Nobody sleeps for ever by mistake, or is woken twice: in every run, each time the subscriber was
      suspended, its awaiter is still in its slot or was returned by exactly one push, close or kick;
      and each time it was returned, the subscriber was resumed exactly once or can be resumed now. */
  lemma WokenExactlyOnce<T>(w: World<T>, sub: Sub, at: nat, free: seq<nat>, trace: seq<Event<T>>)
    requires Window(w) && FreeList(w.q, free) && at < SIZE
    requires IsRun(Subscribed(w, sub, at), trace)
    ensures var o := After(Subscribed(w, sub, at), trace);
      && WakeCounted(o)
      && (o.phase.Suspended? ==> (MySlot(o).awt.None? <==> Enabled(o, Resume)))
  {
    SubscribedGood(w, sub, at, free);
    var o := Subscribed(w, sub, at);
    hide Good, WakeCounted, IsRun, Window, FreeList, Retained, Subscribed, SomeRepeats;
    var free' := RunKeepsGood(o, trace, if free == [] then [] else free[1..]);
    PosPositive(After(o, trace), free');
  }

  lemma PosPositive<T>(o: Observed<T>, free: seq<nat>)
    requires Good(o, free)
    ensures o.w.q.pos >= 1
  {
  }

  // ---------- When close splits one next() ----------

  /** One item, published and read; then close falls into the next next(): the item comes again. */
  const SPLIT_TRACE: seq<Event<int>> := [
    Other(DoPush([7])), AwaitReady, AwaitResume,
    AwaitReady, Other(DoClose), AwaitSuspend(1), AwaitResume]

  /** The queue after the item was read, at a given reading position. */
  function OneRead(pos: nat, closed: bool): Queue<int> {
    Queue(8, 1, [Slot(pos, 0, None, true, false)], 1, [7], 2, closed)
  }

  /** The queue with its first subscriber. */
  function FirstSlot(): Queue<int> {
    Queue(8, 1, [Slot(0, 0, None, true, false)], 1, [], 1, false)
  }

  lemma CloseCanRedeliver() returns (w: World<int>, trace: seq<Event<int>>)
    ensures Window(w) && FreeList(w.q, [])
    ensures IsRun(Subscribed(w, 0, 0), trace)
    ensures After(Subscribed(w, 0, 0), trace).delivered == [7, 7]
  {
    w, trace := Start<int>(8, 1), SPLIT_TRACE[0..];
    assert Subscribed(w, 0, 0).w.q == FirstSlot();
    assert Subscribed(w, 0, 0) == Twice(0) && Twice(7).delivered == [7, 7];
    assert Window(w) && FreeList(w.q, []) && |SPLIT_TRACE| == 7;
    hide *;
    TwiceFrom(0);
  }

  /** A state of the run. */
  function Reading(q: Queue<int>, history: seq<int>, phase: Phase, delivered: seq<int>): Observed<int> {
    Observed(World(q, history), 0, 0, phase, delivered, None, false, NO_WAKE)
  }

  function Twice(k: nat): Observed<int> {
    match k
    case 0 => Reading(FirstSlot(), [], Outside, [])
    case 1 => Reading(OneRead(0, false), [7], Outside, [])
    case 2 => Reading(OneRead(1, false), [7], Fetching, [])
    case 3 => Reading(OneRead(1, false), [7], Outside, [7])
    case 4 => Reading(OneRead(1, false), [7], Checked, [7])
    case 5 => Reading(OneRead(1, true), [7], Checked, [7])
    case 6 => Reading(OneRead(1, true), [7], Split, [7])
    case _ => Reading(OneRead(1, true), [7], Outside, [7, 7]).(repeated := Some(1))
  }

  ghost predicate TwiceLeads(k: nat)
    requires k < |SPLIT_TRACE|
  {
    Enabled(Twice(k), SPLIT_TRACE[k]) && Step(Twice(k), SPLIT_TRACE[k]) == Twice(k + 1)
  }

  lemma {:induction false} TwiceFrom(k: nat)
    requires k <= |SPLIT_TRACE|
    ensures IsRun(Twice(k), SPLIT_TRACE[k..])
    ensures After(Twice(k), SPLIT_TRACE[k..]) == Twice(|SPLIT_TRACE|)
    decreases |SPLIT_TRACE| - k
  {
    if k < |SPLIT_TRACE| {
      TwiceStep(k);
      hide Twice, Step, Enabled;
      TwiceFrom(k + 1);
      Unroll(Twice(k), SPLIT_TRACE, k);
    }
  }

  lemma TwiceLength()
    ensures |SPLIT_TRACE| == 7
  {
  }

  lemma TwiceStep(k: nat)
    requires k < |SPLIT_TRACE|
    ensures TwiceLeads(k)
  {
    TwiceLength();
    hide *;
    TwicePush();
    TwiceRead();
    TwiceClose();
    TwiceSplit();
  }

  lemma TwicePush()
    ensures TwiceLeads(0)
  {
    assert SPLIT_TRACE[0] == Other(DoPush([7]));
    assert Twice(0) == Reading(FirstSlot(), [], Outside, []);
    assert Twice(1) == Reading(OneRead(0, false), [7], Outside, []);
    hide Step, Enabled, Reading, OneRead, FirstSlot, Twice;
    PushFrom(Twice(0), SPLIT_TRACE[0], Outside);
  }

  lemma TwiceRead()
    ensures TwiceLeads(1) && TwiceLeads(2) && TwiceLeads(3)
  {
  }

  lemma TwiceClose()
    ensures TwiceLeads(4)
  {
    assert SPLIT_TRACE[4] == Other(DoClose);
    assert Twice(4) == Reading(OneRead(1, false), [7], Checked, [7]);
    assert Twice(5) == Reading(OneRead(1, true), [7], Checked, [7]);
    hide Step, Enabled, Reading, OneRead, Twice;
    CloseFrom(Twice(4), SPLIT_TRACE[4], 1, [7]);
  }

  lemma TwiceSplit()
    ensures TwiceLeads(5) && TwiceLeads(6)
  {
  }

  /** A subscriber that waits for the first item; it is published and the queue closed just before
      await_suspend: the end of the stream comes instead of the item. */
  const LOST_TRACE: seq<Event<int>> := [
    AwaitReady, Other(DoPush([7])), Other(DoClose), AwaitSuspend(1), AwaitResume]

  ghost predicate Lost(o: Observed<int>) {
    && o.phase.Ended? && o.delivered == [] && o.w.history == [7]
    && InUse(o.w.q, o.h) && !MySlot(o).kicked && !o.behind
  }

  lemma CloseCanLose() returns (w: World<int>, trace: seq<Event<int>>)
    ensures Window(w) && FreeList(w.q, [])
    ensures IsRun(Subscribed(w, 0, 0), trace) && Lost(After(Subscribed(w, 0, 0), trace))
  {
    w, trace := Start<int>(8, 1), LOST_TRACE[0..];
    assert Subscribed(w, 0, 0).w.q == FirstSlot();
    assert Subscribed(w, 0, 0) == Never(0) && Lost(Never(5));
    assert Window(w) && FreeList(w.q, []) && |LOST_TRACE| == 5;
    hide *;
    NeverFrom(0);
  }

  function Never(k: nat): Observed<int> {
    match k
    case 0 => Reading(FirstSlot(), [], Outside, [])
    case 1 => Reading(FirstSlot(), [], Checked, [])
    case 2 => Reading(OneRead(0, false), [7], Checked, [])
    case 3 => Reading(OneRead(0, true), [7], Checked, [])
    case 4 => Reading(OneRead(0, true), [7], Split, [])
    case _ => Reading(OneRead(0, true), [7], Ended, [])
  }

  ghost predicate NeverLeads(k: nat)
    requires k < |LOST_TRACE|
  {
    Enabled(Never(k), LOST_TRACE[k]) && Step(Never(k), LOST_TRACE[k]) == Never(k + 1)
  }

  lemma {:induction false} NeverFrom(k: nat)
    requires k <= |LOST_TRACE|
    ensures IsRun(Never(k), LOST_TRACE[k..])
    ensures After(Never(k), LOST_TRACE[k..]) == Never(|LOST_TRACE|)
    decreases |LOST_TRACE| - k
  {
    if k < |LOST_TRACE| {
      NeverStep(k);
      hide Never, Step, Enabled;
      NeverFrom(k + 1);
      Unroll(Never(k), LOST_TRACE, k);
    }
  }

  lemma NeverLength()
    ensures |LOST_TRACE| == 5
  {
  }

  lemma NeverStep(k: nat)
    requires k < |LOST_TRACE|
    ensures NeverLeads(k)
  {
    NeverLength();
    hide *;
    NeverCheck();
    NeverPush();
    NeverClose();
    NeverSplit();
  }

  lemma NeverCheck()
    ensures NeverLeads(0)
  {
  }

  lemma NeverPush()
    ensures NeverLeads(1)
  {
    assert LOST_TRACE[1] == Other(DoPush([7]));
    assert Never(1) == Reading(FirstSlot(), [], Checked, []);
    assert Never(2) == Reading(OneRead(0, false), [7], Checked, []);
    hide Step, Enabled, Reading, OneRead, FirstSlot, Never;
    PushFrom(Never(1), LOST_TRACE[1], Checked);
  }

  lemma NeverClose()
    ensures NeverLeads(2)
  {
    assert LOST_TRACE[2] == Other(DoClose);
    assert Never(2) == Reading(OneRead(0, false), [7], Checked, []);
    assert Never(3) == Reading(OneRead(0, true), [7], Checked, []);
    hide Step, Enabled, Reading, OneRead, Never;
    CloseFrom(Never(2), LOST_TRACE[2], 0, []);
  }

  lemma NeverSplit()
    ensures NeverLeads(3) && NeverLeads(4)
  {
  }

  lemma PushFrom(o: Observed<int>, e: Event<int>, phase: Phase)
    requires o == Reading(FirstSlot(), [], phase, []) && e == Other(DoPush([7]))
    ensures Enabled(o, e) && Step(o, e) == Reading(OneRead(0, false), [7], phase, [])
  {
    hide Do, Returned, Step;
    OtherStep(o, e.op);
    PushSeven(o.w);
  }

  lemma CloseFrom(o: Observed<int>, e: Event<int>, pos: nat, delivered: seq<int>)
    requires pos == |delivered| <= 1 && e == Other(DoClose)
    requires o == Reading(OneRead(pos, false), [7], Checked, delivered)
    ensures Enabled(o, e) && Step(o, e) == Reading(OneRead(pos, true), [7], Checked, delivered)
  {
    hide Do, Returned, Step;
    OtherStep(o, e.op);
    CloseOne(o.w, pos);
  }

  /** A step of somebody else for a subscriber that has never been suspended. */
  lemma OtherStep<T>(o: Observed<T>, op: Op<T>)
    requires Enabled(o, Other(op)) && o.wake.awt.None?
    ensures var w := Do(o.w, op);
      Step(o, Other(op)) == o.(w := w, behind := o.behind || |w.history| - Next(o) > w.q.maxLen)
  {
    hide Do, Returned;
  }

  lemma PushSeven(w: World<int>)
    requires w == World(FirstSlot(), [])
    ensures Do(w, DoPush([7])) == World(OneRead(0, false), [7])
  {
    assert Reverse([7]) + w.q.items == [7];
    assert w.q.slots[..0] == [];
    assert NeedLen(w.q.slots, 2, 1) == 2;
    assert Do(w, DoPush([7])).q == OneRead(0, false);
  }

  lemma CloseOne(w: World<int>, pos: nat)
    requires w == World(OneRead(pos, false), [7]) && pos <= 1
    ensures Do(w, DoClose) == World(OneRead(pos, true), [7])
  {
    assert w.q.slots[..0] == [];
    assert NeedLen(w.q.slots, 2, 1) == if pos == 0 then 2 else 1;
  }

  lemma Unroll<T>(o: Observed<T>, trace: seq<Event<T>>, i: nat)
    requires i < |trace| && Enabled(o, trace[i]) && IsRun(Step(o, trace[i]), trace[i + 1..])
    ensures IsRun(o, trace[i..])
    ensures After(o, trace[i..]) == After(Step(o, trace[i]), trace[i + 1..])
  {
    assert trace[i..][1..] == trace[i + 1..];
  }
}
