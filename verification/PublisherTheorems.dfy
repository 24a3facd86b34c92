/** Every subscriber reads the history that the truncated queue stands for. */
module PublisherTheorems {
  import opened Options
  import opened Sequences
  import opened PublisherSpec

  // ---------- All the operations, in any order ----------

  datatype Op<+T> =
    | DoSubscribe(sub: Sub, at: nat)
    | DoSubscribeRecent(sub: Sub)
    | DoSubscribeCopy(sub: Sub, h: Handle)
    | DoLeave(h: Handle)
    | DoAdvance(h: Handle, mode: Mode)
    | DoAdvanceSuspend(h: Handle, awt: Awt)
    | DoPush(batch: seq<T>)
    | DoClose
    | DoKick(sub: Sub)

  /** A queue together with everything ever published to it; the item with index i is history[i-1]. */
  datatype World<T> = World(q: Queue<T>, history: seq<T>)

  predicate CanDo<T>(w: World<T>, op: Op<T>) {
    match op
    case DoSubscribe(_, at) => at < SIZE
    case DoSubscribeCopy(_, h) => InUse(w.q, h)
    case DoLeave(h) => InUse(w.q, h)
    case DoAdvance(h, _) => InUse(w.q, h)
    case DoAdvanceSuspend(h, _) => InUse(w.q, h)
    case _ => true
  }

  function Do<T>(w: World<T>, op: Op<T>): World<T>
    requires CanDo(w, op) && w.q.pos >= 1
  {
    match op
    case DoSubscribe(sub, at) => w.(q := Subscribe(w.q, sub, at).0)
    case DoSubscribeRecent(sub) => w.(q := Subscribe(w.q, sub, w.q.pos - 1).0)
    case DoSubscribeCopy(sub, h) => w.(q := Subscribe(w.q, sub, w.q.slots[h].pos).0)
    case DoLeave(h) => w.(q := Leave(w.q, h))
    case DoAdvance(h, mode) => w.(q := Advance(w.q, h, mode).0)
    case DoAdvanceSuspend(h, awt) => w.(q := AdvanceSuspend(w.q, h, awt).0)
    case DoPush(batch) => World(Push(w.q, batch).0, w.history + batch)
    case DoClose => w.(q := Close(w.q).0)
    case DoKick(sub) => w.(q := Kick(w.q, sub).0)
  }

  // ---------- The window ----------

  /** items is the reversed newest suffix of the history, and no longer than the maximum. */
  ghost predicate Window<T>(w: World<T>) {
    && w.q.pos == |w.history| + 1
    && |w.q.items| <= |w.history| && |w.q.items| <= w.q.maxLen
    && (forall k :: 0 <= k < |w.q.items| ==> w.q.items[k] == w.history[w.q.pos - 2 - k])
    && (w.history != [] ==> w.q.items != [])
    && 1 <= w.q.minLen <= w.q.maxLen
  }

  lemma WindowPush<T>(w: World<T>, batch: seq<T>)
    requires Window(w)
    ensures Window(Do(w, DoPush(batch)))
  {
    hide NeedLen, Woken, Cleared;
    if batch != [] {
      var items, history := Reverse(batch) + w.q.items, w.history + batch;
      forall k | 0 <= k < |items|
        ensures items[k] == history[|history| - 1 - k]
      {
        if k < |batch| {
          ReverseIndex(batch, |batch| - 1 - (|batch| - 1 - k));
        }
      }
    } else {
      assert w.history + batch == w.history;
    }
  }

  lemma WindowStep<T>(w: World<T>, op: Op<T>)
    requires Window(w) && CanDo(w, op)
    ensures Window(Do(w, op))
  {
    match op
    case DoPush(batch) => WindowPush(w, batch);
    case _ =>
  }

  // ---------- The free list of slots ----------

  /** From the slot number at, the positions of unused slots lead through free to the end. */
  ghost predicate FreeChain(slots: seq<Slot>, at: nat, free: seq<nat>)
    decreases free
  {
    if free == [] then at == |slots|
    else
      && at == free[0] && at < |slots| && !slots[at].used
      && FreeChain(slots, slots[at].pos, free[1..])
  }

  /** The free list visits exactly the unused slots, once each. */
  ghost predicate FreeList<T>(q: Queue<T>, free: seq<nat>) {
    && FreeChain(q.slots, q.nextFree, free)
    && Distinct(free)
    && forall i :: i in free <==> 0 <= i < |q.slots| && !q.slots[i].used
  }

  /** The chain survives changes of used slots and of slots that are not on it. */
  lemma {:induction false} FreeChainFrame(a: seq<Slot>, b: seq<Slot>, at: nat, free: seq<nat>)
    requires FreeChain(a, at, free) && |a| == |b|
    requires forall i :: i in free ==> 0 <= i < |a| && b[i] == a[i]
    ensures FreeChain(b, at, free)
    decreases free
  {
    if free != [] {
      assert at in free;
      forall i | i in free[1..]
        ensures i in free
      {
        var k :| 0 <= k < |free| - 1 && free[1..][k] == i;
        assert free[k + 1] == i;
      }
      FreeChainFrame(a, b, a[at].pos, free[1..]);
    }
  }

  /** subscribe hands out a slot nobody uses and disturbs no other slot. */
  lemma SubscribeTakesFreeSlot<T>(q: Queue<T>, sub: Sub, pos: nat, free: seq<nat>)
    requires FreeList(q, free)
    ensures var (q', h) := Subscribe(q, sub, pos);
      && !InUse(q, h) && InUse(q', h)
      && q'.slots[h] == Slot(pos, sub, None, true, false)
      && (forall i :: 0 <= i && InUse(q, i) ==> i < |q'.slots| && q'.slots[i] == q.slots[i])
      && FreeList(q', if free == [] then [] else free[1..])
  {
    var (q', h) := Subscribe(q, sub, pos);
    if free != [] {
      assert free[0] in free;
      DistinctAt(free, 0);
      assert free == [free[0]] + free[1..];
      forall i | i in free[1..]
        ensures 0 <= i < |q.slots| && q'.slots[i] == q.slots[i]
      {
        assert i in free && i != free[0];
      }
      FreeChainFrame(q.slots, q'.slots, q.slots[free[0]].pos, free[1..]);
    }
  }

  /** Where a new subscriber starts: in front of the next item to be published, where the subscriber it
      copies stands, or where it asks to. */
  lemma SubscribeStartsAt<T>(w: World<T>, op: Op<T>, free: seq<nat>)
    requires w.q.pos >= 1 && FreeList(w.q, free) && CanDo(w, op)
    requires op.DoSubscribe? || op.DoSubscribeRecent? || op.DoSubscribeCopy?
    ensures var q' := Do(w, op).q;
      var h := if free == [] then |w.q.slots| else free[0];
      && InUse(q', h) && !InUse(w.q, h) && q'.slots[h].sub == op.sub
      && match op
         case DoSubscribe(_, at) => q'.slots[h].pos == at
         case DoSubscribeRecent(_) => q'.slots[h].pos + 1 == w.q.pos
         case DoSubscribeCopy(_, i) => q'.slots[h].pos == w.q.slots[i].pos
  {
    var pos := match op
      case DoSubscribe(_, at) => at
      case DoSubscribeRecent(_) => w.q.pos - 1
      case DoSubscribeCopy(_, i) => w.q.slots[i].pos
      case _ => 0;
    SubscribeTakesFreeSlot(w.q, op.sub, pos, free);
  }

  lemma LeaveFreesSlot<T>(q: Queue<T>, h: Handle, free: seq<nat>)
    requires FreeList(q, free) && InUse(q, h)
    ensures FreeList(Leave(q, h), [h] + free)
  {
    var q' := Leave(q, h);
    FreeChainFrame(q.slots, q'.slots, q.nextFree, free);
    assert ([h] + free)[1..] == free;
  }

  /** Operations that keep every slot's used flag, and the unused slots entirely. */
  lemma FreeListFrame<T>(q: Queue<T>, q': Queue<T>, free: seq<nat>)
    requires FreeList(q, free) && |q'.slots| == |q.slots| && q'.nextFree == q.nextFree
    requires forall i :: 0 <= i < |q.slots| ==> q'.slots[i].used == q.slots[i].used
    requires forall i :: 0 <= i < |q.slots| && !q.slots[i].used ==> q'.slots[i] == q.slots[i]
    ensures FreeList(q', free)
  {
    FreeChainFrame(q.slots, q'.slots, q.nextFree, free);
  }

  function FreeAfter<T>(w: World<T>, op: Op<T>, free: seq<nat>): seq<nat> {
    match op
    case DoSubscribe(_, _) => if free == [] then [] else free[1..]
    case DoSubscribeRecent(_) => if free == [] then [] else free[1..]
    case DoSubscribeCopy(_, _) => if free == [] then [] else free[1..]
    case DoLeave(h) => [h] + free
    case _ => free
  }

  lemma FreeListStep<T>(w: World<T>, op: Op<T>, free: seq<nat>)
    requires Window(w) && FreeList(w.q, free) && CanDo(w, op)
    ensures FreeList(Do(w, op).q, FreeAfter(w, op, free))
  {
    match op
    case DoSubscribe(sub, at) => SubscribeTakesFreeSlot(w.q, sub, at, free);
    case DoSubscribeRecent(sub) => SubscribeTakesFreeSlot(w.q, sub, w.q.pos - 1, free);
    case DoSubscribeCopy(sub, h) => SubscribeTakesFreeSlot(w.q, sub, w.q.slots[h].pos, free);
    case DoLeave(h) => LeaveFreesSlot(w.q, h, free);
    case _ =>
      UsedSlotsStay(w, op);
      hide Do, FreeList;
      FreeListFrame(w.q, Do(w, op).q, free);
  }

  /** Reading, publishing, closing and kicking touch only slots in use, and keep them in use. */
  lemma UsedSlotsStay<T>(w: World<T>, op: Op<T>)
    requires Window(w) && CanDo(w, op)
    requires !op.DoSubscribe? && !op.DoSubscribeRecent? && !op.DoSubscribeCopy? && !op.DoLeave?
    ensures var q, q' := w.q, Do(w, op).q;
      && |q'.slots| == |q.slots| && q'.nextFree == q.nextFree
      && (forall i :: 0 <= i < |q.slots| ==> q'.slots[i].used == q.slots[i].used)
      && (forall i :: 0 <= i < |q.slots| && !q.slots[i].used ==> q'.slots[i] == q.slots[i])
  {
  }

  // ---------- Who is woken, and what is trimmed ----------

  /** woken are the awaiters registered in used slots, each once, in the order of the slots at. */
  ghost predicate Registered(slots: seq<Slot>, at: seq<nat>, woken: seq<Awt>) {
    && |at| == |woken|
    && (forall j, k :: 0 <= j < k < |at| ==> at[j] < at[k])
    && (forall j :: 0 <= j < |at| ==>
          at[j] < |slots| && slots[at[j]].used && slots[at[j]].awt == Some(woken[j]))
    && (forall i :: 0 <= i < |slots| && slots[i].used && slots[i].awt.Some? ==> i in at)
  }

  lemma {:induction false} WokenAreRegistered(slots: seq<Slot>) returns (at: seq<nat>)
    ensures Registered(slots, at, Woken(slots))
  {
    at := [];
    if slots != [] {
      var n := |slots| - 1;
      var rest := WokenAreRegistered(slots[..n]);
      at := RegisteredGrows(slots, rest, Woken(slots[..n]));
      assert Woken(slots[..n]) + [] == Woken(slots[..n]);
    }
  }

  /** One more slot. */
  lemma RegisteredGrows(slots: seq<Slot>, rest: seq<nat>, woken: seq<Awt>) returns (at: seq<nat>)
    requires slots != [] && Registered(slots[..|slots| - 1], rest, woken)
    ensures var l := slots[|slots| - 1];
      Registered(slots, at, woken + if l.used && l.awt.Some? then [l.awt.value] else [])
  {
    var n := |slots| - 1;
    var l := slots[n];
    forall j | 0 <= j < |rest|
      ensures rest[j] < n && slots[rest[j]].used && slots[rest[j]].awt == Some(woken[j])
    {
      assert slots[..n][rest[j]] == slots[rest[j]];
    }
    forall i | 0 <= i < n && slots[i].used && slots[i].awt.Some?
      ensures i in rest
    {
      assert slots[..n][i] == slots[i];
    }
    if l.used && l.awt.Some? {
      at := rest + [n];
      assert forall i :: i in rest ==> i in at;
      assert at[|rest|] == n && n in at;
    } else {
      at := rest;
      assert woken + [] == woken;
    }
  }

  /** Publishing something, and closing an open queue, return exactly the registered awaiters, and leave
      nobody registered; otherwise nobody is returned and nothing changes. */
  lemma PushWakes<T>(q: Queue<T>, batch: seq<T>) returns (at: seq<nat>)
    ensures batch != [] ==> Registered(q.slots, at, Push(q, batch).1) && NobodyWaits(Push(q, batch).0)
    ensures batch == [] ==> Push(q, batch) == (q, [])
  {
    at := WokenAreRegistered(q.slots);
  }

  lemma CloseWakes<T>(q: Queue<T>) returns (at: seq<nat>)
    ensures !q.closed ==> Registered(q.slots, at, Close(q).1) && NobodyWaits(Close(q).0)
    ensures q.closed ==> Close(q) == (q, [])
    ensures Close(q).0.closed
  {
    at := WokenAreRegistered(q.slots);
  }

  ghost predicate NobodyWaits<T>(q: Queue<T>) {
    forall i :: 0 <= i < |q.slots| && q.slots[i].used ==> q.slots[i].awt.None?
  }

  /** kick returns the awaiter of the subscriber's first slot in use and marks the slot, and does nothing
      if there is none. */
  lemma KickExact<T>(q: Queue<T>, sub: Sub, h: Handle)
    requires forall i :: 0 <= i < h && i < |q.slots| && q.slots[i].used ==> q.slots[i].sub != sub
    ensures InUse(q, h) && q.slots[h].sub == sub ==>
      && Kick(q, sub).1 == q.slots[h].awt
      && Kick(q, sub).0 == q.(slots := q.slots[h := q.slots[h].(awt := None, kicked := true)])
    ensures h >= |q.slots| ==> Kick(q, sub) == (q, None)
  {
  }

  /** The length after trimming is exact: the most that a slot in use still needs, but at least the
      minimum, as far as the maximum and the items there are allow. */
  lemma TrimExact<T>(q: Queue<T>, count: nat)
    ensures var q' := PushLocked(q, count).0;
      var n, most := |q'.items|, Min(q.maxLen, |q.items|);
      && q'.pos == q.pos + count && n <= most && q'.items == q.items[..n]
      && n >= Min(q.minLen, most)
      && (forall i :: 0 <= i < |q.slots| && q.slots[i].used ==> n >= Min(Diff(q'.pos, q.slots[i].pos), most))
      && (n <= q.minLen
          || exists i :: 0 <= i < |q.slots| && q.slots[i].used && n <= Diff(q'.pos, q.slots[i].pos))
  {
    NeedIsNeeded(q.slots, q.pos + count, q.minLen);
    hide Diff;
  }

  lemma {:induction false} NeedIsNeeded(slots: seq<Slot>, pos: nat, minLen: nat)
    ensures var n := NeedLen(slots, pos, minLen);
      n == minLen || exists i :: 0 <= i < |slots| && slots[i].used && n == Diff(pos, slots[i].pos)
  {
    if slots != [] {
      var k := |slots| - 1;
      NeedIsNeeded(slots[..k], pos, minLen);
      var n := NeedLen(slots, pos, minLen);
      if n != minLen && !(slots[k].used && n == Diff(pos, slots[k].pos)) {
        var i :| 0 <= i < k && slots[..k][i].used && n == Diff(pos, slots[..k][i].pos);
        assert slots[i] == slots[..k][i];
      }
    }
  }

  /** The awaiters that an operation hands to its caller, to be resumed outside the lock. */
  function Returned<T>(w: World<T>, op: Op<T>): seq<Awt> {
    match op
    case DoPush(batch) => Push(w.q, batch).1
    case DoClose => Close(w.q).1
    case DoKick(sub) => (match Kick(w.q, sub).1 case None => [] case Some(a) => [a])
    case _ => []
  }

  // ---------- Both, over every run ----------

  ghost predicate IsRun<T>(w: World<T>, ops: seq<Op<T>>)
    requires Window(w)
    decreases |ops|
  {
    ops == [] || (CanDo(w, ops[0]) && (WindowStep(w, ops[0]); IsRun(Do(w, ops[0]), ops[1..])))
  }

  ghost function After<T>(w: World<T>, ops: seq<Op<T>>): (r: World<T>)
    requires Window(w) && IsRun(w, ops)
    ensures Window(r)
    decreases |ops|
  {
    if ops == [] then w else (WindowStep(w, ops[0]); After(Do(w, ops[0]), ops[1..]))
  }

  function Start<T>(maxLen: nat, minLen: nat): World<T> {
    World(New(maxLen, minLen), [])
  }

  /** However publishing, closing, subscribing, copying, leaving and reading interleave: items is the
      newest part of the history reversed, within the maximum, and the free list is exact. */
  lemma {:induction false} WindowAndFreeList<T>(maxLen: nat, minLen: nat, ops: seq<Op<T>>)
    returns (free: seq<nat>)
    requires 1 <= minLen <= maxLen && IsRun(Start<T>(maxLen, minLen), ops)
    ensures var w := After(Start<T>(maxLen, minLen), ops);
      && Window(w)
      && FreeList(w.q, free)
  {
    free := FreeListRun(Start<T>(maxLen, minLen), ops, []);
  }

  lemma {:induction false} FreeListRun<T>(w: World<T>, ops: seq<Op<T>>, free: seq<nat>)
    returns (free': seq<nat>)
    requires Window(w) && FreeList(w.q, free) && IsRun(w, ops)
    ensures FreeList(After(w, ops).q, free')
    decreases |ops|
  {
    free' := free;
    if ops != [] {
      WindowStep(w, ops[0]);
      FreeListStep(w, ops[0], free);
      hide FreeList, Window;
      free' := FreeListRun(Do(w, ops[0]), ops[1..], FreeAfter(w, ops[0], free));
    }
  }
}
