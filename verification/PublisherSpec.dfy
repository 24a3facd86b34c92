/** publisher::queue as a value: the effect of each operation that the source runs under its lock. */
module PublisherSpec {
  import opened Options
  import opened Sequences

  type Handle = nat
  type Sub = int     // identity of a subscriber
  type Awt = nat     // identity of an awaiter

  datatype Mode = AllValues | SkipIfBehind | SkipToRecent

  /** One registration. pos is the reading position, or the next free slot when the slot is unused. */
  datatype Slot = Slot(pos: nat, sub: Sub, awt: Option<Awt>, used: bool, kicked: bool)

  datatype Queue<T> = Queue(
    maxLen: nat, minLen: nat, slots: seq<Slot>, nextFree: nat, items: seq<T>, pos: nat, closed: bool)

  /** Positions are std::size_t. Counters do not overflow here, but a difference that would be
      negative wraps around. */
  const SIZE: nat := 0x1_0000_0000_0000_0000

  function Diff(a: int, b: int): nat {
    if a >= b then a - b else (a - b) % SIZE
  }

  function Max(a: int, b: int): int {
    if a >= b then a else b
  }

  function Min(a: int, b: int): int {
    if a <= b then a else b
  }

  predicate InUse<T>(q: Queue<T>, h: Handle) {
    h < |q.slots| && q.slots[h].used
  }

  function New<T>(maxLen: nat, minLen: nat): Queue<T> {
    Queue(maxLen, minLen, [], 0, [], 1, false)
  }

  function SetSlot<T>(q: Queue<T>, h: Handle, l: Slot): Queue<T>
    requires h < |q.slots|
  {
    q.(slots := q.slots[h := l])
  }

  function Subscribe<T>(q: Queue<T>, sub: Sub, pos: nat): (Queue<T>, Handle) {
    var l := Slot(pos, sub, None, true, false);
    if q.nextFree >= |q.slots|
    then (q.(slots := q.slots + [l], nextFree := |q.slots| + 1), |q.slots|)
    else (SetSlot(q.(nextFree := q.slots[q.nextFree].pos), q.nextFree, l), q.nextFree)
  }

  function Leave<T>(q: Queue<T>, h: Handle): Queue<T>
    requires h < |q.slots|
  {
    SetSlot(q, h, q.slots[h].(pos := q.nextFree, used := false)).(nextFree := h)
  }

  /** await_ready of next(): true moves the subscriber to the next item it should read. */
  function Advance<T>(q: Queue<T>, h: Handle, mode: Mode): (Queue<T>, bool)
    requires h < |q.slots|
  {
    var l := q.slots[h];
    if l.kicked || (l.pos + 1 == q.pos && !q.closed) then (q, false)
    else
      var pos := match mode
        case AllValues => l.pos + 1
        case SkipIfBehind => Max(l.pos + 1, Diff(q.pos, |q.items|))
        case SkipToRecent => Max(l.pos + 1, q.pos - 1);
      (SetSlot(q, h, l.(pos := pos)), true)
  }

  /** await_suspend of next(): true registers the awaiter. */
  function AdvanceSuspend<T>(q: Queue<T>, h: Handle, awt: Awt): (Queue<T>, bool)
    requires h < |q.slots|
  {
    var l := q.slots[h];
    if l.kicked || q.closed then (q, false)
    else if l.pos + 1 == q.pos then (SetSlot(q, h, l.(pos := l.pos + 1, awt := Some(awt))), true)
    else (SetSlot(q, h, l.(pos := l.pos + 1)), false)
  }

  /** The skip modes index the deque without a check; the source relies on something having been
      published before a position can lie behind. */
  predicate CanGet<T>(q: Queue<T>, h: Handle, mode: Mode) {
    && h < |q.slots|
    && (mode.AllValues? || q.items != [] || q.slots[h].kicked || q.slots[h].pos == q.pos)
  }

  /** await_resume of next(): None is the end of the stream. */
  function GetValue<T>(q: Queue<T>, h: Handle, mode: Mode): Option<T>
    requires CanGet(q, h, mode)
  {
    var l := q.slots[h];
    if l.kicked || l.pos == q.pos then None
    else
      var rel := Diff(q.pos, l.pos + 1);
      match mode
      case AllValues => if rel >= |q.items| then None else Some(q.items[rel])
      case SkipIfBehind => Some(q.items[if rel >= |q.items| then |q.items| - 1 else rel])
      case SkipToRecent => Some(q.items[0])
  }

  /** The awaiters that a push collects, in slot order. */
  function Woken(slots: seq<Slot>): seq<Awt> {
    if slots == [] then []
    else
      Woken(slots[..|slots| - 1])
      + var l := slots[|slots| - 1]; if l.used && l.awt.Some? then [l.awt.value] else []
  }

  function Wake(l: Slot): Slot {
    if l.used then l.(awt := None) else l
  }

  function Cleared(slots: seq<Slot>): (r: seq<Slot>)
    ensures |r| == |slots|
    ensures forall i :: 0 <= i < |slots| ==> r[i] == Wake(slots[i])
  {
    if slots == [] then [] else Cleared(slots[..|slots| - 1]) + [Wake(slots[|slots| - 1])]
  }

  /** How many items the slowest subscriber still needs, and at least minLen. */
  function NeedLen(slots: seq<Slot>, pos: nat, minLen: nat): (n: nat)
    ensures n >= minLen
    ensures forall i :: 0 <= i < |slots| && slots[i].used ==> n >= Diff(pos, slots[i].pos)
  {
    if slots == [] then minLen
    else
      var l := slots[|slots| - 1];
      var n := NeedLen(slots[..|slots| - 1], pos, minLen);
      if l.used then Max(n, Diff(pos, l.pos)) else n
  }

  /** push_lk: the new items are in front already; count tells how many. */
  function PushLocked<T>(q: Queue<T>, count: nat): (Queue<T>, seq<Awt>) {
    var pos := q.pos + count;
    var keep := Min(NeedLen(q.slots, pos, q.minLen), Min(q.maxLen, |q.items|));
    (q.(pos := pos, slots := Cleared(q.slots), items := q.items[..keep]), Woken(q.slots))
  }

  function Push<T>(q: Queue<T>, batch: seq<T>): (Queue<T>, seq<Awt>) {
    if batch == [] then (q, [])
    else PushLocked(q.(items := Reverse(batch) + q.items), |batch|)
  }

  function Close<T>(q: Queue<T>): (Queue<T>, seq<Awt>) {
    if q.closed then (q, []) else PushLocked(q.(closed := true), 0)
  }

  /** The slot kick() finds: the first in use that belongs to the subscriber. */
  function Find(slots: seq<Slot>, sub: Sub): (h: nat)
    ensures h <= |slots|
    ensures h < |slots| ==> slots[h].used && slots[h].sub == sub
    ensures forall i :: 0 <= i < h ==> !(slots[i].used && slots[i].sub == sub)
  {
    if slots == [] then 0
    else if slots[0].used && slots[0].sub == sub then 0
    else 1 + Find(slots[1..], sub)
  }

  function Kick<T>(q: Queue<T>, sub: Sub): (Queue<T>, Option<Awt>) {
    var h := Find(q.slots, sub);
    if h == |q.slots| then (q, None)
    else (SetSlot(q, h, q.slots[h].(awt := None, kicked := true)), q.slots[h].awt)
  }
}
