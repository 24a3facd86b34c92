/** class queue: items that wait for a consumer, or consumers that wait for an item. */
module AwaitableQueue {
  import opened Options

  type PopId = nat // one call of pop(), that is, the promise it hands in

  /** How a call of pop() ended: with an item, with the exception of unblock_pop, or without its
      promise being resolved, because constructing the item threw. */
  datatype Fate<+T> = Got(item: T) | Unblocked | Abandoned

  datatype Departure<+T> = Departure(pop: PopId, fate: Fate<T>)

  /** The two containers; departed records the pops that no longer wait, in the order they left. */
  datatype Queue<T> = Queue(items: seq<T>, awaiters: seq<PopId>, departed: seq<Departure<T>>)

  /** PushThrows: constructing the item throws. */
  datatype Op<+T> = Push(item: T) | PushThrows | Pop(id: PopId) | UnblockPop

  function Init<T>(): Queue<T> {
    Queue([], [], [])
  }

  /** The first awaiter leaves. */
  function Depart<T>(q: Queue<T>, fate: Fate<T>): Queue<T>
    requires q.awaiters != []
  {
    q.(awaiters := q.awaiters[1..], departed := q.departed + [Departure(q.awaiters[0], fate)])
  }

  function Step<T>(q: Queue<T>, op: Op<T>): Queue<T> {
    match op
    case Push(item) => if q.awaiters != [] then Depart(q, Got(item)) else q.(items := q.items + [item])
    case Pop(id) =>
      if q.items == [] then q.(awaiters := q.awaiters + [id])
      else q.(items := q.items[1..], departed := q.departed + [Departure(id, Got(q.items[0]))])
    case PushThrows => if q.awaiters == [] then q else Depart(q, Abandoned)
    case UnblockPop => if q.awaiters == [] then q else Depart(q, Unblocked)
  }

  function After<T>(q: Queue<T>, ops: seq<Op<T>>): Queue<T>
    decreases |ops|
  {
    if ops == [] then q else After(Step(q, ops[0]), ops[1..])
  }

  function ItemOf<T>(op: Op<T>): seq<T> {
    if op.Push? then [op.item] else []
  }

  function PopOf<T>(op: Op<T>): seq<PopId> {
    if op.Pop? then [op.id] else []
  }

  /** Every item a sequence of operations pushes, and every pop it asks, in order. */
  function Pushed<T>(ops: seq<Op<T>>): seq<T> {
    if ops == [] then [] else ItemOf(ops[0]) + Pushed(ops[1..])
  }

  function Asked<T>(ops: seq<Op<T>>): seq<PopId> {
    if ops == [] then [] else PopOf(ops[0]) + Asked(ops[1..])
  }

  function Pops<T>(departed: seq<Departure<T>>): seq<PopId> {
    seq(|departed|, i requires 0 <= i < |departed| => departed[i].pop)
  }

  /** The items handed over, in order. */
  function Received<T>(departed: seq<Departure<T>>): seq<T> {
    if departed == [] then []
    else
      var last := departed[|departed| - 1];
      Received(departed[..|departed| - 1]) + if last.fate.Got? then [last.fate.item] else []
  }

  /** Pops leave in the order they were asked, items in the order they were pushed, and items and pops
      never wait at the same time. */
  ghost predicate Matched<T>(q: Queue<T>, pushed: seq<T>, asked: seq<PopId>) {
    && (q.items == [] || q.awaiters == [])
    && Received(q.departed) + q.items == pushed
    && Pops(q.departed) + q.awaiters == asked
  }

  lemma ReceivedAppend<T>(departed: seq<Departure<T>>, d: Departure<T>)
    ensures Received(departed + [d]) == Received(departed) + if d.fate.Got? then [d.fate.item] else []
    ensures Pops(departed + [d]) == Pops(departed) + [d.pop]
  {
    assert (departed + [d])[..|departed|] == departed;
  }

  lemma Regroup<X>(a: seq<X>, b: seq<X>, c: seq<X>)
    ensures (a + b) + c == a + (b + c)
  {
  }

  /** The first of those who wait goes over to those who are through. */
  lemma FirstGoesOver<X>(through: seq<X>, waiting: seq<X>)
    requires waiting != []
    ensures (through + [waiting[0]]) + waiting[1..] == through + waiting
  {
    Regroup(through, [waiting[0]], waiting[1..]);
    assert [waiting[0]] + waiting[1..] == waiting;
  }

  lemma DepartKeepsMatched<T>(q: Queue<T>, fate: Fate<T>, pushed: seq<T>, asked: seq<PopId>)
    requires Matched(q, pushed, asked) && q.awaiters != []
    ensures Matched(Depart(q, fate), pushed + if fate.Got? then [fate.item] else [], asked)
  {
    ReceivedAppend(q.departed, Departure(q.awaiters[0], fate));
    hide Pops, Received;
    FirstGoesOver(Pops(q.departed), q.awaiters);
  }

  lemma PopKeepsMatched<T>(q: Queue<T>, id: PopId, pushed: seq<T>, asked: seq<PopId>)
    requires Matched(q, pushed, asked)
    ensures Matched(Step(q, Pop(id)), pushed, asked + [id])
  {
    hide Pops, Received;
    if q.items == [] {
      Regroup(Pops(q.departed), q.awaiters, [id]);
    } else {
      ReceivedAppend(q.departed, Departure(id, Got(q.items[0])));
      FirstGoesOver(Received(q.departed), q.items);
    }
  }

  lemma StepKeepsMatched<T>(q: Queue<T>, op: Op<T>, pushed: seq<T>, asked: seq<PopId>)
    requires Matched(q, pushed, asked)
    ensures Matched(Step(q, op), pushed + ItemOf(op), asked + PopOf(op))
  {
    assert pushed + [] == pushed && asked + [] == asked;
    if op.Pop? {
      PopKeepsMatched(q, op.id, pushed, asked);
    } else if q.awaiters != [] {
      DepartKeepsMatched(q, if op.Push? then Got(op.item) else if op.PushThrows? then Abandoned else Unblocked,
                         pushed, asked);
      hide Matched;
    }
  }

  lemma {:induction false} FifoMatching<T>(q: Queue<T>, ops: seq<Op<T>>, pushed: seq<T>, asked: seq<PopId>)
    requires Matched(q, pushed, asked)
    ensures Matched(After(q, ops), pushed + Pushed(ops), asked + Asked(ops))
    decreases |ops|
  {
    hide Matched, Step, PopOf, ItemOf;
    if ops == [] {
      assert pushed + Pushed(ops) == pushed && asked + Asked(ops) == asked;
    } else {
      var op := ops[0];
      StepKeepsMatched(q, op, pushed, asked);
      FifoMatching(Step(q, op), ops[1..], pushed + ItemOf(op), asked + PopOf(op));
      assert pushed + Pushed(ops) == pushed + ItemOf(op) + Pushed(ops[1..]);
      assert asked + Asked(ops) == asked + PopOf(op) + Asked(ops[1..]);
    }
  }

  lemma {:induction false} ReceivedPrefix<T>(departed: seq<Departure<T>>, k: nat)
    requires k < |departed|
    ensures Received(departed[..k]) <= Received(departed)
    ensures departed[k].fate.Got? ==>
      |Received(departed[..k])| < |Received(departed)|
      && departed[k].fate.item == Received(departed)[|Received(departed[..k])|]
  {
    var most := departed[..|departed| - 1];
    if k == |most| {
      assert departed[..k] == most;
    } else {
      ReceivedPrefix(most, k);
      assert departed[..k] == most[..k];
    }
  }

  /** After every sequence of operations: each pop asked has left or waits, in the order of asking, so
      none is lost or served twice; each item pushed was handed over or waits, in the order of pushing;
      and the k-th to leave with an item takes the first one not handed over before. */
  lemma QueueIsFifo<T>(ops: seq<Op<T>>)
    ensures var q := After(Init<T>(), ops);
      && (q.items == [] || q.awaiters == [])
      && Pops(q.departed) + q.awaiters == Asked(ops)
      && Received(q.departed) + q.items == Pushed(ops)
      && forall k :: 0 <= k < |q.departed| && q.departed[k].fate.Got? ==>
           var before := |Received(q.departed[..k])|;
           before < |Pushed(ops)| && q.departed[k].fate.item == Pushed(ops)[before]
  {
    var q := After(Init<T>(), ops);
    FifoMatching(Init<T>(), ops, [], []);
    assert [] + Pushed(ops) == Pushed(ops) && [] + Asked(ops) == Asked(ops);
    forall k | 0 <= k < |q.departed| && q.departed[k].fate.Got?
      ensures var before := |Received(q.departed[..k])|;
        before < |Pushed(ops)| && q.departed[k].fate.item == Pushed(ops)[before]
    {
      ReceivedPrefix(q.departed, k);
    }
  }

  /** When no two calls of pop() have the same promise, each ends at most once: one that was unblocked
      or abandoned never gets an item, and one that waits has not ended. */
  lemma OneFate<T>(ops: seq<Op<T>>)
    requires forall i, j :: 0 <= i < j < |Asked(ops)| ==> Asked(ops)[i] != Asked(ops)[j]
    ensures var q := After(Init<T>(), ops);
      && (forall i, j :: 0 <= i < j < |q.departed| ==> q.departed[i].pop != q.departed[j].pop)
      && (forall i :: 0 <= i < |q.departed| ==> q.departed[i].pop !in q.awaiters)
      && (forall i, j :: 0 <= i < j < |q.awaiters| ==> q.awaiters[i] != q.awaiters[j])
  {
    QueueIsFifo(ops);
    var q := After(Init<T>(), ops);
    var n := |q.departed|;
    assert forall i :: 0 <= i < n ==> Asked(ops)[i] == q.departed[i].pop;
    assert forall i :: 0 <= i < |q.awaiters| ==> q.awaiters[i] == Asked(ops)[n + i];
  }

  /** The fates other than an item, in order. */
  function Itemless<T>(departed: seq<Departure<T>>): seq<Fate<T>> {
    if departed == [] then []
    else
      var last := departed[|departed| - 1].fate;
      Itemless(departed[..|departed| - 1]) + if last.Got? then [] else [last]
  }

  /** What an unblock or a throwing push that finds somebody waiting hands out. */
  function Interruption<T>(q: Queue<T>, op: Op<T>): seq<Fate<T>> {
    if q.awaiters == [] then []
    else if op.UnblockPop? then [Unblocked]
    else if op.PushThrows? then [Abandoned]
    else []
  }

  function Interruptions<T>(q: Queue<T>, ops: seq<Op<T>>): seq<Fate<T>>
    decreases |ops|
  {
    if ops == [] then [] else Interruption(q, ops[0]) + Interruptions(Step(q, ops[0]), ops[1..])
  }

  lemma InterruptedStep<T>(q: Queue<T>, op: Op<T>)
    ensures Itemless(Step(q, op).departed) == Itemless(q.departed) + Interruption(q, op)
  {
    var d := Step(q, op).departed;
    assert d != q.departed ==> d[..|d| - 1] == q.departed;
  }

  /** A pop ends without an item only by an unblock or a throwing push that finds it waiting, and each
      of these ends exactly one: the exception is what an unblock gives, and a throwing push nothing. */
  lemma {:induction false} InterruptedExactly<T>(q: Queue<T>, ops: seq<Op<T>>)
    ensures Itemless(After(q, ops).departed) == Itemless(q.departed) + Interruptions(q, ops)
    decreases |ops|
  {
    if ops != [] {
      InterruptedStep(q, ops[0]);
      hide Step, Itemless, Interruption;
      InterruptedExactly(Step(q, ops[0]), ops[1..]);
    }
  }

  /** Some push throws after it has taken the promise of a waiting pop. */
  ghost predicate ThrowsAtAwaiter<T>(q: Queue<T>, ops: seq<Op<T>>)
    decreases |ops|
  {
    ops != [] &&
      ((ops[0].PushThrows? && q.awaiters != []) || ThrowsAtAwaiter(Step(q, ops[0]), ops[1..]))
  }

  ghost predicate AnyAbandoned<T>(departed: seq<Departure<T>>) {
    exists k :: 0 <= k < |departed| && departed[k].fate.Abandoned?
  }

  lemma {:induction false} AbandonedExactly<T>(q: Queue<T>, ops: seq<Op<T>>)
    ensures AnyAbandoned(After(q, ops).departed) <==> AnyAbandoned(q.departed) || ThrowsAtAwaiter(q, ops)
    decreases |ops|
  {
    if ops != [] {
      AbandonedStep(q, ops[0]);
      AbandonedExactly(Step(q, ops[0]), ops[1..]);
    }
  }

  lemma AbandonedStep<T>(q: Queue<T>, op: Op<T>)
    ensures AnyAbandoned(Step(q, op).departed) <==>
      AnyAbandoned(q.departed) || (op.PushThrows? && q.awaiters != [])
  {
    var n, d := |q.departed|, Step(q, op).departed;
    assert d[..n] == q.departed;
    assert |d| > n ==> d[n].fate.Abandoned? == op.PushThrows?;
    if k :| 0 <= k < n && q.departed[k].fate.Abandoned? {
      assert d[k].fate.Abandoned?;
    }
  }

  /** The object; its methods run under the lock, and a promise taken out is resolved after it. */
  class AwaitQueue<T> {
    var items: seq<T>
    var awaiters: seq<PopId>
    ghost var departed: seq<Departure<T>>

    ghost function View(): Queue<T>
      reads this
    {
      Queue(items, awaiters, departed)
    }

    constructor ()
      ensures View() == Init<T>()
    {
      items, awaiters, departed := [], [], [];
    }

    /** The pop that gets the item, if one was waiting. fails tells whether constructing the item
        throws: then a waiting pop has already lost its promise. */
    method PushItem(item: T, fails: bool) returns (woken: Option<PopId>)
      modifies this
      ensures View() == Step(old(View()), if fails then PushThrows else Push(item))
      ensures old(awaiters) == [] ==>
        woken.None? && items == old(items) + (if fails then [] else [item]) && awaiters == []
        && departed == old(departed)
      ensures old(awaiters) != [] ==>
        var first := old(awaiters)[0];
        && [first] + awaiters == old(awaiters) && items == old(items)
        && woken == (if fails then None else Some(first))
        && departed == old(departed) + [Departure(first, if fails then Abandoned else Got(item))]
    {
      woken := None;
      if awaiters != [] {
        var p := awaiters[0];
        awaiters := awaiters[1..];
        if !fails {
          woken := Some(p);
        }
        departed := departed + [Departure(p, if fails then Abandoned else Got(item))];
      } else if !fails {
        items := items + [item];
      }
    }

    /** The item, if one was there; otherwise the pop waits. */
    method PopItem(id: PopId) returns (item: Option<T>)
      modifies this
      ensures View() == Step(old(View()), Pop(id))
      ensures old(items) == [] ==> item.None? && awaiters == old(awaiters) + [id] && departed == old(departed)
      ensures old(items) != [] ==>
        item.Some? && [item.value] + items == old(items) && awaiters == old(awaiters)
        && departed == old(departed) + [Departure(id, Got(item.value))]
    {
      if items == [] {
        awaiters := awaiters + [id];
        item := None;
      } else {
        item := Some(items[0]);
        departed := departed + [Departure(id, Got(items[0]))];
        items := items[1..];
      }
    }

    /** The pop that gets the exception instead of an item. */
    method Unblock() returns (woken: Option<PopId>)
      modifies this
      ensures View() == Step(old(View()), UnblockPop)
      ensures woken.None? <==> old(awaiters) == []
      ensures woken.None? ==> View() == old(View())
      ensures woken.Some? ==>
        [woken.value] + awaiters == old(awaiters) && items == old(items)
        && departed == old(departed) + [Departure(woken.value, Unblocked)]
    {
      if awaiters == [] {
        return None;
      }
      woken := Some(awaiters[0]);
      departed := departed + [Departure(awaiters[0], Unblocked)];
      awaiters := awaiters[1..];
    }
  }
}
