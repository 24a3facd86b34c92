/** suspend_point<void>: a vector of coroutine handles with room for three inside the object. */
module SuspendPoints {
  import opened Options
  import opened CoroQueue

  /** The arrays that have been allocated and not yet deleted. */
  class Allocator {
    ghost var live: set<array<Handle>>

    constructor ()
      ensures live == {}
    {
      live := {};
    }

    method Allocate(n: nat) returns (a: array<Handle>)
      modifies this
      ensures fresh(a) && a.Length == n && live == old(live) + {a} && a !in old(live)
    {
      a := new Handle[n](_ => 0);
      live := live + {a};
    }

    /** An array can be deleted only once. */
    method Delete(a: array<Handle>)
      requires a in live
      modifies this
      ensures live == old(live) - {a}
    {
      live := live - {a};
    }
  }

  const INLINE_COUNT := 3

  /** One word of the union: a handle, or the pointer or the capacity of the external array. */
  datatype Word = Junk | H(h: Handle) | Arr(a: array<Handle>) | Num(n: nat)

  predicate AllHandles(ws: seq<Word>) {
    forall i :: 0 <= i < |ws| ==> ws[i].H?
  }

  function Handles(ws: seq<Word>): seq<Handle>
    requires AllHandles(ws)
  {
    seq(|ws|, i requires 0 <= i < |ws| => ws[i].h)
  }

  class SuspendPoint {
    const heap: Allocator
    const words: array<Word>
    var countFlag: nat // bit 0: external storage; the other bits: number of handles

    predicate External()
      reads this
    {
      countFlag % 2 == 1
    }

    function Size(): nat
      reads this
    {
      countFlag / 2
    }

    ghost predicate Valid()
      reads this, words, heap
    {
      && words.Length == INLINE_COUNT
      && (External() ==>
            && words[0].Arr? && words[0].a in heap.live && words[1].Num?
            && words[0].a.Length == words[1].n && Size() <= words[1].n
            && 2 * INLINE_COUNT <= words[1].n)
      && (!External() ==> Size() <= INLINE_COUNT && AllHandles(words[..Size()]))
    }

    /** The external array, if any: it belongs to this object alone. */
    ghost function Owned(): set<array<Handle>>
      requires Valid()
      reads this, words, heap
    {
      if External() then {words[0].a} else {}
    }

    ghost function Contents(): seq<Handle>
      requires Valid()
      reads this, words, heap, Owned()
    {
      if External() then words[0].a[..Size()]
      else Handles(words[..Size()])
    }

    /** What is allocated besides this object's array. */
    ghost function Others(): set<array<Handle>>
      requires Valid()
      reads this, words, heap
    {
      heap.live - Owned()
    }

    constructor (heap: Allocator)
      ensures Valid() && Contents() == [] && Owned() == {} && this.heap == heap && fresh(words)
    {
      this.heap := heap;
      words := new Word[INLINE_COUNT](_ => Junk);
      countFlag := 0;
    }

    constructor FromHandle(heap: Allocator, h: Handle)
      ensures Valid() && Contents() == [h] && Owned() == {} && this.heap == heap && fresh(words)
    {
      this.heap := heap;
      words := new Word[INLINE_COUNT](_ => Junk);
      countFlag := 2;
      new;
      words[0] := H(h);
    }

    /** The move constructor copies the union as it is and empties the other object. */
    constructor Move(other: SuspendPoint)
      requires other.Valid()
      modifies other
      ensures Valid() && other.Valid() && heap == other.heap && fresh(words)
      ensures Contents() == old(other.Contents()) && other.Contents() == []
      ensures Owned() == old(other.Owned()) && other.Owned() == {}
    {
      heap := other.heap;
      words := new Word[INLINE_COUNT](_ => Junk);
      countFlag := other.countFlag;
      new;
      if External() {
        words[0] := other.words[0];
        words[1] := other.words[1];
      } else {
        for i := 0 to INLINE_COUNT
          modifies words
          invariant words[..i] == other.words[..i]
        {
          words[i] := other.words[i];
        }
        assert words[..Size()] == other.words[..Size()];
      }
      other.countFlag := 0;
    }

    method Add(h: Handle)
      requires Valid()
      modifies this, words, heap, Owned()
      ensures Valid() && Contents() == old(Contents()) + [h]
      ensures Others() == old(Others()) && fresh(Owned() - old(Owned()))
      ensures External() <==> old(External()) || old(Size()) == INLINE_COUNT
    {
      var count := countFlag / 2;
      if countFlag % 2 != 0 {
        if count == words[1].n {
          Reallocate();
        }
        Put(h);
      } else if count < INLINE_COUNT {
        words[count] := H(h);
        countFlag := countFlag + 2;
      } else {
        Spill();
        Put(h);
      }
    }

    /** The external array is full: everything moves to one twice as long. */
    method Reallocate()
      requires Valid() && External() && Size() == words[1].n
      modifies words, heap
      ensures Valid() && External() && Contents() == old(Contents()) && Size() < words[1].n
      ensures Others() == old(Others()) && fresh(Owned())
    {
      var count := countFlag / 2;
      var nh := heap.Allocate(count * 2);
      CopyInto(words[0].a, nh, count);
      heap.Delete(words[0].a);
      words[0] := Arr(nh);
      words[1] := Num(count * 2);
    }

    /** The inline storage is full: it is copied out before the union changes its meaning, because
        the array pointer then overwrites the first handle. */
    method Spill()
      requires Valid() && !External() && Size() == INLINE_COUNT
      modifies this, words, heap
      ensures Valid() && External() && Contents() == old(Contents()) && Size() < words[1].n
      ensures Others() == old(Others()) && fresh(Owned())
    {
      ghost var was := Contents();
      var count := countFlag / 2;
      var nh := heap.Allocate(count * 2);
      for i := 0 to INLINE_COUNT
        modifies nh
        invariant nh[..i] == Handles(words[..i])
      {
        nh[i] := words[i].h;
      }
      assert nh[..count] == was;
      words[0] := Arr(nh);
      words[1] := Num(count * 2);
      countFlag := countFlag + 1;
      assert External() && Size() == count && words[0].a == nh;
    }

    method Put(h: Handle)
      requires Valid() && External() && Size() < words[1].n
      modifies this, Owned()
      ensures Valid() && External() && Contents() == old(Contents()) + [h] && Owned() == old(Owned())
    {
      words[0].a[countFlag / 2] := h;
      countFlag := countFlag + 2;
    }

    /** Takes the last handle; nothing is freed until the object is cleared. */
    method Pop() returns (h: Option<Handle>)
      requires Valid()
      modifies this
      ensures Valid() && Owned() == old(Owned())
      ensures if old(Contents()) == [] then h.None? && Contents() == []
              else h.Some? && Contents() + [h.value] == old(Contents())
    {
      var idx := countFlag / 2;
      if idx == 0 {
        return None;
      }
      countFlag := countFlag - 2;
      if countFlag % 2 != 0 {
        h := Some(words[0].a[idx - 1]);
      } else {
        h := Some(words[idx - 1].h);
      }
    }

    /** clear_internal: the handles have been taken care of. */
    method ClearInternal()
      requires Valid()
      modifies this, heap
      ensures Valid() && Contents() == [] && Owned() == {}
      ensures heap.live == old(Others())
    {
      if countFlag % 2 != 0 {
        heap.Delete(words[0].a);
      }
      countFlag := 0;
    }

    /** The handle at position i, wherever it is stored. */
    method At(i: nat) returns (h: Handle)
      requires Valid() && i < |Contents()|
      ensures h == Contents()[i]
    {
      if countFlag % 2 != 0 {
        h := words[0].a[i];
      } else {
        h := words[i].h;
      }
    }

    ghost predicate Separate(other: SuspendPoint)
      requires Valid() && other.Valid()
      reads this, words, heap, other, other.words, other.heap
    {
      this != other && words != other.words && heap == other.heap && Owned() !! other.Owned()
    }

    /** One step of operator<<: adding here leaves the other object alone. */
    method AddFrom(other: SuspendPoint, i: nat)
      requires Valid() && other.Valid() && Separate(other) && i < |other.Contents()|
      modifies this, words, heap, Owned()
      ensures Valid() && other.Valid() && Separate(other)
      ensures Contents() == old(Contents()) + [old(other.Contents())[i]]
      ensures other.Contents() == old(other.Contents()) && other.Owned() == old(other.Owned())
      ensures Others() == old(Others()) && fresh(Owned() - old(Owned()))
    {
      var h := other.At(i);
      assert other.Owned() <= Others();
      Add(h);
    }

    /** operator<<: moves all handles of the other object, in order, behind this object's. */
    method Merge(other: SuspendPoint)
      requires Valid() && other.Valid() && Separate(other)
      modifies this, words, heap, Owned(), other
      ensures Valid() && other.Valid()
      ensures Contents() == old(Contents()) + old(other.Contents()) && other.Contents() == []
      ensures other.Owned() == {} && Others() == old(Others() - other.Owned())
    {
      ghost var mine, theirs := Contents(), other.Contents();
      var count := other.countFlag / 2;
      hide SuspendPoint.Contents;
      for i := 0 to count
        invariant Valid() && other.Valid() && Separate(other)
        invariant Contents() == mine + theirs[..i] && other.Contents() == theirs
        invariant other.Owned() == old(other.Owned()) && Others() == old(Others())
        invariant fresh(Owned() - old(Owned()))
        invariant count == |theirs|
      {
        AddFrom(other, i);
      }
      assert theirs[..count] == theirs;
      Drain(other);
    }

    /** Empties the other object without touching this one. */
    method Drain(other: SuspendPoint)
      requires Valid() && other.Valid() && Separate(other)
      modifies heap, other
      ensures Valid() && other.Valid() && Contents() == old(Contents()) && other.Contents() == []
      ensures Owned() == old(Owned()) && other.Owned() == {} && Others() == old(Others() - other.Owned())
    {
      other.ClearInternal();
    }

    /** operator<< with the object itself: everything is dropped, and if the added handles no longer
        fitted inline, the array they were moved to is never deleted. */
    method MergeSelf() returns (ghost leaked: set<array<Handle>>)
      requires Valid()
      modifies this, words, heap, Owned()
      ensures Valid() && Contents() == [] && Owned() == {}
      ensures heap.live == old(Others()) + leaked && leaked !! old(Others())
      ensures leaked != {} <==> !old(External()) && 2 * old(Size()) > INLINE_COUNT
    {
      var count := countFlag / 2;
      if countFlag % 2 != 0 {
        AddOwn(count);
        heap.Delete(words[0].a);
        leaked := {};
      } else {
        AddOwn(count);
        leaked := Owned();
      }
      countFlag := 0;
    }

    /** The loop over the object's own handles. The code has decided before the loop where they are
        stored; once they have moved, it reads whatever the union holds. */
    method AddOwn(count: nat)
      requires Valid() && count == Size()
      modifies this, words, heap, Owned()
      ensures Valid() && Others() == old(Others())
      ensures External() <==> old(External()) || 2 * count > INLINE_COUNT
    {
      var external := countFlag % 2 != 0;
      hide SuspendPoint.Contents;
      for i := 0 to count
        invariant Valid() && Size() == count + i && Others() == old(Others())
        invariant fresh(Owned() - old(Owned()))
        invariant External() <==> external || count + i > INLINE_COUNT
      {
        var h: Handle := *;
        if external {
          h := words[0].a[i];
        } else if words[i].H? {
          h := words[i].h;
        }
        ContentsSize();
        Add(h);
        ContentsSize();
      }
    }

    lemma ContentsSize()
      requires Valid()
      ensures |Contents()| == Size()
    {
    }

    /** Queues every handle, in order, and looks for one of them. */
    method QueueAll(q: RunQueue, me: Handle) returns (included: bool)
      requires Valid() && q.Valid() && q.active
      modifies q
      ensures q.Valid() && q.active && q.direct == old(q.direct)
      ensures q.queue == old(q.queue) + Contents()
      ensures included <==> me in Contents()
    {
      ghost var all := Contents();
      var count := countFlag / 2;
      included := false;
      hide SuspendPoint.Contents;
      for i := 0 to count
        modifies q
        invariant count == |all| && Contents() == all
        invariant q.Valid() && q.active && q.direct == old(q.direct)
        invariant q.queue == old(q.queue) + all[..i]
        invariant included <==> me in all[..i]
      {
        var x := At(i);
        assert all[..i + 1] == all[..i] + [x];
        included := included || x == me;
        q.Push(x);
      }
      assert all[..count] == all;
    }

    /** The handles in order. */
    method All() returns (all: seq<Handle>)
      requires Valid()
      ensures all == Contents()
    {
      all := [];
      var count := countFlag / 2;
      ContentsSize();
      hide SuspendPoint.Contents;
      for i := 0 to count
        invariant |Contents()| == count && all == Contents()[..i]
      {
        var x := At(i);
        assert Contents()[..i + 1] == Contents()[..i] + [x];
        all := all + [x];
      }
      assert Contents()[..count] == Contents();
    }

    /** suspend_now: under an active queue everything is queued, in order; otherwise a queue is
        installed, under which everything is resumed directly. */
    method SuspendNow(q: RunQueue)
      requires Valid() && q.Valid()
      modifies this, heap, q
      ensures Valid() && Contents() == [] && Owned() == {} && heap.live == old(Others())
      ensures q.Valid() && q.active == (old(q.active) || old(Contents()) != [])
      ensures if old(q.active) then q.queue == old(q.queue) + old(Contents()) && q.direct == old(q.direct)
              else q.queue == [] && q.direct == old(Contents())
    {
      ContentsSize();
      if q.active {
        var _ := QueueAll(q, 0);
      } else if countFlag / 2 != 0 {
        var all := All();
        q.Install(all);
      }
      ClearInternal();
    }

    /** The destructor: what is left is resumed, and nothing stays allocated. */
    method Destroy(q: RunQueue)
      requires Valid() && q.Valid()
      modifies this, heap, q
      ensures heap.live == old(Others())
      ensures q.Valid() && q.active == (old(q.active) || old(Contents()) != [])
      ensures if old(q.active) then q.queue == old(q.queue) + old(Contents()) && q.direct == old(q.direct)
              else q.queue == [] && q.direct == old(Contents())
    {
      if countFlag != 0 {
        SuspendNow(q);
      }
    }

    /** await_suspend: the last handle runs next, the others are queued in order, and the awaiting
        coroutine after them unless it is among them. Without an active queue one is installed, under
        which the last handle is resumed directly. */
    method AwaitSuspend(q: RunQueue, me: Handle) returns (out: Option<Handle>)
      requires Valid() && q.Valid()
      modifies this, heap, q
      ensures Valid() && Contents() == [] && Owned() == {} && heap.live == old(Others())
      ensures q.Valid() && q.active
      ensures old(Contents()) == [] ==>
        out.None? && q.queue == old(q.queue) + [me] && q.direct == old(q.direct)
      ensures old(Contents()) != [] ==>
        && (var rest := ButLast(old(Contents()));
            q.queue == old(q.queue) + rest + if me in rest then [] else [me])
        && if old(q.active) then out == Some(Last(old(Contents()))) && q.direct == old(q.direct)
           else out.None? && q.direct == [Last(old(Contents()))]
    {
      var installed := !q.active;
      if installed {
        q.Install([]);
      }
      out := AwaitSuspendActive(q, me);
      if installed && out.Some? {
        q.direct := [out.value];
        out := None;
      }
    }

    method AwaitSuspendActive(q: RunQueue, me: Handle) returns (out: Option<Handle>)
      requires Valid() && q.Valid() && q.active
      modifies this, heap, q
      ensures Valid() && Contents() == [] && Owned() == {} && heap.live == old(Others())
      ensures q.Valid() && q.active && q.direct == old(q.direct)
      ensures old(Contents()) == [] ==> out.None? && q.queue == old(q.queue) + [me]
      ensures old(Contents()) != [] ==>
        && out == Some(Last(old(Contents())))
        && var rest := ButLast(old(Contents())); q.queue == old(q.queue) + rest + if me in rest then [] else [me]
    {
      ghost var all := Contents();
      out := Pop();
      assert all != [] ==> Contents() == ButLast(all);
      hide SuspendPoint.Contents, ButLast;
      var meIncluded := QueueAll(q, me);
      if !meIncluded {
        q.Push(me);
      }
      ClearInternal();
    }
  }

  method CopyInto(from: array<Handle>, to: array<Handle>, n: nat)
    requires n <= from.Length && n <= to.Length && from != to
    modifies to
    ensures to[..n] == from[..n]
  {
    for i := 0 to n
      invariant to[..i] == from[..i]
    {
      to[i] := from[i];
    }
  }
}
