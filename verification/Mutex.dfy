/** The mutex as an ideal lock with a waiting line. */
module MutexSpec {
  import opened Options

  datatype Lock<T> = Lock(holder: Option<T>, line: seq<T>)

  /** lock() by somebody: it takes a free lock, and otherwise waits last in line. */
  function Request<T>(l: Lock<T>, who: T): Lock<T> {
    if l.holder.Some? then l.(line := l.line + [who]) else l.(holder := Some(who))
  }

  /** unlock(): the first in line becomes the holder, or the lock becomes free. */
  function Release<T>(l: Lock<T>): Lock<T> {
    if l.line == [] then Lock(None, []) else Lock(Some(l.line[0]), l.line[1..])
  }
}

/** class mutex, run by one thread at a time; MutexProtocol adds the interleavings. */
module Mutexes {
  import opened Options
  import opened Sequences
  import opened Awaiters
  import opened MutexSpec

  class Mutex {
    const requests: Collector
    const doorman: Awaiter
    var queue: Awaiter?
    // what the pointers stand for: who holds the mutex, the stack above the doorman, and the hand-off
    // queue
    ghost var holder: Option<Awaiter>
    ghost var above: seq<Awaiter>
    ghost var waiting: seq<Awaiter>

    ghost predicate Valid()
      reads this, requests, above, waiting
    {
      && Distinct(above + waiting) && doorman !in above && doorman !in waiting
      && Linked(queue, waiting, null)
      && (requests.top == null <==> holder.None?)
      && (requests.top == null ==> above == [] && waiting == [])
      && (requests.top != null ==> Linked(requests.top, above, doorman))
    }

    ghost function View(): Lock<Awaiter>
      reads this
    {
      Lock(holder, waiting + Reverse(above))
    }

    constructor (instance: Awaiter)
      ensures Valid() && View() == Lock(None, []) && doorman == instance && fresh(requests)
    {
      requests := new Collector();
      doorman := instance;
      queue := null;
      holder, above, waiting := None, [], [];
    }

    /** try_lock(), and the first half of lock(). */
    method Ready(ghost who: Awaiter) returns (ok: bool)
      requires Valid()
      modifies this, requests
      ensures Valid() && ok == old(View()).holder.None?
      ensures View() == if ok then Lock(Some(who), []) else old(View())
    {
      ok := requests.top == null;
      if ok {
        requests.top := doorman;
        holder := Some(who);
      }
    }

    /** Reverses the stack above stop into the queue and leaves the doorman as the only request.
        Everything below stop, and stop itself, is outside the modifies clause. */
    method BuildQueue(stop: Awaiter, ghost segment: seq<Awaiter>)
      requires queue == null && Linked(requests.top, segment, stop)
      requires Distinct(segment) && stop !in segment
      modifies requests, `queue, segment
      ensures requests.top == doorman
      ensures Linked(queue, Reverse(segment), null)
    {
      var req := requests.top;
      requests.top := doorman;
      ghost var n := 0;
      hide Reverse, Distinct;
      while req != null && req != stop
        invariant n <= |segment|
        invariant Linked(req, segment[n..], stop)
        invariant Linked(queue, Reverse(segment[..n]), null)
        invariant requests.top == doorman
        decreases |segment| - n
      {
        SplitAt(segment, n);
        var x := req;
        req := req.next;
        x.next := queue;
        queue := x;
        n := n + 1;
      }
      assert segment[..n] == segment;
    }

    /** Second half of lock(): false means that the mutex was free after all and is now held. */
    method Subscribe(aw: Awaiter) returns (suspended: bool)
      requires Valid() && aw.next == null && aw != doorman && aw !in above && aw !in waiting
      modifies this, requests, aw
      ensures Valid()
      ensures suspended == old(View()).holder.Some?
      ensures View() == Request(old(View()), aw)
    {
      aw.Subscribe(requests, above, if requests.top == null then null else doorman);
      if aw.next == null {
        BuildQueue(aw, []);
        holder := Some(aw);
        suspended := false;
      } else {
        DistinctPush(above, waiting, aw);
        above := [aw] + above;
        assert above[1..] == old(above);
        suspended := true;
      }
    }

    /** Releases the mutex, or hands it to the first in line, which the caller then resumes. */
    method Unlock() returns (first: Awaiter?)
      requires Valid() && View().holder.Some?
      modifies this, requests, above, waiting
      ensures Valid() && View() == Release(old(View()))
      ensures first == if old(View()).line == [] then null else old(View()).line[0]
      ensures first != null ==> first.next == null
    {
      hide Distinct, Reverse;
      if queue == null {
        if requests.top == doorman {
          requests.top := null;
          holder := None;
          return null;
        }
        Rebuild();
      }
      first := TakeFirst();
      holder := Some(first);
    }

    /** The empty hand-off queue is filled with the requests that have arrived. */
    method Rebuild()
      requires Valid() && queue == null && requests.top != null && requests.top != doorman
      modifies this, requests, above
      ensures Valid() && View() == old(View()) && above == [] && waiting == Reverse(old(above)) != []
      ensures forall k :: 0 <= k < |waiting| ==> waiting[k] in old(above)
    {
      hide Distinct, Reverse;
      ghost var nodes := above;
      assert above + waiting == nodes;
      BuildQueue(doorman, nodes);
      above, waiting := [], Reverse(nodes);
      RebuiltLists(nodes);
      assert above + waiting == waiting && Reverse(above) == [];
    }

    /** Removes the head of the hand-off queue. */
    method TakeFirst() returns (first: Awaiter)
      requires Valid() && waiting != []
      modifies this, waiting
      ensures Valid() && above == old(above) && holder == old(holder)
      ensures first == old(waiting)[0] && waiting == old(waiting)[1..] && first.next == null
    {
      hide Distinct;
      first := queue;
      assert first in waiting;
      DistinctTail(above, waiting);
      queue := queue.next;
      first.next := null;
      waiting := waiting[1..];
    }
  }

  /** The element that moves from the segment to the front of the reversed part. */
  lemma SplitAt<T>(s: seq<T>, n: nat)
    requires n < |s| && Distinct(s)
    ensures s[n..] != [] && s[n..][0] == s[n] && s[n..][1..] == s[n + 1..]
    ensures s[n] !in s[n + 1..] && s[n] !in Reverse(s[..n])
    ensures var r := Reverse(s[..n + 1]); r != [] && r[0] == s[n] && r[1..] == Reverse(s[..n])
  {
    DistinctAt(s, n);
    ReverseMembers(s[..n]);
    ReversePrefix(s, n);
  }

  lemma RebuiltLists<T>(above: seq<T>)
    requires Distinct(above)
    ensures Distinct(Reverse(above)) && forall x :: x in Reverse(above) <==> x in above
  {
    DistinctReverse(above);
    ReverseMembers(above);
  }

  lemma DistinctPush<T>(a: seq<T>, b: seq<T>, x: T)
    requires Distinct(a + b) && x !in a && x !in b
    ensures Distinct([x] + a + b)
  {
    assert [x] + a + b == [x] + (a + b);
  }

  lemma DistinctTail<T>(a: seq<T>, b: seq<T>)
    requires Distinct(a + b) && b != []
    ensures b[0] !in a && b[0] !in b[1..] && Distinct(a + b[1..])
  {
    var s := a + b;
    assert s[|a|] == b[0];
    assert forall i :: 0 <= i < |a| ==> s[i] == a[i];
    assert forall i :: 0 <= i < |b| ==> s[|a| + i] == b[i];
    assert forall i :: |a| <= i < |a + b[1..]| ==> (a + b[1..])[i] == s[i + 1];
  }
}
