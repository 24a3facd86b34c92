/** class scheduler: the timer heap and what its operations do to the live entries. */
module Schedulers {
  import opened Options
  import opened TimerHeap

  /** What get_expired returns: a promise that is due, or the time to wait for. */
  datatype Expired = Due(p: PromiseId) | NextAt(t: Time) | Never

  /** What remove does: it returns a promise or an empty one, or reads the first entry of a vector that
      has become empty. */
  datatype Removal = Removed(p: PromiseId) | Nothing | PastEnd

  /** One entry left because its time had come and no live entry was earlier. */
  ghost predicate Expires(before: seq<Item>, now: Time, after: seq<Item>, it: Item) {
    && it in Live(before) && it.tp <= now
    && (forall x :: x in Live(before) ==> it.tp <= x.tp)
    && Live(after) == Live(before) - multiset{it}
    && Shrinks(before, after)
  }

  /** Nothing is due; the answer is the exact time of the earliest live entry. */
  ghost predicate Waits(before: seq<Item>, now: Time, after: seq<Item>, r: Expired) {
    && Live(after) == Live(before)
    && (forall x :: x in Live(before) ==> x.tp > now)
    && (if Live(before) == multiset{} then r == Never
        else
          && r.NextAt?
          && (exists x :: x in Live(before) && x.tp == r.t)
          && (forall y :: y in Live(before) ==> r.t <= y.tp))
    && (after != [] ==> r.NextAt? && after[0].tp == r.t)
    && Shrinks(before, after)
  }

  /** The vector stays a heap and gets no new times. */
  ghost predicate Shrinks(before: seq<Item>, after: seq<Item>) {
    && IsHeap(after)
    && forall x :: x in after ==> exists y :: y in before && y.tp == x.tp
  }

  /** One live entry with the identifier left, before its time. */
  ghost predicate Removes(before: seq<Item>, id: Ident, after: seq<Item>, it: Item) {
    && it in Live(before) && it.id == id
    && Live(after) == Live(before) - multiset{it}
    && Shrinks(before, after)
  }

  /** A dead entry that carries the identifier. */
  predicate DeadTwin(x: Item, id: Ident) {
    x.id == id && !Alive(x)
  }

  predicate AllTwins(s: seq<Item>, id: Ident) {
    forall x :: x in s ==> DeadTwin(x, id)
  }

  /** The first match in the vector is dead, and a live one comes after it. */
  predicate Hidden(s: seq<Item>, id: Ident) {
    var k := FindIdent(s, id);
    k < |s| && !Alive(s[k]) && exists j :: k < j < |s| && s[j].id == id && Alive(s[j])
  }

  ghost predicate HasLive(s: seq<Item>, id: Ident) {
    exists x :: x in Live(s) && x.id == id
  }

  /** Nothing was removed; only a dead entry with the identifier can have hidden a live one. */
  ghost predicate RemovesNothing(before: seq<Item>, id: Ident, after: seq<Item>) {
    && Live(after) == Live(before)
    && ((forall x :: x in before ==> !DeadTwin(x, id)) ==> forall x :: x in before ==> x.id != id)
    && Shrinks(before, after)
  }

  /** The vector's first entry with the identifier, or its size. */
  function FindIdent(s: seq<Item>, id: Ident): (k: nat)
    ensures k <= |s|
    ensures k < |s| ==> s[k].id == id
    ensures forall j :: 0 <= j < k ==> s[j].id != id
  {
    if s == [] then 0 else if s[0].id == id then 0 else 1 + FindIdent(s[1..], id)
  }

  /** The vector without its first entry, as a heap again. */
  ghost predicate Popped(before: seq<Item>, after: seq<Item>) {
    && before != [] && |after| == |before| - 1 && IsHeap(after)
    && multiset(after) + multiset{before[0]} == multiset(before)
    && Live(before) == Live(after) + if Alive(before[0]) then multiset{before[0]} else multiset{}
  }

  lemma PoppedLive(before: seq<Item>, after: seq<Item>)
    requires before != [] && |after| == |before| - 1 && IsHeap(after)
    requires multiset(after) + multiset{before[0]} == multiset(before)
    ensures Popped(before, after)
  {
    LivePlus(after, before, before[0]);
  }

  lemma ShrinksAgain(a: seq<Item>, b: seq<Item>, c: seq<Item>)
    requires Shrinks(a, b) && Shrinks(b, c)
    ensures Shrinks(a, c)
  {
  }

  lemma PoppedShrinks(first: seq<Item>, before: seq<Item>, after: seq<Item>)
    requires Shrinks(first, before) && Popped(before, after)
    ensures Shrinks(first, after)
    ensures forall x :: x in before && x != before[0] ==> x in after
    ensures before[0] in before
    ensures !Alive(before[0]) ==> Live(after) == Live(before)
    ensures |after| < |before|
  {
    forall x
      ensures x in after ==> x in before
      ensures x in before && x != before[0] ==> x in after
    {
      assert x in before <==> x in multiset(before);
      assert x in after <==> x in multiset(after);
      assert x in multiset(before) <==> x in multiset(after) + multiset{before[0]};
    }
  }

  lemma PoppedExpires(first: seq<Item>, before: seq<Item>, after: seq<Item>, now: Time)
    requires Live(before) == Live(first) && IsHeap(before)
    requires Popped(before, after) && Shrinks(first, after)
    requires Alive(before[0]) && before[0].tp <= now
    ensures Expires(first, now, after, before[0])
  {
    TopIsLeastOfAll(before);
    LiveMembers(before);
  }

  lemma PoppedRemoves(first: seq<Item>, before: seq<Item>, after: seq<Item>, id: Ident)
    requires Live(before) == Live(first) && Popped(before, after) && Shrinks(first, after)
    requires Alive(before[0]) && before[0].id == id
    ensures Removes(first, id, after, before[0])
  {
  }

  lemma ExtractRemoves(first: seq<Item>, before: seq<Item>, after: seq<Item>, k: nat)
    requires Live(before) == Live(first) && Shrinks(first, after)
    requires k < |before| && before[k] in Live(before)
    requires Live(after) == Live(before) - multiset{before[k]}
    ensures Removes(first, before[k].id, after, before[k])
  {
  }

  /** Only dead entries with the identifier have left, the first of them from the top. */
  ghost predicate Skipped(before: seq<Item>, after: seq<Item>, id: Ident) {
    && Live(after) == Live(before) && Shrinks(before, after)
    && (forall x :: x in after ==> x in before)
    && (forall x :: x in before && !DeadTwin(x, id) ==> x in after)
    && (after == before || (before != [] && DeadTwin(before[0], id)))
  }

  lemma SkipOne(first: seq<Item>, before: seq<Item>, after: seq<Item>, id: Ident)
    requires Skipped(first, before, id) && Popped(before, after) && DeadTwin(before[0], id)
    ensures Skipped(first, after, id) && |after| < |before|
  {
    PoppedShrinks(first, before, after);
    PoppedMembers(before, after);
  }

  lemma PoppedMembers(before: seq<Item>, after: seq<Item>)
    requires Popped(before, after)
    ensures forall x :: x in after ==> x in before
  {
    forall x | x in after
      ensures x in before
    {
      assert x in multiset(after) && x in multiset(before);
    }
  }

  lemma SkippedMeans(before: seq<Item>, after: seq<Item>, id: Ident)
    requires Skipped(before, after, id)
    ensures Live(after) == Live(before) && Shrinks(before, after)
  {
  }

  lemma LiveTop(first: seq<Item>, before: seq<Item>, after: seq<Item>, id: Ident)
    requires Skipped(first, before, id) && Popped(before, after)
    requires Alive(before[0]) && before[0].id == id
    ensures Removes(first, id, after, before[0]) && !AllTwins(first, id)
  {
    PoppedShrinks(first, before, after);
    PoppedRemoves(first, before, after, id);
  }

  /** The loop runs past the end exactly when it meets nothing but dead entries with the identifier. */
  lemma SkippedAll(first: seq<Item>, last: seq<Item>, id: Ident)
    requires Skipped(first, last, id)
    ensures last == [] ==> AllTwins(first, id)
    ensures last != [] && !DeadTwin(last[0], id) ==> !AllTwins(first, id)
  {
    if last != [] {
      assert last[0] in last;
    }
  }

  /** Searching the vector misses a live entry exactly when a dead one hides it. */
  lemma SearchMisses(s: seq<Item>, id: Ident)
    ensures var k := FindIdent(s, id);
      (k == |s| || !Alive(s[k])) && HasLive(s, id) <==> Hidden(s, id)
  {
    LiveMembers(s);
    var k := FindIdent(s, id);
    if Hidden(s, id) {
      var j :| k < j < |s| && s[j].id == id && Alive(s[j]);
      assert s[j] in Live(s);
    }
    if (k == |s| || !Alive(s[k])) && HasLive(s, id) {
      var x :| x in Live(s) && x.id == id;
      var j :| 0 <= j < |s| && s[j] == x;
      assert k < j;
    }
  }

  lemma SearchFails(first: seq<Item>, mid: seq<Item>, id: Ident)
    requires Skipped(first, mid, id)
    requires var k := FindIdent(mid, id); k == |mid| || !Alive(mid[k])
    ensures RemovesNothing(first, id, mid)
    ensures HasLive(first, id) <==> Hidden(mid, id)
  {
    SearchMisses(mid, id);
    var k := FindIdent(mid, id);
    if mid == first && k < |mid| {
      assert mid[k] in first && DeadTwin(mid[k], id);
    }
    if mid != first {
      assert first[0] in first;
    }
  }

  lemma TopWaits(first: seq<Item>, last: seq<Item>, now: Time, r: Expired)
    requires Live(last) == Live(first) && Shrinks(first, last) && IsHeap(last)
    requires last != [] ==> last[0].tp > now && Alive(last[0])
    requires r == if last == [] then Never else NextAt(last[0].tp)
    ensures Waits(first, now, last, r)
  {
    LiveMembers(last);
    if last != [] {
      TopIsLeastOfAll(last);
      assert last[0] in Live(last);
    }
  }

  class Scheduler {
    var scheduled: seq<Item>

    ghost predicate Valid()
      reads this
    {
      IsHeap(scheduled)
    }

    constructor ()
      ensures Valid() && scheduled == []
    {
      scheduled := [];
    }

    /** True means that the sleeping workers are notified. */
    method Schedule(id: Ident, p: Option<PromiseId>, tp: Time) returns (notify: bool)
      requires Valid()
      modifies this
      ensures Valid() && multiset(scheduled) == multiset(old(scheduled)) + multiset{Item(tp, p, id)}
      ensures Live(scheduled) == Live(old(scheduled)) + if p.Some? then multiset{Item(tp, p, id)} else multiset{}
      ensures notify <==> old(scheduled) == [] || old(scheduled)[0].tp > tp
    {
      notify := |scheduled| == 0 || scheduled[0].tp > tp;
      var v := scheduled + [Item(tp, p, id)];
      assert v[..|v| - 1] == scheduled;
      scheduled := PushHeap(v);
      LivePlus(old(scheduled), scheduled, Item(tp, p, id));
    }

    /** pop_item: the first entry leaves. */
    method PopItem()
      requires Valid() && scheduled != []
      modifies this
      ensures Valid() && Popped(old(scheduled), scheduled)
    {
      scheduled := PopHeap(scheduled);
      PoppedLive(old(scheduled), scheduled);
    }

    /** get_expired: entries are popped until the first one is live and lies in the future. */
    method GetExpired(now: Time) returns (r: Expired)
      requires Valid()
      modifies this
      ensures Valid()
      ensures r.Due? ==> exists it: Item :: it.p == Some(r.p) && Expires(old(scheduled), now, scheduled, it)
      ensures !r.Due? ==> Waits(old(scheduled), now, scheduled, r)
    {
      assert Shrinks(scheduled, scheduled);
      hide Live, IsHeap, Shrinks, Popped, Expires;
      while |scheduled| > 0 && (scheduled[0].tp <= now || scheduled[0].p.None?)
        invariant Valid() && Live(scheduled) == Live(old(scheduled))
        invariant Shrinks(old(scheduled), scheduled)
        decreases |scheduled|
      {
        var it := scheduled[0];
        ghost var current := scheduled;
        PopItem();
        PoppedShrinks(old(scheduled), current, scheduled);
        if it.p.Some? {
          PoppedExpires(old(scheduled), current, scheduled, now);
          return Due(it.p.value);
        }
      }
      r := if |scheduled| == 0 then Never else NextAt(scheduled[0].tp);
      TopWaits(old(scheduled), scheduled, now, r);
    }

    /** mid is the vector that is searched, if the first loop gets that far. */
    method Remove(id: Ident) returns (r: Removal, ghost mid: seq<Item>)
      requires Valid()
      modifies this
      ensures Valid()
      ensures r.PastEnd? <==> old(scheduled) != [] && AllTwins(old(scheduled), id)
      ensures r.Removed? ==>
        exists it: Item :: it.p == Some(r.p) && Removes(old(scheduled), id, scheduled, it)
      ensures r.Nothing? ==> RemovesNothing(old(scheduled), id, scheduled)
      ensures r.Nothing? && HasLive(old(scheduled), id) <==> Hidden(mid, id)
      ensures mid != [] ==> Skipped(old(scheduled), mid, id) && mid[0].id != id
      ensures old(scheduled) != [] && old(scheduled)[0].id != id ==> mid == old(scheduled)
    {
      assert Shrinks(scheduled, scheduled);
      if |scheduled| == 0 {
        return Nothing, [];
      }
      r := RemoveFromTop(id);
      if !r.Nothing? {
        return r, [];
      }
      mid := scheduled;
      r := RemoveFirst(id, old(scheduled));
    }

    /** The first loop of remove: pops entries with the identifier off the top until one is live, and
        reads the first entry again even when none is left. */
    method RemoveFromTop(id: Ident) returns (r: Removal)
      requires Valid() && scheduled != []
      modifies this
      ensures Valid()
      ensures r.PastEnd? <==> AllTwins(old(scheduled), id)
      ensures r.Removed? ==>
        exists it: Item :: it.p == Some(r.p) && Removes(old(scheduled), id, scheduled, it)
      ensures r.Nothing? ==>
        Skipped(old(scheduled), scheduled, id) && scheduled != [] && scheduled[0].id != id
      ensures old(scheduled)[0].id != id ==> r.Nothing? && scheduled == old(scheduled)
    {
      assert Shrinks(scheduled, scheduled);
      assert Skipped(scheduled, scheduled, id);
      hide Live, IsHeap, Shrinks, Popped, Removes, Skipped, AllTwins;
      while scheduled != [] && scheduled[0].id == id
        invariant Valid() && Skipped(old(scheduled), scheduled, id)
        invariant scheduled != old(scheduled) ==> old(scheduled)[0].id == id
        decreases |scheduled|
      {
        var it := scheduled[0];
        ghost var current := scheduled;
        PopItem();
        if it.p.Some? {
          LiveTop(old(scheduled), current, scheduled, id);
          return Removed(it.p.value);
        }
        SkipOne(old(scheduled), current, scheduled, id);
      }
      SkippedAll(old(scheduled), scheduled, id);
      return if scheduled == [] then PastEnd else Nothing;
    }

    /** The second half of remove: takes the promise of the first entry with the identifier. */
    method RemoveFirst(id: Ident, ghost first: seq<Item>) returns (r: Removal)
      requires Valid() && Skipped(first, scheduled, id)
      modifies this
      ensures Valid() && !r.PastEnd?
      ensures r.Removed? ==>
        exists it: Item :: it.p == Some(r.p) && Removes(first, id, scheduled, it)
      ensures r.Nothing? ==> scheduled == old(scheduled) && RemovesNothing(first, id, scheduled)
      ensures r.Nothing? && HasLive(first, id) <==> Hidden(old(scheduled), id)
    {
      ghost var current := scheduled;
      SkippedMeans(first, current, id);
      hide Live, IsHeap, Shrinks, Removes, RemovesNothing, Skipped, HasLive;
      var k := FindIdent(scheduled, id);
      if k == |scheduled| {
        SearchFails(first, current, id);
        return Nothing;
      }
      var p := Extract(k);
      ShrinksAgain(first, current, scheduled);
      if p.Some? {
        ExtractRemoves(first, current, scheduled, k);
        return Removed(p.value);
      }
      SearchFails(first, current, id);
      r := Nothing;
    }

    /** Moves the promise out of an entry and leaves the dead entry in its place. */
    method Extract(k: nat) returns (p: Option<PromiseId>)
      requires Valid() && k < |scheduled|
      modifies this
      ensures Valid() && p == old(scheduled)[k].p && Shrinks(old(scheduled), scheduled)
      ensures p.Some? ==> old(scheduled)[k] in Live(old(scheduled))
      ensures p.Some? ==> Live(scheduled) == Live(old(scheduled)) - multiset{old(scheduled)[k]}
      ensures p.None? ==> scheduled == old(scheduled)
    {
      var it := scheduled[k];
      p := it.p;
      scheduled := scheduled[k := it.(p := None)];
      LiveUpdate(old(scheduled), k);
      UpdateShrinks(old(scheduled), k, scheduled);
    }
  }

  lemma UpdateShrinks(s: seq<Item>, k: nat, t: seq<Item>)
    requires IsHeap(s) && k < |s| && t == s[k := s[k].(p := None)]
    ensures Shrinks(s, t)
  {
    forall x | x in t
      ensures exists y :: y in s && y.tp == x.tp
    {
      if x == t[k] {
        assert s[k] in s;
      } else {
        assert x in s;
      }
    }
  }

  lemma LiveUpdate(s: seq<Item>, k: nat)
    requires k < |s|
    ensures var t := s[k := s[k].(p := None)];
      Live(t) == Live(s) - (if Alive(s[k]) then multiset{s[k]} else multiset{})
    ensures Alive(s[k]) ==> s[k] in Live(s)
  {
    var t := s[k := s[k].(p := None)];
    forall x: Item
      ensures Live(t)[x] == (Live(s) - (if Alive(s[k]) then multiset{s[k]} else multiset{}))[x]
    {
      LiveCount(s, x);
      LiveCount(t, x);
    }
    LiveMembers(s);
  }
}
