/** publisher::queue: the object whose fields the operations update. */
module Publishers {
  import opened Options
  import opened Sequences
  import S = PublisherSpec
  import opened PublisherSpec
  import opened PublisherTheorems

  class PublisherQueue<T> {
    const maxLen: nat
    const minLen: nat
    var slots: seq<Slot>
    var nextFree: nat
    var items: seq<T>
    var pos: nat
    var closed: bool

    function View(): Queue<T>
      reads this
    {
      Queue(maxLen, minLen, slots, nextFree, items, pos, closed)
    }

    constructor (maxLen: nat, minLen: nat)
      requires 1 <= minLen <= maxLen
      ensures View() == S.New(maxLen, minLen)
    {
      this.maxLen, this.minLen := maxLen, minLen;
      slots, nextFree, items, pos, closed := [], 0, [], 1, false;
    }

    method SubscribeAt(sub: Sub, at: nat) returns (h: Handle)
      modifies this
      ensures (View(), h) == S.Subscribe(old(View()), sub, at)
    {
      if nextFree >= |slots| {
        h := |slots|;
        slots := slots + [Slot(at, sub, None, true, false)];
        nextFree := |slots|;
      } else {
        h := nextFree;
        var l := slots[h];
        nextFree := l.pos;
        slots := slots[h := l.(awt := None, sub := sub, pos := at, used := true, kicked := false)];
      }
    }

    method SubscribeRecent(sub: Sub) returns (h: Handle)
      requires pos >= 1
      modifies this
      ensures (View(), h) == S.Subscribe(old(View()), sub, old(pos) - 1)
    {
      h := SubscribeAt(sub, pos - 1);
    }

    method Leave(h: Handle)
      requires InUse(View(), h)
      modifies this
      ensures View() == S.Leave(old(View()), h)
    {
      slots := slots[h := slots[h].(pos := nextFree, used := false)];
      nextFree := h;
    }

    method Advance(h: Handle, mode: Mode) returns (ready: bool)
      requires InUse(View(), h) && pos >= 1
      modifies this
      ensures (View(), ready) == S.Advance(old(View()), h, mode)
    {
      var l := slots[h];
      if l.kicked {
        return false;
      }
      if l.pos + 1 == pos && !closed {
        return false;
      }
      match mode {
        case AllValues => l := l.(pos := l.pos + 1);
        case SkipIfBehind => l := l.(pos := Max(l.pos + 1, Diff(pos, |items|)));
        case SkipToRecent => l := l.(pos := Max(l.pos + 1, pos - 1));
      }
      slots := slots[h := l];
      return true;
    }

    method AdvanceSuspend(h: Handle, awt: Awt) returns (suspended: bool)
      requires InUse(View(), h)
      modifies this
      ensures (View(), suspended) == S.AdvanceSuspend(old(View()), h, awt)
    {
      var l := slots[h];
      if l.kicked || closed {
        return false;
      }
      l := l.(pos := l.pos + 1);
      suspended := l.pos == pos;
      if suspended {
        l := l.(awt := Some(awt));
      }
      slots := slots[h := l];
    }

    method GetValue(h: Handle, mode: Mode) returns (r: Option<T>)
      requires CanGet(View(), h, mode)
      ensures r == S.GetValue(View(), h, mode)
    {
      var l := slots[h];
      if l.kicked || l.pos == pos {
        return None;
      }
      var rel := Diff(pos, l.pos + 1);
      match mode {
        case AllValues =>
          if rel >= |items| {
            return None;
          }
          return Some(items[rel]);
        case SkipIfBehind =>
          if rel >= |items| {
            rel := |items| - 1;
          }
          return Some(items[rel]);
        case SkipToRecent => return Some(items[0]);
      }
    }

    method Push(batch: seq<T>) returns (woken: seq<Awt>)
      modifies this
      ensures (View(), woken) == S.Push(old(View()), batch)
      ensures if batch == [] then woken == [] else exists at: seq<nat> :: Registered(old(slots), at, woken)
    {
      ghost var _ := PushWakes(View(), batch);
      hide Registered, Woken, Cleared, NeedLen;
      // front_inserter: each item goes in front of the previous one
      var n := |items|;
      for i := 0 to |batch|
        invariant items == Reverse(batch[..i]) + old(items)
        invariant View() == old(View()).(items := items)
      {
        ReversePrefix(batch, i);
        items := [batch[i]] + items;
      }
      assert batch[..|batch|] == batch;
      assert batch == [] ==> items == old(items);
      woken := [];
      var d := |items| - n;
      if d != 0 {
        woken := PushLocked(d);
      }
    }

    method Close() returns (woken: seq<Awt>)
      modifies this
      ensures (View(), woken) == S.Close(old(View())) && closed
      ensures if old(closed) then woken == [] else exists at: seq<nat> :: Registered(old(slots), at, woken)
    {
      ghost var _ := CloseWakes(View());
      if closed {
        return [];
      }
      closed := true;
      woken := PushLocked(0);
    }

    /** Counts the new items, collects and clears the registered awaiters, and trims the queue to
        what the slowest subscriber needs. The caller resumes the awaiters without the lock. */
    method PushLocked(count: nat) returns (woken: seq<Awt>)
      modifies this
      ensures (View(), woken) == S.PushLocked(old(View()), count)
      ensures exists at: seq<nat> :: Registered(old(slots), at, woken)
    {
      ghost var _ := WokenAreRegistered(slots);
      hide Registered, Woken, Cleared, NeedLen;
      pos := pos + count;
      var needLen;
      woken, needLen := CollectAwaiters();
      items := items[..Min(needLen, Min(maxLen, |items|))];
    }

    /** The loop over the registrations. */
    method CollectAwaiters() returns (woken: seq<Awt>, needLen: nat)
      modifies `slots
      ensures slots == Cleared(old(slots))
      ensures woken == Woken(old(slots)) && needLen == NeedLen(old(slots), pos, minLen)
    {
      needLen, woken := minLen, [];
      ghost var all := slots;
      CollectNone(all, pos, minLen);
      hide Woken, Cleared, NeedLen;
      for i := 0 to |slots|
        invariant |slots| == |all| && slots[..i] == Cleared(all[..i])
        invariant forall k :: i <= k < |all| ==> slots[k] == all[k]
        invariant woken == Woken(all[..i]) && needLen == NeedLen(all[..i], pos, minLen)
      {
        CollectOne(all, i, pos, minLen);
        var x := slots[i];
        if x.used {
          if x.awt.Some? {
            woken := woken + [x.awt.value];
            slots := slots[i := x.(awt := None)];
          }
          needLen := Max(needLen, Diff(pos, x.pos));
        }
        assert slots[..i + 1] == slots[..i] + [Wake(x)];
      }
      assert all[..|all|] == all && slots[..|all|] == slots;
    }

    method Kick(sub: Sub) returns (awt: Option<Awt>)
      modifies this
      ensures (View(), awt) == S.Kick(old(View()), sub)
      ensures forall h :: 0 <= h < |old(slots)| && old(slots)[h].used && old(slots)[h].sub == sub
                          && (forall i :: 0 <= i < h && old(slots)[i].used ==> old(slots)[i].sub != sub) ==>
                awt == old(slots)[h].awt && slots[h] == old(slots)[h].(awt := None, kicked := true)
    {
      var h := Find(slots, sub);
      if h == |slots| {
        return None;
      }
      awt := slots[h].awt;
      slots := slots[h := slots[h].(awt := None, kicked := true)];
    }
  }

  lemma CollectNone(all: seq<Slot>, pos: nat, minLen: nat)
    ensures all[..0] == Cleared(all[..0])
    ensures Woken(all[..0]) == [] && NeedLen(all[..0], pos, minLen) == minLen
  {
  }

  /** What visiting slot i adds to the results of the loop in push_lk. */
  lemma CollectOne(all: seq<Slot>, i: nat, pos: nat, minLen: nat)
    requires i < |all|
    ensures var l, done, n := all[i], all[..i + 1], NeedLen(all[..i], pos, minLen);
      && Woken(done) == Woken(all[..i]) + (if l.used && l.awt.Some? then [l.awt.value] else [])
      && Cleared(done) == Cleared(all[..i]) + [Wake(l)]
      && NeedLen(done, pos, minLen) == if l.used then Max(n, Diff(pos, l.pos)) else n
  {
    assert all[..i + 1][..i] == all[..i];
  }
}
