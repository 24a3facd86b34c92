/** The scheduler's vector: a binary heap on time, some of whose entries have lost their promise. */
module TimerHeap {
  import opened Options

  type Time = int
  type Ident = int
  type PromiseId = nat

  /** A scheduled promise; an entry without one is dead, but keeps its place in the heap. */
  datatype Item = Item(tp: Time, p: Option<PromiseId>, id: Ident)

  predicate Alive(it: Item) {
    it.p.Some?
  }

  function Parent(i: int): int
    requires i > 0
  {
    (i - 1) / 2
  }

  ghost predicate IsHeap(s: seq<Item>) {
    forall i :: 0 < i < |s| ==> s[Parent(i)].tp <= s[i].tp
  }

  /** The live entries. */
  ghost function Live(s: seq<Item>): multiset<Item> {
    if s == [] then multiset{}
    else Live(s[1..]) + if Alive(s[0]) then multiset{s[0]} else multiset{}
  }

  lemma {:induction false} LiveCount(s: seq<Item>, it: Item)
    ensures Live(s)[it] == if Alive(it) then multiset(s)[it] else 0
  {
    if s != [] {
      assert s == [s[0]] + s[1..];
      LiveCount(s[1..], it);
    }
  }

  /** Rearranging the vector does not change what is live; adding and removing an entry does so only
      if the entry is live. */
  lemma LivePlus(a: seq<Item>, b: seq<Item>, it: Item)
    requires multiset(b) == multiset(a) + multiset{it}
    ensures Live(b) == Live(a) + if Alive(it) then multiset{it} else multiset{}
  {
    forall x: Item
      ensures Live(b)[x] == (Live(a) + if Alive(it) then multiset{it} else multiset{})[x]
    {
      LiveCount(a, x);
      LiveCount(b, x);
    }
  }

  lemma LiveMembers(s: seq<Item>)
    ensures forall it :: it in Live(s) <==> it in s && Alive(it)
  {
    forall it: Item
      ensures it in Live(s) <==> it in s && Alive(it)
    {
      LiveCount(s, it);
      assert it in multiset(s) <==> it in s;
    }
  }

  lemma {:induction false} TopIsLeast(s: seq<Item>, i: nat)
    requires IsHeap(s) && i < |s|
    ensures s[0].tp <= s[i].tp
    decreases i
  {
    if i > 0 {
      TopIsLeast(s, Parent(i));
    }
  }

  lemma TopIsLeastOfAll(s: seq<Item>)
    requires IsHeap(s) && s != []
    ensures forall it :: it in s ==> s[0].tp <= it.tp
  {
    forall it | it in s
      ensures s[0].tp <= it.tp
    {
      var i :| 0 <= i < |s| && s[i] == it;
      TopIsLeast(s, i);
    }
  }

  function Swap(s: seq<Item>, i: nat, j: nat): (r: seq<Item>)
    requires i < |s| && j < |s|
    ensures |r| == |s| && multiset(r) == multiset(s)
  {
    s[i := s[j]][j := s[i]]
  }

  /** A heap but for the entry at i, which may be earlier than its parent. */
  ghost predicate HeapAbove(s: seq<Item>, i: int) {
    && (forall j :: 0 < j < |s| && j != i ==> s[Parent(j)].tp <= s[j].tp)
    && (i > 0 ==> forall j :: 0 < j < |s| && Parent(j) == i ==> s[Parent(i)].tp <= s[j].tp)
  }

  /** Exchanging the entry with its later parent moves the defect up. */
  lemma RaiseStep(s: seq<Item>, i: nat)
    requires HeapAbove(s, i) && 0 < i < |s| && s[Parent(i)].tp > s[i].tp
    ensures HeapAbove(Swap(s, Parent(i), i), Parent(i))
  {
    var r := Swap(s, Parent(i), i);
    forall j | 0 < j < |r| && j != Parent(i)
      ensures r[Parent(j)].tp <= r[j].tp
    {
      if j != i && Parent(j) != Parent(i) && Parent(j) != i {
        assert r[j] == s[j] && r[Parent(j)] == s[Parent(j)];
      }
    }
  }

  /** std::push_heap: all but the last entry form a heap; sifts the last one up. */
  method PushHeap(v: seq<Item>) returns (r: seq<Item>)
    requires v != [] && IsHeap(v[..|v| - 1])
    ensures IsHeap(r) && multiset(r) == multiset(v)
  {
    r := v;
    var i := |v| - 1;
    assert forall j :: 0 < j < |v| - 1 ==> v[..|v| - 1][j] == v[j];
    hide Swap;
    while i > 0 && r[Parent(i)].tp > r[i].tp
      invariant 0 <= i < |r| && |r| == |v| && multiset(r) == multiset(v)
      invariant HeapAbove(r, i)
    {
      RaiseStep(r, i);
      r := Swap(r, Parent(i), i);
      i := Parent(i);
    }
  }

  /** A heap but for the entry at i, which may be later than its children. */
  ghost predicate HeapBut(s: seq<Item>, i: int) {
    && (forall j :: 0 < j < |s| && Parent(j) != i ==> s[Parent(j)].tp <= s[j].tp)
    && (i > 0 ==> forall j :: 0 < j < |s| && Parent(j) == i ==> s[Parent(i)].tp <= s[j].tp)
  }

  /** Exchanging the entry with its earlier child moves the defect down. */
  lemma SiftStep(s: seq<Item>, i: nat, child: nat)
    requires HeapBut(s, i) && i < |s| && 0 < child < |s| && Parent(child) == i
    requires s[child].tp < s[i].tp
    requires forall j :: 0 < j < |s| && Parent(j) == i ==> s[child].tp <= s[j].tp
    ensures HeapBut(Swap(s, i, child), child)
  {
    var r := Swap(s, i, child);
    forall j | 0 < j < |r| && Parent(j) != child
      ensures r[Parent(j)].tp <= r[j].tp
    {
      if j != i && Parent(j) != i {
        assert r[j] == s[j] && r[Parent(j)] == s[Parent(j)];
      }
    }
  }

  function EarlierChild(s: seq<Item>, i: nat): (c: nat)
    requires 2 * i + 1 < |s|
    ensures 0 < c < |s| && Parent(c) == i && i < c
    ensures forall j :: 0 < j < |s| && Parent(j) == i ==> s[c].tp <= s[j].tp
  {
    if 2 * i + 2 < |s| && s[2 * i + 2].tp < s[2 * i + 1].tp then 2 * i + 2 else 2 * i + 1
  }

  method SiftDown(v: seq<Item>) returns (r: seq<Item>)
    requires HeapBut(v, 0)
    ensures IsHeap(r) && |r| == |v| && multiset(r) == multiset(v)
  {
    r := v;
    var i := 0;
    hide Swap, EarlierChild;
    while 2 * i + 1 < |r|
      invariant 0 <= i && |r| == |v| && multiset(r) == multiset(v)
      invariant HeapBut(r, i)
      decreases |r| - i
    {
      var child := EarlierChild(r, i);
      if r[i].tp <= r[child].tp {
        return;
      }
      SiftStep(r, i, child);
      r := Swap(r, i, child);
      i := child;
    }
  }

  /** std::pop_heap and pop_back: the last entry takes the place of the first and is sifted down. */
  method PopHeap(v: seq<Item>) returns (r: seq<Item>)
    requires v != [] && IsHeap(v)
    ensures IsHeap(r) && multiset(r) + multiset{v[0]} == multiset(v) && |r| == |v| - 1
  {
    var n := |v| - 1;
    if n == 0 {
      assert v == [v[0]];
      return [];
    }
    var w := [v[n]] + v[1..n];
    assert v == [v[0]] + v[1..n] + [v[n]];
    assert forall j :: 0 < j < n ==> w[j] == v[j];
    r := SiftDown(w);
  }
}
