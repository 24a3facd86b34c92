/** Facts about sequences that several protocols share. */
module Sequences {

  function Reverse<T>(s: seq<T>): (r: seq<T>)
    ensures |r| == |s|
  {
    if s == [] then [] else Reverse(s[1..]) + [s[0]]
  }

  ghost predicate Distinct<T>(s: seq<T>) {
    forall i, j :: 0 <= i < j < |s| ==> s[i] != s[j]
  }

  lemma {:induction false} ReverseIndex<T>(s: seq<T>, k: nat)
    requires k < |s|
    ensures Reverse(s)[k] == s[|s| - 1 - k]
  {
    if k < |s| - 1 {
      ReverseIndex(s[1..], k);
    }
  }

  lemma ReverseMembers<T>(s: seq<T>)
    ensures forall x :: x in Reverse(s) <==> x in s
  {
    forall x | x in s
      ensures x in Reverse(s)
    {
      var i :| 0 <= i < |s| && s[i] == x;
      ReverseIndex(s, |s| - 1 - i);
      assert Reverse(s)[|s| - 1 - i] == x;
    }
    forall x | x in Reverse(s)
      ensures x in s
    {
      var i :| 0 <= i < |s| && Reverse(s)[i] == x;
      ReverseIndex(s, i);
    }
  }

  lemma {:induction false} ReverseConcat<T>(a: seq<T>, b: seq<T>)
    ensures Reverse(a + b) == Reverse(b) + Reverse(a)
  {
    if a == [] {
      assert a + b == b;
    } else {
      ReverseConcat(a[1..], b);
      assert (a + b)[1..] == a[1..] + b;
    }
  }

  /** Reversing one more element puts it in front. */
  lemma ReversePrefix<T>(s: seq<T>, n: nat)
    requires n < |s|
    ensures Reverse(s[..n + 1]) == [s[n]] + Reverse(s[..n])
  {
    assert s[..n + 1] == s[..n] + [s[n]];
    ReverseConcat(s[..n], [s[n]]);
    assert Reverse([s[n]]) == [s[n]];
  }

  lemma DistinctAt<T>(s: seq<T>, n: nat)
    requires Distinct(s) && n < |s|
    ensures s[n..][0] == s[n] && s[n..][1..] == s[n + 1..]
    ensures s[n] !in s[..n] && s[n] !in s[n + 1..]
  {
    assert forall i :: 0 <= i < n ==> s[..n][i] == s[i];
    assert forall j :: n + 1 <= j < |s| ==> s[n + 1..][j - n - 1] == s[j];
  }

  lemma DistinctReverse<T>(a: seq<T>)
    requires Distinct(a)
    ensures Distinct(Reverse(a))
  {
    forall i, j | 0 <= i < j < |a|
      ensures Reverse(a)[i] != Reverse(a)[j]
    {
      ReverseIndex(a, i);
      ReverseIndex(a, j);
    }
  }

  /** One step of a queue and the rest of a run: what leaves, in order, and what is left are what was there
      and what came. */
  lemma FifoStep<T>(queue: seq<T>, came: seq<T>, left: seq<T>, next: seq<T>,
                    leaving: seq<T>, end: seq<T>, coming: seq<T>)
    requires left + next == queue + came && leaving + end == next + coming
    ensures left + leaving + end == queue + (came + coming)
  {
    assert left + leaving + end == left + (next + coming) == (left + next) + coming;
  }
}
