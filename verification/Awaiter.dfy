/** The awaiter node and the lock-free stack of awaiters, run by one thread without interference. */
module Awaiters {
  import opened Sequences

  /** Something that can be resumed; next links it into a collector. */
  class Awaiter {
    var next: Awaiter?

    constructor ()
      ensures next == null
    {
      next := null;
    }

    /** Pushes this awaiter. next keeps the old top, which tells the caller what it pushed above. */
    method Subscribe(chain: Collector, ghost above: seq<Awaiter>, ghost end: Awaiter?)
      requires Linked(chain.top, above, end) && this !in above
      modifies chain, this
      ensures chain.top == this && next == old(chain.top)
      ensures Linked(chain.top, [this] + above, end)
    {
      next := chain.top;
      chain.top := this;
      assert ([this] + above)[1..] == above;
    }

    /** Pushes this awaiter unless the collector is marked with the ready state. */
    method SubscribeCheckReady(chain: Collector, readyState: Awaiter,
                               ghost above: seq<Awaiter>) returns (registered: bool)
      requires next == null && this != readyState
      requires chain.top != readyState ==> Linked(chain.top, above, null) && this !in above
      modifies chain, this
      ensures registered <==> old(chain.top) != readyState
      ensures registered ==> Linked(chain.top, [this] + above, null)
      ensures !registered ==> chain.top == readyState && next == null
    {
      next := chain.top;
      if next == readyState {
        next := null;
        return false;
      }
      chain.top := this;
      assert ([this] + above)[1..] == above;
      return true;
    }
  }

  class Collector {
    var top: Awaiter?

    constructor ()
      ensures top == null
    {
      top := null;
    }

    /** Detaches the whole stack, marks the collector ready, and resumes everybody. */
    method ResumeChainSetReady(readyState: Awaiter, ghost above: seq<Awaiter>)
      returns (resumed: seq<Awaiter>)
      requires Linked(top, above, null) && Distinct(above)
      modifies this, above
      ensures top == readyState
      ensures resumed == above
      ensures forall a :: a in above ==> a.next == null
    {
      var chain := top;
      top := readyState;
      resumed := ResumeChain(chain, above);
    }
  }

  /** From p the next pointers visit exactly ns, in order, and then reach end. */
  ghost predicate Linked(p: Awaiter?, ns: seq<Awaiter>, end: Awaiter?)
    reads ns
    decreases ns
  {
    if ns == [] then p == end else p == ns[0] && Linked(ns[0].next, ns[1..], end)
  }

  /** Unlinks and resumes every awaiter of a detached chain, first the newest. Each node is unlinked
      before it is resumed, so a resumed node is never read again. */
  method ResumeChain(first: Awaiter?, ghost above: seq<Awaiter>) returns (resumed: seq<Awaiter>)
    requires Linked(first, above, null) && Distinct(above)
    modifies above
    ensures resumed == above
    ensures forall a :: a in above ==> a.next == null
  {
    resumed := [];
    var chain := first;
    while chain != null
      invariant |resumed| <= |above| && resumed == above[..|resumed|]
      invariant Linked(chain, above[|resumed|..], null)
      invariant forall a :: a in resumed ==> a.next == null
      decreases |above| - |resumed|
    {
      DistinctAt(above, |resumed|);
      var y := chain;
      chain := chain.next;
      y.next := null;
      resumed := resumed + [y];
    }
  }
}
