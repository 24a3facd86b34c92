/** Awaiter nodes in shared memory: who points to whom, as a map that every step may write. */
module Chains {
  type Node = nat

  /** A value of an awaiter pointer; Marker is the static awaiter that marks a collector: the doorman
      of a mutex, the disabled state of a future. */
  datatype Ptr = Null | Marker | At(node: Node)

  /** From p the next pointers visit exactly ns, in order, and then reach end. */
  ghost predicate Chain(next: map<Node, Ptr>, p: Ptr, ns: seq<Node>, end: Ptr)
    decreases ns
  {
    if ns == [] then p == end
    else p == At(ns[0]) && ns[0] in next && Chain(next, next[ns[0]], ns[1..], end)
  }

  /** A chain depends on nothing but the nodes it visits. */
  lemma {:induction false} ChainFrame(next: map<Node, Ptr>, x: Node, y: Ptr, p: Ptr, ns: seq<Node>, end: Ptr)
    requires Chain(next, p, ns, end) && x !in ns
    ensures Chain(next[x := y], p, ns, end)
    decreases ns
  {
    if ns != [] {
      ChainFrame(next, x, y, next[ns[0]], ns[1..], end);
    }
  }
}
