/** What a future can hold. */
module Outcomes {
  type Error = int
  datatype Outcome<+T> = NotValue | Value(value: T) | Exception(error: Error)
}

/** class future and class promise, run by one thread; FutureProtocol adds the interleavings. */
module Futures {
  import opened Sequences
  import opened Awaiters
  import opened Outcomes

  /** What future::value() does: it returns, rethrows, or throws one of two exceptions. */
  datatype Access<+T> = Returns(value: T) | Rethrows(error: Error) | NotReadyThrown | CanceledThrown

  /** What promise::set_value does: it finds the pointer gone, resolves the future, or lets an
      exception out of the constructor of the value. */
  datatype SetResult = Lost | Won | Threw

  class Future<T> {
    const chain: Collector
    const instance: Awaiter // marks a future without a promise
    const disabled: Awaiter // marks a resolved future
    var state: Outcome<T>
    ghost var above: seq<Awaiter> // who waits, newest first

    predicate Ready()
      reads this, chain
    {
      chain.top == disabled
    }

    predicate Pending()
      reads this, chain
    {
      chain.top != instance && chain.top != disabled
    }

    ghost predicate Valid()
      reads this, chain, above
    {
      && instance != disabled
      && (Pending() ==>
            && Linked(chain.top, above, null) && Distinct(above)
            && instance !in above && disabled !in above)
      && (!Pending() ==> above == [])
      && (chain.top == instance ==> state == NotValue)
    }

    constructor (instance: Awaiter, disabled: Awaiter)
      requires instance != disabled
      ensures Valid() && !Ready() && !Pending() && state == NotValue && fresh(chain)
      ensures this.instance == instance && this.disabled == disabled
    {
      chain := new Collector();
      this.instance, this.disabled := instance, disabled;
      state := NotValue;
      above := [];
      new;
      chain.top := instance;
    }

    method GetPromise() returns (p: Promise<T>)
      requires Valid() && !Ready() && !Pending()
      modifies chain
      ensures Valid() && Pending() && above == [] && p.owner == this && fresh(p)
    {
      chain.top := null;
      p := new Promise<T>(this);
    }

    /** Registers the awaiter unless the result is already there. On a future without a promise it is
        registered above the static awaiter that marks this state, which is itself never registered. */
    method Subscribe(aw: Awaiter) returns (registered: bool)
      requires Valid() && aw.next == null && aw !in above && aw != instance && aw != disabled
      requires !Ready() && !Pending() ==> instance.next == null
      modifies this, chain, aw
      ensures state == old(state) && Ready() == old(Ready()) && registered == !old(Ready())
      ensures old(Ready() || Pending()) ==>
        Valid() && above == if registered then [aw] + old(above) else []
      ensures old(!Ready() && !Pending()) ==>
        Pending() && above == [aw, instance] && Linked(chain.top, above, null)
    {
      ghost var waiting := if chain.top == instance then [instance] else above;
      registered := aw.SubscribeCheckReady(chain, disabled, waiting);
      if registered {
        above := [aw] + waiting;
        assert above[1..] == waiting;
      }
    }

    /** set: fails tells whether the constructor of the value throws; an exception pointer cannot. */
    method Set(outcome: Outcome<T>, fails: bool) returns (thrown: bool)
      requires Valid() && Pending() && state == NotValue
      modifies this
      ensures Valid() && Pending() && above == old(above)
      ensures thrown <==> outcome.Value? && fails
      ensures state == if thrown then NotValue else outcome
    {
      thrown := outcome.Value? && fails;
      if !thrown {
        state := outcome;
      }
    }

    /** Marks the future resolved and resumes everybody who subscribed, newest first. */
    method Resolve() returns (resumed: seq<Awaiter>)
      requires Valid() && Pending()
      modifies this, chain, above
      ensures Valid() && Ready() && state == old(state)
      ensures resumed == old(above)
    {
      resumed := chain.ResumeChainSetReady(disabled, above);
      above := [];
    }

    method Value() returns (r: Access<T>)
      requires Valid()
      ensures state.Value? <==> r.Returns?
      ensures r.Returns? ==> r.value == state.value
      ensures state.Exception? <==> r.Rethrows?
      ensures r.Rethrows? ==> r.error == state.error
      ensures r == NotReadyThrown <==> state.NotValue? && Pending()
    {
      match state
      case NotValue => r := if Pending() then NotReadyThrown else CanceledThrown;
      case Value(v) => r := Returns(v);
      case Exception(e) => r := Rethrows(e);
    }
  }

  class Promise<T> {
    var owner: Future?<T>

    constructor (future: Future?<T>)
      ensures owner == future
    {
      owner := future;
    }

    method Claim() returns (m: Future?<T>)
      modifies this
      ensures m == old(owner) && owner == null
    {
      m := owner;
      owner := null;
    }

    /** A promise is usable while it points to a pending future nobody has written to. */
    ghost predicate Usable()
      reads this, owner, if owner == null then {} else {owner.chain},
            if owner == null then [] else owner.above
    {
      owner != null ==> owner.Valid() && owner.Pending() && owner.state == NotValue
    }

    /** set_value, set_exception and, with NotValue, drop. A constructor that throws leaves the future
        pending, with its awaiters waiting, and nobody who points to it. */
    method SetValue(outcome: Outcome<T>, fails: bool) returns (r: SetResult, resumed: seq<Awaiter>)
      requires Usable()
      modifies this, owner, if owner == null then {} else {owner.chain},
               if owner == null then [] else owner.above
      ensures owner == null && (r == Lost <==> old(owner) == null)
      ensures old(owner) != null ==> (r == Threw <==> outcome.Value? && fails)
      ensures r == Won ==>
        && old(owner).Valid() && old(owner).Ready() && old(owner).state == outcome
        && resumed == old(owner.above)
      ensures r == Threw ==>
        && old(owner).Valid() && old(owner).Pending() && old(owner).state == NotValue
        && old(owner).above == old(owner.above)
      ensures r != Won ==> resumed == []
    {
      var m := Claim();
      if m == null {
        return Lost, [];
      }
      if outcome != NotValue {
        var thrown := m.Set(outcome, fails);
        if thrown {
          return Threw, [];
        }
      }
      resumed := m.Resolve();
      r := Won;
    }
  }
}
