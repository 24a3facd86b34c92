/** generator_aggregator: one coroutine that merges what several generators yield. */
module Aggregator {
  import opened Options
  import opened Sequences

  type Error = int

  /** A generator: the values it has still to yield, how it ends, and whether it had ended already when
      it was passed in; asking such a one for more throws. */
  datatype Generator<+T> = Generator(values: seq<T>, throws: Option<Error>, ended: bool)

  /** Fresh: not asked yet; Charged: running towards its next result; Ready: its callback is in the queue; Yielded: the
      aggregator has passed its value on and waits for its own consumer. */
  datatype Phase = Fresh | Charged | Ready | Yielded | Over

  datatype Output<+T> = Output(from: nat, value: T)

  /** charged counts the generators that the first loop has asked; failed: one of them threw, and the
      coroutine unwinds into the destructor of the controller. produced counts the values a generator
      has yielded into the output; active is the controller's count; thrown records who threw, in
      order, and exp is the last exception. */
  datatype State<T> = State(
    charged: nat, failed: bool, phases: seq<Phase>, produced: seq<nat>, queue: seq<nat>, active: nat,
    output: seq<Output<T>>, exp: Option<Error>, thrown: seq<nat>)

  datatype Event =
    | Charge           // the first loop asks the next generator
    | Complete(i: nat) // generator i reaches its next result, in any order
    | Take             // the aggregator pops the queue and looks at the generator
    | Recharge(i: nat) // its consumer asks for more
    | Collect          // the destructor of the controller waits for one more callback

  function Init<T>(gens: seq<Generator<T>>): State<T> {
    State(0, false, seq(|gens|, _ => Fresh), seq(|gens|, _ => 0), [], |gens|, [], None, [])
  }

  predicate Sized<T>(gens: seq<Generator<T>>, s: State<T>) {
    |s.phases| == |s.produced| == |gens| && forall k :: 0 <= k < |s.queue| ==> s.queue[k] < |gens|
  }

  predicate Enabled<T>(gens: seq<Generator<T>>, s: State<T>, e: Event) {
    && Sized(gens, s)
    && match e
       case Charge => !s.failed && s.charged < |gens|
       case Complete(i) => i < |gens| && s.phases[i].Charged?
       case Take =>
         && !s.failed && s.charged == |gens| && s.active > 0 && s.queue != []
         && forall i :: 0 <= i < |gens| ==> !s.phases[i].Yielded?
       case Recharge(i) => i < |gens| && s.phases[i].Yielded?
       case Collect => s.failed && s.active > 1 && s.queue != []
  }

  function Step<T>(gens: seq<Generator<T>>, s: State<T>, e: Event): State<T>
    requires Enabled(gens, s, e)
  {
    match e
    case Charge =>
      if gens[s.charged].ended then s.(failed := true)
      else s.(phases := s.phases[s.charged := Charged], charged := s.charged + 1)
    case Complete(i) => s.(phases := s.phases[i := Ready], queue := s.queue + [i])
    case Take =>
      var i := s.queue[0];
      var g := gens[i];
      var popped := s.(queue := s.queue[1..]);
      if s.produced[i] < |g.values| then
        popped.(phases := s.phases[i := Yielded], produced := s.produced[i := s.produced[i] + 1],
                output := s.output + [Output(i, g.values[s.produced[i]])])
      else
        var ended := popped.(phases := s.phases[i := Over], active := s.active - 1);
        if g.throws.None? then ended
        else ended.(exp := g.throws, thrown := s.thrown + [i])
    case Recharge(i) => s.(phases := s.phases[i := Charged])
    case Collect =>
      s.(phases := s.phases[s.queue[0] := Over], queue := s.queue[1..], active := s.active - 1)
  }

  /** The main loop is left when the count of active generators is zero. */
  predicate Finished<T>(gens: seq<Generator<T>>, s: State<T>) {
    !s.failed && s.charged == |gens| && s.active == 0
  }

  ghost predicate IsRun<T>(gens: seq<Generator<T>>, s: State<T>, trace: seq<Event>)
    decreases |trace|
  {
    trace == [] || (Enabled(gens, s, trace[0]) && IsRun(gens, Step(gens, s, trace[0]), trace[1..]))
  }

  ghost function After<T>(gens: seq<Generator<T>>, s: State<T>, trace: seq<Event>): State<T>
    requires IsRun(gens, s, trace)
    decreases |trace|
  {
    if trace == [] then s else After(gens, Step(gens, s, trace[0]), trace[1..])
  }

  // ---------- A lossless merge ----------

  /** The values in the output that came from generator i, in order. */
  function From<T>(output: seq<Output<T>>, i: nat): seq<T> {
    if output == [] then []
    else
      var last := output[|output| - 1];
      From(output[..|output| - 1], i) + if last.from == i then [last.value] else []
  }

  lemma FromPush<T>(output: seq<Output<T>>, o: Output<T>, i: nat)
    ensures From(output + [o], i) == From(output, i) + if o.from == i then [o.value] else []
  {
    assert (output + [o])[..|output|] == output;
  }

  function NotOver(phases: seq<Phase>): nat {
    if phases == [] then 0 else (if phases[0].Over? then 0 else 1) + NotOver(phases[1..])
  }

  lemma {:induction false} NotOverUpdate(phases: seq<Phase>, i: nat, p: Phase)
    requires i < |phases|
    ensures NotOver(phases[i := p]) + (if phases[i].Over? then 0 else 1)
         == NotOver(phases) + if p.Over? then 0 else 1
  {
    if i == 0 {
      assert phases[i := p][1..] == phases[1..];
    } else {
      NotOverUpdate(phases[1..], i - 1, p);
      assert phases[i := p][1..] == phases[1..][i - 1 := p];
    }
  }

  lemma {:induction false} NoneLeft(phases: seq<Phase>)
    requires NotOver(phases) == 0
    ensures forall i :: 0 <= i < |phases| ==> phases[i].Over?
  {
    if phases != [] {
      NoneLeft(phases[1..]);
      assert forall i :: 0 < i < |phases| ==> phases[i] == phases[1..][i - 1];
    }
  }

  /** What holds of generator i at any time. */
  ghost predicate Lossless<T>(g: Generator<T>, s: State<T>, i: nat)
    requires i < |s.phases| && i < |s.produced|
  {
    && s.produced[i] <= |g.values|
    && From(s.output, i) == g.values[..s.produced[i]]
    && multiset(s.queue)[i] == (if s.phases[i].Ready? then 1 else 0)
    && (s.phases[i].Over? && !s.failed ==> s.produced[i] == |g.values|)
    && multiset(s.thrown)[i] == (if s.phases[i].Over? && !s.failed && g.throws.Some? then 1 else 0)
  }

  /** The first loop has asked the generators before the charged-th, none of which had ended; until it
      is through, nothing is yielded. */
  ghost predicate Charging<T>(gens: seq<Generator<T>>, s: State<T>) {
    && |s.phases| == |gens| && s.charged <= |gens|
    && (forall i :: 0 <= i < s.charged ==> !gens[i].ended)
    && (s.failed ==> s.charged < |gens| && gens[s.charged].ended)
    && (forall i :: 0 <= i < |gens| ==> (s.phases[i].Fresh? <==> i >= s.charged))
    && (s.charged < |gens| ==> s.output == [] && s.thrown == [])
    && (s.charged < |gens| && !s.failed ==> forall i :: 0 <= i < |gens| ==> !s.phases[i].Over?)
    && (s.charged < |gens| ==> forall i :: 0 <= i < |gens| ==> !s.phases[i].Yielded?)
  }

  ghost predicate Counted<T>(gens: seq<Generator<T>>, s: State<T>) {
    && Sized(gens, s)
    && s.active == NotOver(s.phases)
    && (forall k :: 0 <= k < |s.thrown| ==> s.thrown[k] < |gens| && gens[s.thrown[k]].throws.Some?)
    && s.exp == if s.thrown == [] then None else gens[s.thrown[|s.thrown| - 1]].throws
  }

  ghost predicate Good<T>(gens: seq<Generator<T>>, s: State<T>) {
    Counted(gens, s) && Charging(gens, s) && forall i :: 0 <= i < |gens| ==> Lossless(gens[i], s, i)
  }

  lemma CountPop(q: seq<nat>, i: nat)
    requires q != []
    ensures multiset(q)[i] == multiset(q[1..])[i] + if i == q[0] then 1 else 0
  {
    assert q == [q[0]] + q[1..];
  }

  lemma ChargeKeeps<T>(gens: seq<Generator<T>>, s: State<T>)
    requires Good(gens, s) && Enabled(gens, s, Charge)
    ensures Good(gens, Step(gens, s, Charge))
  {
    NotOverUpdate(s.phases, s.charged, Charged);
    var s' := Step(gens, s, Charge);
    forall j | 0 <= j < |gens|
      ensures Lossless(gens[j], s', j)
    {
      assert Lossless(gens[j], s, j);
    }
  }

  lemma CollectKeeps<T>(gens: seq<Generator<T>>, s: State<T>)
    requires Good(gens, s) && Enabled(gens, s, Collect)
    ensures Good(gens, Step(gens, s, Collect))
  {
    FirstIsReady(gens, s);
    NotOverUpdate(s.phases, s.queue[0], Over);
    var s' := Step(gens, s, Collect);
    forall j | 0 <= j < |gens|
      ensures Lossless(gens[j], s', j)
    {
      assert Lossless(gens[j], s, j);
      CountPop(s.queue, j);
    }
  }

  lemma CompleteKeeps<T>(gens: seq<Generator<T>>, s: State<T>, i: nat)
    requires Good(gens, s) && Enabled(gens, s, Complete(i))
    ensures Good(gens, Step(gens, s, Complete(i)))
  {
    NotOverUpdate(s.phases, i, Ready);
    assert Counted(gens, Step(gens, s, Complete(i)));
    assert Charging(gens, Step(gens, s, Complete(i)));
    hide Counted, Charging, Lossless;
    forall j | 0 <= j < |gens|
      ensures Lossless(gens[j], Step(gens, s, Complete(i)), j)
    {
      CompleteLossless(gens, s, i, j);
    }
  }

  lemma CompleteLossless<T>(gens: seq<Generator<T>>, s: State<T>, i: nat, j: nat)
    requires Enabled(gens, s, Complete(i)) && j < |gens| && Lossless(gens[j], s, j)
    ensures Lossless(gens[j], Step(gens, s, Complete(i)), j)
  {
  }

  lemma RechargeKeeps<T>(gens: seq<Generator<T>>, s: State<T>, i: nat)
    requires Good(gens, s) && Enabled(gens, s, Recharge(i))
    ensures Good(gens, Step(gens, s, Recharge(i)))
  {
    NotOverUpdate(s.phases, i, Charged);
    assert Counted(gens, Step(gens, s, Recharge(i)));
    assert Charging(gens, Step(gens, s, Recharge(i)));
    hide Counted, Charging, Lossless;
    forall j | 0 <= j < |gens|
      ensures Lossless(gens[j], Step(gens, s, Recharge(i)), j)
    {
      RechargeLossless(gens, s, i, j);
    }
  }

  lemma RechargeLossless<T>(gens: seq<Generator<T>>, s: State<T>, i: nat, j: nat)
    requires Enabled(gens, s, Recharge(i)) && j < |gens| && Lossless(gens[j], s, j)
    ensures Lossless(gens[j], Step(gens, s, Recharge(i)), j)
  {
  }

  /** The generator whose callback is first in the queue has just become ready. */
  lemma FirstIsReady<T>(gens: seq<Generator<T>>, s: State<T>)
    requires Good(gens, s) && s.queue != []
    ensures var i := s.queue[0]; i < |gens| && s.phases[i].Ready? && s.produced[i] <= |gens[i].values|
  {
    var i := s.queue[0];
    assert Lossless(gens[i], s, i);
    assert i in multiset(s.queue);
  }

  lemma YieldIsLossless<T>(gens: seq<Generator<T>>, s: State<T>, j: nat)
    requires Enabled(gens, s, Take) && j < |gens| && Lossless(gens[j], s, j)
    requires s.phases[s.queue[0]].Ready? && s.produced[s.queue[0]] < |gens[s.queue[0]].values|
    ensures Lossless(gens[j], Step(gens, s, Take), j)
  {
    var i := s.queue[0];
    CountPop(s.queue, j);
    FromPush(s.output, Output(i, gens[i].values[s.produced[i]]), j);
    hide From;
  }

  lemma EndIsLossless<T>(gens: seq<Generator<T>>, s: State<T>, j: nat)
    requires Enabled(gens, s, Take) && j < |gens| && Lossless(gens[j], s, j)
    requires s.phases[s.queue[0]].Ready? && s.produced[s.queue[0]] == |gens[s.queue[0]].values|
    ensures Lossless(gens[j], Step(gens, s, Take), j)
  {
    CountPop(s.queue, j);
    assert multiset(s.thrown + [s.queue[0]])[j] == multiset(s.thrown)[j] + if j == s.queue[0] then 1 else 0;
    hide From;
  }

  lemma YieldCounts<T>(gens: seq<Generator<T>>, s: State<T>)
    requires Counted(gens, s) && Enabled(gens, s, Take) && s.phases[s.queue[0]].Ready?
    requires s.produced[s.queue[0]] < |gens[s.queue[0]].values|
    ensures Counted(gens, Step(gens, s, Take))
  {
    NotOverUpdate(s.phases, s.queue[0], Yielded);
  }

  lemma EndCounts<T>(gens: seq<Generator<T>>, s: State<T>)
    requires Counted(gens, s) && Enabled(gens, s, Take) && s.phases[s.queue[0]].Ready?
    requires s.produced[s.queue[0]] >= |gens[s.queue[0]].values|
    ensures Counted(gens, Step(gens, s, Take))
  {
    NotOverUpdate(s.phases, s.queue[0], Over);
  }

  lemma TakeKeeps<T>(gens: seq<Generator<T>>, s: State<T>)
    requires Good(gens, s) && Enabled(gens, s, Take)
    ensures Good(gens, Step(gens, s, Take))
  {
    FirstIsReady(gens, s);
    assert Charging(gens, Step(gens, s, Take));
    hide Lossless, Counted, Charging;
    if s.produced[s.queue[0]] < |gens[s.queue[0]].values| {
      YieldCounts(gens, s);
    } else {
      EndCounts(gens, s);
    }
    forall j | 0 <= j < |gens|
      ensures Lossless(gens[j], Step(gens, s, Take), j)
    {
      assert Lossless(gens[j], s, j);
      if s.produced[s.queue[0]] < |gens[s.queue[0]].values| {
        YieldIsLossless(gens, s, j);
      } else {
        EndIsLossless(gens, s, j);
      }
    }
  }

  lemma StepKeepsGood<T>(gens: seq<Generator<T>>, s: State<T>, e: Event)
    requires Good(gens, s) && Enabled(gens, s, e)
    ensures Good(gens, Step(gens, s, e))
  {
    match e
    case Charge => ChargeKeeps(gens, s);
    case Complete(i) => CompleteKeeps(gens, s, i);
    case Take => TakeKeeps(gens, s);
    case Recharge(i) => RechargeKeeps(gens, s, i);
    case Collect => CollectKeeps(gens, s);
  }

  lemma {:induction false} RunKeepsGood<T>(gens: seq<Generator<T>>, s: State<T>, trace: seq<Event>)
    requires Good(gens, s) && IsRun(gens, s, trace)
    ensures Good(gens, After(gens, s, trace))
    decreases |trace|
  {
    if trace != [] {
      StepKeepsGood(gens, s, trace[0]);
      hide Good;
      RunKeepsGood(gens, Step(gens, s, trace[0]), trace[1..]);
    }
  }

  lemma {:induction false} AllFresh(phases: seq<Phase>)
    requires forall i :: 0 <= i < |phases| ==> phases[i].Fresh?
    ensures NotOver(phases) == |phases|
  {
    if phases != [] {
      AllFresh(phases[1..]);
    }
  }

  lemma InitGood<T>(gens: seq<Generator<T>>)
    ensures Good(gens, Init(gens))
  {
    AllFresh(Init(gens).phases);
  }

  /** In whatever order the generators complete: what the aggregator has yielded from generator i is
      exactly the first values of i, in order; when the loop is left, every generator is over and all
      its values were yielded, also those of generators other than one that threw; and the exception
      rethrown is the last one. */
  lemma LosslessMerge<T>(gens: seq<Generator<T>>, trace: seq<Event>, i: nat)
    requires IsRun(gens, Init(gens), trace) && i < |gens|
    ensures var t := After(gens, Init(gens), trace);
      && i < |t.produced| && t.produced[i] <= |gens[i].values|
      && From(t.output, i) == gens[i].values[..t.produced[i]]
      && (Finished(gens, t) ==> From(t.output, i) == gens[i].values)
      && (Finished(gens, t) ==> (i in t.thrown <==> gens[i].throws.Some?))
      && (if t.thrown == [] then t.exp == None
          else t.thrown[|t.thrown| - 1] < |gens| && t.exp == gens[t.thrown[|t.thrown| - 1]].throws)
  {
    InitGood(gens);
    RunKeepsGood(gens, Init(gens), trace);
    var t := After(gens, Init(gens), trace);
    assert Lossless(gens[i], t, i);
    assert i in t.thrown <==> i in multiset(t.thrown);
    if Finished(gens, t) {
      NoneLeft(t.phases);
    }
  }

  // ---------- The order of the callbacks ----------

  /** The generators whose callback was waiting in a and has been dealt with in b. */
  function Answered(a: seq<Phase>, b: seq<Phase>): seq<nat>
    requires |a| == |b|
  {
    if a == [] then []
    else
      var n := |a| - 1;
      Answered(a[..n], b[..n]) + if a[n].Ready? && !b[n].Ready? then [n] else []
  }

  function CallsBack(e: Event): seq<nat> {
    if e.Complete? then [e.i] else []
  }

  function AllCallsBack(trace: seq<Event>): seq<nat> {
    if trace == [] then [] else CallsBack(trace[0]) + AllCallsBack(trace[1..])
  }

  ghost function AllAnswered<T>(gens: seq<Generator<T>>, s: State<T>, trace: seq<Event>): seq<nat>
    requires IsRun(gens, s, trace)
    decreases |trace|
  {
    if trace == [] then []
    else
      var t := Step(gens, s, trace[0]);
      (if |t.phases| == |s.phases| then Answered(s.phases, t.phases) else [])
      + AllAnswered(gens, t, trace[1..])
  }

  lemma {:induction false} AnsweredOne(a: seq<Phase>, i: nat, p: Phase)
    requires i < |a|
    ensures Answered(a, a[i := p]) == if a[i].Ready? && !p.Ready? then [i] else []
  {
    var n, b := |a| - 1, a[i := p];
    assert i == n ==> b[..n] == a[..n];
    if i < n {
      assert b[..n] == a[..n][i := p];
      AnsweredOne(a[..n], i, p);
    } else {
      AnsweredNone(a[..n]);
    }
  }

  lemma {:induction false} AnsweredNone(a: seq<Phase>)
    ensures Answered(a, a) == []
  {
    if a != [] {
      AnsweredNone(a[..|a| - 1]);
    }
  }

  /** A step concerns one generator at most. */
  lemma PhaseStep<T>(gens: seq<Generator<T>>, s: State<T>, e: Event) returns (i: nat)
    requires Good(gens, s) && Enabled(gens, s, e)
    ensures var t := Step(gens, s, e);
      && i < |s.phases| == |t.phases| && t.phases == s.phases[i := t.phases[i]]
      && (s.phases[i].Ready? && !t.phases[i].Ready? <==> e.Take? || e.Collect?)
      && (if e.Take? || e.Collect? then [i] + t.queue == s.queue else t.queue == s.queue + CallsBack(e))
  {
    match e
    case Charge => i := s.charged;
    case Complete(j) => i := j;
    case Recharge(j) => i := j;
    case _ =>
      FirstIsReady(gens, s);
      i := s.queue[0];
  }

  /** One step deals with the callback that has waited longest, or with none. */
  lemma AnswerStep<T>(gens: seq<Generator<T>>, s: State<T>, e: Event)
    requires Good(gens, s) && Enabled(gens, s, e)
    ensures var t := Step(gens, s, e);
      && |t.phases| == |s.phases|
      && Answered(s.phases, t.phases) + t.queue == s.queue + CallsBack(e)
      && |Answered(s.phases, t.phases)| == if e.Take? || e.Collect? then 1 else 0
  {
    var i := PhaseStep(gens, s, e);
    hide Good, Enabled, Step, Answered;
    AnsweredOne(s.phases, i, Step(gens, s, e).phases[i]);
    assert CallsBack(e) == [] || !(e.Take? || e.Collect?);
  }

  /** Only dealing with a callback yields, and then the next value of the generator that called back,
      if there is one; without one it has ended, and nothing is yielded. */
  lemma YieldStep<T>(gens: seq<Generator<T>>, s: State<T>, e: Event)
    requires Good(gens, s) && Enabled(gens, s, e)
    ensures var t := Step(gens, s, e);
      if e.Take? then
        var i, values := s.queue[0], gens[s.queue[0]].values;
        var done := |From(s.output, i)|;
        t.output == s.output + if done < |values| then [Output(i, values[done])] else []
      else t.output == s.output
  {
    if e.Take? {
      FirstIsReady(gens, s);
      assert Lossless(gens[s.queue[0]], s, s.queue[0]);
    }
  }

  /** First come, first served: the callbacks dealt with, in that order, and those still queued are all
      the callbacks that came, in the order they came. */
  lemma {:induction false} CallbacksInOrder<T>(gens: seq<Generator<T>>, s: State<T>, trace: seq<Event>)
    requires Good(gens, s) && IsRun(gens, s, trace)
    ensures AllAnswered(gens, s, trace) + After(gens, s, trace).queue == s.queue + AllCallsBack(trace)
    decreases |trace|
  {
    if trace != [] {
      var e, t, rest := trace[0], Step(gens, s, trace[0]), trace[1..];
      AnswerStep(gens, s, e);
      StepKeepsGood(gens, s, e);
      var first := Answered(s.phases, t.phases);
      assert AllAnswered(gens, s, trace) == first + AllAnswered(gens, t, rest);
      assert AllCallsBack(trace) == CallsBack(e) + AllCallsBack(rest);
      assert After(gens, s, trace) == After(gens, t, rest) && IsRun(gens, t, rest);
      hide *;
      CallbacksInOrder(gens, t, rest);
      FifoStep(s.queue, CallsBack(e), first, t.queue,
                AllAnswered(gens, t, rest), After(gens, t, rest).queue, AllCallsBack(rest));
    }
  }

  // ---------- The merge ends ----------

  /** How many steps a generator still takes: three for each value, one to be asked for the first, and
      two to end. */
  function Weight<T>(g: Generator<T>, p: Phase, produced: nat): int {
    var left := 3 * (|g.values| - produced);
    match p
    case Fresh => left + 3
    case Charged => left + 2
    case Ready => left + 1
    case Yielded => left + 3
    case Over => 0
  }

  function Weights<T>(gens: seq<Generator<T>>, phases: seq<Phase>, produced: seq<nat>): int
    requires |phases| == |produced| == |gens|
  {
    if gens == [] then 0
    else
      var n := |gens| - 1;
      Weights(gens[..n], phases[..n], produced[..n]) + Weight(gens[n], phases[n], produced[n])
  }

  lemma {:induction false} WeightsUpdate<T>(gens: seq<Generator<T>>, phases: seq<Phase>, produced: seq<nat>,
                                            i: nat, p: Phase, k: nat)
    requires |phases| == |produced| == |gens| && i < |gens|
    ensures Weights(gens, phases[i := p], produced[i := k]) - Weights(gens, phases, produced)
         == Weight(gens[i], p, k) - Weight(gens[i], phases[i], produced[i])
  {
    var n := |gens| - 1;
    var phases', produced' := phases[i := p], produced[i := k];
    if i == n {
      assert phases'[..n] == phases[..n] && produced'[..n] == produced[..n];
    } else {
      WeightsUpdate(gens[..n], phases[..n], produced[..n], i, p, k);
      assert phases'[..n] == phases[..n][i := p] && produced'[..n] == produced[..n][i := k];
    }
  }

  lemma {:induction false} WeightsPositive<T>(gens: seq<Generator<T>>, phases: seq<Phase>, produced: seq<nat>)
    requires |phases| == |produced| == |gens|
    requires forall i :: 0 <= i < |gens| ==> produced[i] <= |gens[i].values|
    ensures Weights(gens, phases, produced) >= 0
  {
    if gens != [] {
      var n := |gens| - 1;
      WeightsPositive(gens[..n], phases[..n], produced[..n]);
    }
  }

  /** The steps that are left at most. */
  function StepsLeft<T>(gens: seq<Generator<T>>, s: State<T>): int
    requires |s.phases| == |s.produced| == |gens|
  {
    Weights(gens, s.phases, s.produced) + if s.failed then 0 else 1
  }

  /** A step moves generator i on, and no other. */
  ghost predicate Moves<T>(gens: seq<Generator<T>>, s: State<T>, t: State<T>, i: nat) {
    && i < |gens| == |s.phases| == |t.phases| == |s.produced| == |t.produced| && t.failed == s.failed
    && t.phases == s.phases[i := t.phases[i]] && t.produced == s.produced[i := t.produced[i]]
    && Weight(gens[i], t.phases[i], t.produced[i]) < Weight(gens[i], s.phases[i], s.produced[i])
  }

  lemma AskedMoves<T>(gens: seq<Generator<T>>, s: State<T>, e: Event) returns (i: nat)
    requires Charging(gens, s) && Enabled(gens, s, e) && (e.Charge? ==> !gens[s.charged].ended)
    requires e.Charge? || e.Complete? || e.Recharge?
    ensures Moves(gens, s, Step(gens, s, e), i)
  {
    i := match e case Charge => s.charged case Complete(j) => j case Recharge(j) => j;
    assert e.Charge? ==> s.phases[i].Fresh?;
    hide Charging;
  }

  lemma AnsweredMoves<T>(gens: seq<Generator<T>>, s: State<T>, e: Event)
    requires Enabled(gens, s, e) && (e.Take? || e.Collect?)
    requires s.phases[s.queue[0]].Ready? && s.produced[s.queue[0]] <= |gens[s.queue[0]].values|
    ensures Moves(gens, s, Step(gens, s, e), s.queue[0])
  {
  }

  /** A step other than a failing charge moves one generator on. */
  lemma MovesOn<T>(gens: seq<Generator<T>>, s: State<T>, e: Event) returns (i: nat)
    requires Good(gens, s) && Enabled(gens, s, e) && (e.Charge? ==> !gens[s.charged].ended)
    ensures Moves(gens, s, Step(gens, s, e), i)
  {
    if e.Take? || e.Collect? {
      FirstIsReady(gens, s);
      hide Moves, Step;
      AnsweredMoves(gens, s, e);
      i := s.queue[0];
    } else {
      hide Moves, Step;
      i := AskedMoves(gens, s, e);
    }
  }

  /** Every step, whichever it is, leaves less to do. */
  lemma StepProgresses<T>(gens: seq<Generator<T>>, s: State<T>, e: Event)
    requires Good(gens, s) && Enabled(gens, s, e)
    ensures var t := Step(gens, s, e);
      |t.phases| == |t.produced| == |gens| && StepsLeft(gens, t) < StepsLeft(gens, s)
  {
    if !(e.Charge? && gens[s.charged].ended) {
      var t := Step(gens, s, e);
      var i := MovesOn(gens, s, e);
      hide Good, Enabled, Step;
      WeightsUpdate(gens, s.phases, s.produced, i, t.phases[i], t.produced[i]);
    }
  }

  /** The run goes on until the loop is left: whoever was asked answers, whoever was taken is asked
      again, and the aggregator takes whoever has called back. */
  lemma SomethingToDo<T>(gens: seq<Generator<T>>, s: State<T>)
    requires Good(gens, s) && forall i :: 0 <= i < |gens| ==> !gens[i].ended
    ensures Finished(gens, s) <==> forall e :: !Enabled(gens, s, e)
  {
    if Finished(gens, s) {
      NoneLeft(s.phases);
    } else if s.charged < |gens| {
      assert Enabled(gens, s, Charge);
    } else {
      var i := SomeActive(s.phases);
      assert Lossless(gens[i], s, i);
      if j :| 0 <= j < |gens| && s.phases[j].Yielded? {
        assert Enabled(gens, s, Recharge(j));
      } else if s.queue != [] {
        assert Enabled(gens, s, Take);
      } else {
        assert Enabled(gens, s, Complete(i));
      }
    }
  }

  lemma {:induction false} SomeActive(phases: seq<Phase>) returns (i: nat)
    requires NotOver(phases) > 0
    ensures i < |phases| && !phases[i].Over?
  {
    if !phases[0].Over? {
      i := 0;
    } else {
      var j := SomeActive(phases[1..]);
      i := j + 1;
    }
  }

  lemma {:induction false} RunProgresses<T>(gens: seq<Generator<T>>, s: State<T>, trace: seq<Event>)
    requires Good(gens, s) && IsRun(gens, s, trace)
    ensures var t := After(gens, s, trace);
      |t.phases| == |t.produced| == |gens| && |trace| + StepsLeft(gens, t) <= StepsLeft(gens, s)
    decreases |trace|
  {
    if trace != [] {
      StepProgresses(gens, s, trace[0]);
      StepKeepsGood(gens, s, trace[0]);
      hide Good, Step, StepsLeft;
      RunProgresses(gens, Step(gens, s, trace[0]), trace[1..]);
    }
  }

  /** The merge ends: when no generator had ended before, every run has a bounded number of steps, and
      a run that cannot go on has left the loop, with every value of every generator passed on. */
  lemma {:induction false} MergeEnds<T>(gens: seq<Generator<T>>, trace: seq<Event>)
    requires IsRun(gens, Init(gens), trace)
    requires forall j :: 0 <= j < |gens| ==> !gens[j].ended
    ensures |trace| <= StepsLeft(gens, Init(gens))
    ensures var t := After(gens, Init(gens), trace);
      && (Finished(gens, t) <==> forall e :: !Enabled(gens, t, e))
      && ((forall e :: !Enabled(gens, t, e)) ==>
            forall i :: 0 <= i < |gens| ==> From(t.output, i) == gens[i].values)
  {
    var s, t := Init(gens), After(gens, Init(gens), trace);
    InitGood(gens);
    RunKeepsGood(gens, s, trace);
    RunProgresses(gens, s, trace);
    SomethingToDo(gens, t);
    AllAccountedFor(gens, t);
    WeightsPositive(gens, t.phases, t.produced);
    hide *;
    forall i | Finished(gens, t) && 0 <= i < |gens|
      ensures From(t.output, i) == gens[i].values
    {
      LosslessMerge(gens, trace, i);
    }
  }

  lemma AllAccountedFor<T>(gens: seq<Generator<T>>, s: State<T>)
    requires Good(gens, s)
    ensures |s.produced| == |gens| && forall i :: 0 <= i < |gens| ==> s.produced[i] <= |gens[i].values|
  {
    forall i | 0 <= i < |gens|
      ensures |s.produced| == |gens| && s.produced[i] <= |gens[i].values|
    {
      assert Lossless(gens[i], s, i);
    }
  }

  // ---------- A generator that had ended before ----------

  lemma {:induction false} FreshAreActive(phases: seq<Phase>, k: nat)
    requires k <= |phases| && forall i :: k <= i < |phases| ==> phases[i].Fresh?
    ensures NotOver(phases) >= |phases| - k
  {
    if phases != [] {
      FreshAreActive(phases[1..], if k == 0 then 0 else k - 1);
    }
  }

  /** If some generator had ended before it was passed in, the aggregator yields nothing from anybody;
      it fails at the first such generator, and then the destructor of the controller waits for more
      callbacks than there will ever be, unless that generator is the last one. If none had, charging
      does not fail. */
  lemma EndedGeneratorFails<T>(gens: seq<Generator<T>>, trace: seq<Event>)
    requires IsRun(gens, Init(gens), trace)
    ensures var t := After(gens, Init(gens), trace);
      && (t.failed ==> t.charged < |gens| && gens[t.charged].ended)
      && (forall i :: 0 <= i < t.charged && i < |gens| ==> !gens[i].ended)
      && ((exists i :: 0 <= i < |gens| && gens[i].ended) ==> t.output == [] && !Finished(gens, t))
      && (t.failed && t.charged + 1 < |gens| ==> t.active > 1)
  {
    InitGood(gens);
    RunKeepsGood(gens, Init(gens), trace);
    var t := After(gens, Init(gens), trace);
    FreshAreActive(t.phases, t.charged);
  }

  /** Somebody besides the last generator is not over. */
  lemma {:induction false} AnotherIsActive(phases: seq<Phase>) returns (i: nat)
    requires NotOver(phases) > 1
    ensures i + 1 < |phases| && !phases[i].Over?
  {
    if phases[0].Over? || NotOver(phases[1..]) > 1 {
      var j := AnotherIsActive(phases[1..]);
      i := j + 1;
    } else {
      i := 0;
      assert |phases| > 1;
    }
  }

  /** While the destructor waits for more than the generator that had ended, one of the others is about
      to complete, or has called back. */
  lemma NextCallback<T>(gens: seq<Generator<T>>, s: State<T>) returns (e: Event)
    requires Good(gens, s) && s.failed && s.charged + 1 == |gens| && s.active > 1
    ensures Enabled(gens, s, e)
    ensures if s.queue != [] then e.Collect? else e.Complete?
  {
    if s.queue != [] {
      e := Collect;
    } else {
      var i := AnotherIsActive(s.phases);
      assert Lossless(gens[i], s, i);
      e := Complete(i);
    }
  }

  /** If the generator that had ended is the last one, the destructor ends as soon as all the others have
      completed and been collected, and nothing else can delay it. */
  lemma {:induction false} LastOneCanEnd<T>(gens: seq<Generator<T>>, s: State<T>) returns (trace: seq<Event>)
    requires Good(gens, s) && s.failed && s.charged + 1 == |gens|
    ensures IsRun(gens, s, trace) && After(gens, s, trace).active <= 1
    ensures forall e :: e in trace ==> e.Complete? || e.Collect?
    decreases s.active, |gens| - |s.queue|
  {
    trace := [];
    if s.active > 1 {
      var e := NextCallback(gens, s);
      StepKeepsGood(gens, s, e);
      assert Step(gens, s, e).failed && Step(gens, s, e).charged == s.charged;
      var rest := LastOneCanEnd(gens, Step(gens, s, e));
      trace := [e] + rest;
      assert trace[1..] == rest;
    }
  }

  // ---------- Synchronous generators ----------

  /** A generator in the queue with what it has still to yield. */
  datatype Entry<+T> = Entry(id: nat, rest: seq<T>)

  function Size<T>(q: seq<Entry<T>>): nat {
    if q == [] then 0 else 1 + |q[0].rest| + Size(q[1..])
  }

  lemma {:induction false} SizeConcat<T>(a: seq<Entry<T>>, b: seq<Entry<T>>)
    ensures Size(a + b) == Size(a) + Size(b)
  {
    if a == [] {
      assert a + b == b;
    } else {
      SizeConcat(a[1..], b);
      assert (a + b)[1..] == a[1..] + b;
    }
  }

  lemma RequeueShrinks<T>(q: seq<Entry<T>>)
    requires q != [] && q[0].rest != []
    ensures Size(q[1..] + [Entry(q[0].id, q[0].rest[1..])]) < Size(q)
  {
    var e := Entry(q[0].id, q[0].rest[1..]);
    SizeConcat(q[1..], [e]);
    assert Size([e]) == 1 + |e.rest| + Size<T>([]);
  }

  /** A synchronous generator completes while it is charged, so its callback goes straight to the end
      of the queue. */
  function Sync<T>(q: seq<Entry<T>>): seq<Output<T>>
    decreases Size(q)
  {
    if q == [] then []
    else if q[0].rest == [] then Sync(q[1..])
    else
      RequeueShrinks(q);
      [Output(q[0].id, q[0].rest[0])] + Sync(q[1..] + [Entry(q[0].id, q[0].rest[1..])])
  }

  /** One round: the next value of everybody who has one, in order, and what remains. */
  function Heads<T>(q: seq<Entry<T>>): seq<Output<T>> {
    if q == [] then []
    else (if q[0].rest == [] then [] else [Output(q[0].id, q[0].rest[0])]) + Heads(q[1..])
  }

  function Tails<T>(q: seq<Entry<T>>): (r: seq<Entry<T>>)
    ensures Size(r) <= Size(q) && (q != [] ==> Size(r) < Size(q))
  {
    if q == [] then []
    else if q[0].rest == [] then Tails(q[1..])
    else [Entry(q[0].id, q[0].rest[1..])] + Tails(q[1..])
  }

  /** The round-robin interleaving: round after round until nobody is left. */
  function Rounds<T>(q: seq<Entry<T>>): seq<Output<T>>
    decreases Size(q)
  {
    if q == [] then [] else Heads(q) + Rounds(Tails(q))
  }

  /** What one generator contributes to a round, and what it goes into the next round with. */
  function Head<T>(e: Entry<T>): seq<Output<T>> {
    if e.rest == [] then [] else [Output(e.id, e.rest[0])]
  }

  function Tail<T>(e: Entry<T>): seq<Entry<T>> {
    if e.rest == [] then [] else [Entry(e.id, e.rest[1..])]
  }

  lemma SyncFirst<T>(e: Entry<T>, q: seq<Entry<T>>)
    ensures Sync([e] + q) == Head(e) + Sync(q + Tail(e))
  {
    assert ([e] + q)[1..] == q && q + [] == q;
  }

  lemma RoundFirst<T>(e: Entry<T>, q: seq<Entry<T>>)
    ensures Heads([e] + q) == Head(e) + Heads(q) && Tails([e] + q) == Tail(e) + Tails(q)
  {
    assert ([e] + q)[1..] == q;
  }

  lemma {:induction false} SyncRound<T>(a: seq<Entry<T>>, b: seq<Entry<T>>)
    ensures Sync(a + b) == Heads(a) + Sync(b + Tails(a))
    decreases a
  {
    if a == [] {
      assert a + b == b && b + Tails(a) == b;
    } else {
      var e, a' := a[0], a[1..];
      hide Sync, Heads, Tails, Head, Tail;
      calc {
        Sync(a + b);
        { assert a + b == [e] + (a' + b); SyncFirst(e, a' + b); }
        Head(e) + Sync(a' + b + Tail(e));
        { assert a' + b + Tail(e) == a' + (b + Tail(e)); SyncRound(a', b + Tail(e)); }
        Head(e) + (Heads(a') + Sync(b + Tail(e) + Tails(a')));
        { assert b + Tail(e) + Tails(a') == b + (Tail(e) + Tails(a')); }
        (Head(e) + Heads(a')) + Sync(b + (Tail(e) + Tails(a')));
        { assert a == [e] + a'; RoundFirst(e, a'); }
        Heads(a) + Sync(b + Tails(a));
      }
    }
  }

  /** For synchronous generators the output is exactly the round-robin interleaving. */
  lemma {:induction false} SyncIsRoundRobin<T>(q: seq<Entry<T>>)
    ensures Sync(q) == Rounds(q)
    decreases Size(q)
  {
    if q != [] {
      SyncRound(q, []);
      assert q + [] == q && [] + Tails(q) == Tails(q);
      SyncIsRoundRobin(Tails(q));
    }
  }

  function EntryOf<T>(gens: seq<Generator<T>>, produced: seq<nat>, i: nat): Entry<T> {
    Entry(i, if i < |gens| && i < |produced| && produced[i] <= |gens[i].values|
             then gens[i].values[produced[i]..] else [])
  }

  /** The queued generators with what they have still to yield. */
  function Entries<T>(gens: seq<Generator<T>>, produced: seq<nat>, queue: seq<nat>): seq<Entry<T>> {
    seq(|queue|, k requires 0 <= k < |queue| => EntryOf(gens, produced, queue[k]))
  }

  lemma EntriesYield<T>(gens: seq<Generator<T>>, produced: seq<nat>, queue: seq<nat>)
    requires queue != [] && queue[0] !in queue[1..]
    requires var i := queue[0]; i < |gens| && i < |produced| && produced[i] < |gens[i].values|
    ensures var i, q := queue[0], Entries(gens, produced, queue);
      && Entries(gens, produced[i := produced[i] + 1], queue[1..] + [i]) == q[1..] + Tail(q[0])
      && Head(q[0]) == [Output(i, gens[i].values[produced[i]])]
  {
    var i, q := queue[0], Entries(gens, produced, queue);
    var q' := Entries(gens, produced[i := produced[i] + 1], queue[1..] + [i]);
    forall k | 0 < k < |queue|
      ensures q'[k - 1] == q[k]
    {
      assert queue[1..][k - 1] == queue[k];
    }
    assert q'[|queue| - 1] == Entry(i, q[0].rest[1..]);
  }

  lemma EntriesEnd<T>(gens: seq<Generator<T>>, produced: seq<nat>, queue: seq<nat>)
    requires queue != []
    requires var i := queue[0]; i < |gens| && i < |produced| && produced[i] == |gens[i].values|
    ensures var q := Entries(gens, produced, queue);
      Entries(gens, produced, queue[1..]) == q[1..] && Head(q[0]) == [] && Tail(q[0]) == []
  {
  }

  /** Sync, turn by turn. */
  lemma SyncTurn<T>(q: seq<Entry<T>>)
    requires q != []
    ensures Sync(q) == Head(q[0]) + Sync(q[1..] + Tail(q[0]))
    ensures Size(q[1..] + Tail(q[0])) < Size(q)
  {
    assert q == [q[0]] + q[1..];
    SyncFirst(q[0], q[1..]);
    if q[0].rest == [] {
      assert q[1..] + [] == q[1..];
    } else {
      RequeueShrinks(q);
    }
  }

  /** What becomes of the coroutine: it merges, ends with the exception of the generator that had
      ended, or waits forever in the destructor of the controller. */
  datatype Outcome<+T> = Merged(output: seq<Output<T>>, exp: Option<Error>) | NoMoreValues | Blocked

  /** The first loop: the generators are charged in order, up to one that had ended. */
  method ChargeAll<T>(gens: seq<Generator<T>>) returns (queue: seq<nat>, failed: bool)
    ensures |queue| <= |gens| && queue == seq(|queue|, i => i) && Distinct(queue)
    ensures forall i :: i in queue <==> 0 <= i < |queue|
    ensures forall i :: 0 <= i < |queue| ==> !gens[i].ended
    ensures if failed then |queue| < |gens| && gens[|queue|].ended else |queue| == |gens|
  {
    queue, failed := [], false;
    while |queue| < |gens| && !failed
      invariant |queue| <= |gens| && queue == seq(|queue|, k => k)
      invariant forall i :: 0 <= i < |queue| ==> !gens[i].ended
      invariant failed ==> |queue| < |gens| && gens[|queue|].ended
      decreases |gens| - |queue|, if failed then 0 else 1
    {
      if gens[|queue|].ended {
        failed := true;
      } else {
        queue := queue + [|queue|];
      }
    }
    forall i | 0 <= i < |queue|
      ensures i in queue
    {
      assert queue[i] == i;
    }
  }

  /** The destructor of the controller: one generator less than the count is waited for. */
  method WaitForAll(count: nat, callbacks: nat) returns (r: bool)
    ensures r <==> count <= callbacks + 1
  {
    var left: nat, rest: nat := count, callbacks;
    while left > 1
      invariant count + rest == callbacks + left
    {
      if rest == 0 {
        return false;
      }
      left, rest := left - 1, rest - 1;
    }
    r := true;
  }

  /** The whole coroutine over synchronous generators, whose consumer always asks for more: charging
      puts a generator's callback at the end of the queue at once. It merges if and only if no generator
      had ended before; otherwise all is lost, and unless that one is the last it never returns. */
  method AggregateSync<T>(gens: seq<Generator<T>>) returns (r: Outcome<T>)
    ensures r.Merged? <==> forall i :: 0 <= i < |gens| ==> !gens[i].ended
    ensures r.Blocked? <==> exists i :: 0 <= i < |gens| - 1 && gens[i].ended
    ensures r.Merged? ==>
      && r.output == Rounds(Entries(gens, seq(|gens|, _ => 0), seq(|gens|, i => i)))
      && (r.exp.Some? <==> exists i :: 0 <= i < |gens| && gens[i].throws.Some?)
      && (r.exp.Some? ==> exists i: nat :: EndsLast(gens, i) && r.exp == gens[i].throws)
  {
    hide *;
    var queue: seq<nat>, failed := ChargeAll(gens);
    if failed {
      var all := WaitForAll(|gens|, |queue|);
      return if all then NoMoreValues else Blocked;
    }
    var output, exp := MergeSync(gens, queue);
    r := Merged(output, exp);
  }

  /** The main loop. */
  method MergeSync<T>(gens: seq<Generator<T>>, charged: seq<nat>)
    returns (output: seq<Output<T>>, exp: Option<Error>)
    requires charged == seq(|gens|, i => i) && Distinct(charged)
    requires forall i :: i in charged <==> 0 <= i < |gens|
    ensures output == Rounds(Entries(gens, seq(|gens|, _ => 0), charged))
    ensures exp.Some? <==> exists i :: 0 <= i < |gens| && gens[i].throws.Some?
    ensures exp.Some? ==> exists i: nat :: EndsLast(gens, i) && exp == gens[i].throws
  {
    hide *;
    var produced: seq<nat> := seq(|gens|, _ => 0);
    var queue := charged;
    ghost var all := Sync(Entries(gens, produced, queue));
    SyncIsRoundRobin(Entries(gens, produced, queue));
    var count := |gens|;
    output, exp := [], None;
    MergingStarts(gens, produced, queue);
    while count > 0
      invariant count == |queue|
      invariant Merging(gens, produced, queue, output, exp, all)
      decreases Size(Entries(gens, produced, queue))
    {
      QueuedFirst(gens, produced, queue, output, exp, all);
      var i := queue[0];
      if produced[i] < |gens[i].values| {
        YieldTurn(gens, produced, queue, output, exp, all);
        output := output + [Output(i, gens[i].values[produced[i]])];
        produced := produced[i := produced[i] + 1];
        queue := queue[1..] + [i];
      } else {
        EndTurn(gens, produced, queue, output, exp, all);
        queue := queue[1..];
        count := count - 1;
        if gens[i].throws.Some? {
          exp := gens[i].throws;
        }
      }
    }
    NothingLeft(gens, produced, output, exp, all);
  }

  /** What the loop keeps: output and what the queued generators have still to give make up all. */
  ghost predicate Merging<T>(gens: seq<Generator<T>>, produced: seq<nat>, queue: seq<nat>,
                             output: seq<Output<T>>, exp: Option<Error>, all: seq<Output<T>>) {
    && |produced| == |gens| && Distinct(queue)
    && (forall k :: 0 <= k < |queue| ==> queue[k] < |gens|)
    && (forall i :: 0 <= i < |gens| ==> produced[i] <= |gens[i].values|)
    && output + Sync(Entries(gens, produced, queue)) == all
    && InOrder(gens, produced, queue) && Caught(gens, produced, queue, exp)
  }

  lemma MergingStarts<T>(gens: seq<Generator<T>>, produced: seq<nat>, queue: seq<nat>)
    requires |produced| == |gens| && forall i :: 0 <= i < |gens| ==> produced[i] == 0
    requires queue == seq(|gens|, i => i) && Distinct(queue) && forall i :: i in queue <==> 0 <= i < |gens|
    ensures Merging(gens, produced, queue, [], None, Sync(Entries(gens, produced, queue)))
  {
    var all := Sync(Entries(gens, produced, queue));
    assert [] + all == all;
    assert forall k :: 0 <= k < |queue| ==> queue[k] == k;
    InOrderStarts(gens, produced, queue);
    hide InOrder, Sync, Entries, Distinct;
  }

  lemma InOrderStarts<T>(gens: seq<Generator<T>>, produced: seq<nat>, queue: seq<nat>)
    requires |produced| == |gens| && forall i :: 0 <= i < |gens| ==> produced[i] == 0
    requires |queue| == |gens| && forall k :: 0 <= k < |queue| ==> queue[k] == k
    ensures InOrder(gens, produced, queue)
  {
    forall j | 0 <= j < |gens|
      ensures j in queue
    {
      assert queue[j] == j;
    }
  }

  lemma QueuedFirst<T>(gens: seq<Generator<T>>, produced: seq<nat>, queue: seq<nat>,
                       output: seq<Output<T>>, exp: Option<Error>, all: seq<Output<T>>)
    requires Merging(gens, produced, queue, output, exp, all) && queue != []
    ensures queue[0] < |gens| && |produced| == |gens|
  {
  }

  lemma YieldTurn<T>(gens: seq<Generator<T>>, produced: seq<nat>, queue: seq<nat>,
                     output: seq<Output<T>>, exp: Option<Error>, all: seq<Output<T>>)
    requires Merging(gens, produced, queue, output, exp, all) && queue != []
    requires produced[queue[0]] < |gens[queue[0]].values|
    ensures var i := queue[0];
      var produced', queue' := produced[i := produced[i] + 1], queue[1..] + [i];
      && Merging(gens, produced', queue', output + [Output(i, gens[i].values[produced[i]])], exp, all)
      && Size(Entries(gens, produced', queue')) < Size(Entries(gens, produced, queue))
  {
    var i := queue[0];
    RotateQueue(queue);
    SyncTurn(Entries(gens, produced, queue));
    EntriesYield(gens, produced, queue);
    InOrderYield(gens, produced, queue);
    CaughtYield(gens, produced, queue, exp);
    var rest := Sync(Entries(gens, produced[i := produced[i] + 1], queue[1..] + [i]));
    var o := Output(i, gens[i].values[produced[i]]);
    assert (output + [o]) + rest == output + ([o] + rest);
    hide InOrder, Caught, Entries, Sync, Size, Head, Tail, Distinct;
  }

  lemma EndTurn<T>(gens: seq<Generator<T>>, produced: seq<nat>, queue: seq<nat>,
                   output: seq<Output<T>>, exp: Option<Error>, all: seq<Output<T>>)
    requires Merging(gens, produced, queue, output, exp, all) && queue != []
    requires produced[queue[0]] >= |gens[queue[0]].values|
    ensures var g := gens[queue[0]];
      && Merging(gens, produced, queue[1..], output, if g.throws.Some? then g.throws else exp, all)
      && Size(Entries(gens, produced, queue[1..])) < Size(Entries(gens, produced, queue))
  {
    var q := Entries(gens, produced, queue);
    RotateQueue(queue);
    SyncTurn(q);
    EntriesEnd(gens, produced, queue);
    assert q[1..] + [] == q[1..];
    assert [] + Sync(q[1..]) == Sync(q[1..]);
    InOrderEnd(gens, produced, queue);
    CaughtEnd(gens, produced, queue, exp);
  }

  lemma NothingLeft<T>(gens: seq<Generator<T>>, produced: seq<nat>,
                       output: seq<Output<T>>, exp: Option<Error>, all: seq<Output<T>>)
    requires Merging(gens, produced, [], output, exp, all)
    ensures output == all
    ensures exp.Some? <==> exists i :: 0 <= i < |gens| && gens[i].throws.Some?
    ensures exp.Some? ==> exists i: nat :: EndsLast(gens, i) && exp == gens[i].throws
  {
    assert output + [] == output;
    if exp.Some? {
      var i: nat :| Latest(gens, produced, [], i) && exp == gens[i].throws;
      forall j | 0 <= j < |gens| && gens[j].throws.Some?
        ensures produced[j] < produced[i] || (produced[j] == produced[i] && j <= i)
      {
        assert j !in [];
      }
      assert EndsLast(gens, i);
    }
  }

  /** Taking the first of a queue without repetitions, and perhaps putting it last. */
  lemma RotateQueue(queue: seq<nat>)
    requires Distinct(queue) && queue != []
    ensures Distinct(queue[1..]) && Distinct(queue[1..] + [queue[0]]) && queue[0] !in queue[1..]
    ensures forall i :: i in queue[1..] + [queue[0]] <==> i in queue
    ensures forall i :: i in queue[1..] <==> i in queue && i != queue[0]
  {
    DistinctAt(queue, 0);
    assert queue == [queue[0]] + queue[1..];
  }

  // ---------- Which exception is the last ----------

  /** Of the throwing generators, the one with the most values, and among equals the last in order. */
  ghost predicate EndsLast<T>(gens: seq<Generator<T>>, i: nat) {
    && i < |gens| && gens[i].throws.Some?
    && forall j :: 0 <= j < |gens| && gens[j].throws.Some? ==>
         |gens[j].values| < |gens[i].values| || (|gens[j].values| == |gens[i].values| && j <= i)
  }

  /** Generator i, with p values yielded, has its turn before generator j with q. */
  predicate Before(p: nat, i: nat, q: nat, j: nat) {
    p < q || (p == q && i < j)
  }

  /** The queue is in order of turns and spans less than one round; who has ended comes before it. */
  ghost predicate InOrder<T>(gens: seq<Generator<T>>, produced: seq<nat>, queue: seq<nat>)
    requires |produced| == |gens| && forall k :: 0 <= k < |queue| ==> queue[k] < |gens|
  {
    && (forall k, l :: 0 <= k < l < |queue| ==>
          Before(produced[queue[k]], queue[k], produced[queue[l]], queue[l]))
    && (forall k :: 0 <= k < |queue| ==>
          Before(produced[queue[k]], queue[k], produced[queue[0]] + 1, queue[0]))
    && (forall j, k :: 0 <= j < |gens| && j !in queue && 0 <= k < |queue| ==>
          Before(produced[j], j, produced[queue[k]], queue[k]))
    && (forall j :: 0 <= j < |gens| && j !in queue ==> produced[j] == |gens[j].values|)
  }

  lemma InOrderYield<T>(gens: seq<Generator<T>>, produced: seq<nat>, queue: seq<nat>)
    requires |produced| == |gens| && queue != [] && Distinct(queue)
    requires forall k :: 0 <= k < |queue| ==> queue[k] < |gens|
    requires InOrder(gens, produced, queue)
    ensures InOrder(gens, produced[queue[0] := produced[queue[0]] + 1], queue[1..] + [queue[0]])
  {
    RotateQueue(queue);
    var i := queue[0];
    var produced', queue' := produced[i := produced[i] + 1], queue[1..] + [i];
    var last := |queue| - 1;
    forall k | 0 <= k < last
      ensures queue'[k] == queue[k + 1] && queue'[k] != i && produced'[queue'[k]] == produced[queue[k + 1]]
    {
    }
    assert queue'[last] == i && produced'[i] == produced[i] + 1;
    forall j | 0 <= j < |gens| && j !in queue
      ensures produced'[j] == produced[j] && j !in queue'
    {
    }
    hide Distinct;
    forall k, l | 0 <= k < l <= last
      ensures Before(produced'[queue'[k]], queue'[k], produced'[queue'[l]], queue'[l])
    {
      assert queue'[k] == queue[k + 1];
    }
    forall k | 0 <= k <= last
      ensures Before(produced'[queue'[k]], queue'[k], produced'[queue'[0]] + 1, queue'[0])
    {
      if k < last {
        assert queue'[k] == queue[k + 1];
      }
    }
  }

  lemma InOrderEnd<T>(gens: seq<Generator<T>>, produced: seq<nat>, queue: seq<nat>)
    requires |produced| == |gens| && queue != [] && Distinct(queue)
    requires forall k :: 0 <= k < |queue| ==> queue[k] < |gens|
    requires InOrder(gens, produced, queue) && produced[queue[0]] == |gens[queue[0]].values|
    ensures InOrder(gens, produced, queue[1..])
  {
    RotateQueue(queue);
    assert forall k :: 0 <= k < |queue| - 1 ==> queue[1..][k] == queue[k + 1];
    hide Distinct;
  }

  /** Of the throwing generators that have left the queue, the one that left last. */
  ghost predicate Latest<T>(gens: seq<Generator<T>>, produced: seq<nat>, queue: seq<nat>, i: nat) {
    && |produced| == |gens| && i < |gens| && i !in queue && gens[i].throws.Some?
    && forall j :: 0 <= j < |gens| && j !in queue && gens[j].throws.Some? ==>
         j == i || Before(produced[j], j, produced[i], i)
  }

  /** The exception kept is the one of the throwing generator that left the queue last. */
  ghost predicate Caught<T>(gens: seq<Generator<T>>, produced: seq<nat>, queue: seq<nat>, exp: Option<Error>) {
    && (exp.Some? <==> exists i :: 0 <= i < |gens| && i !in queue && gens[i].throws.Some?)
    && (exp.Some? ==> exists i: nat :: Latest(gens, produced, queue, i) && exp == gens[i].throws)
  }

  lemma CaughtYield<T>(gens: seq<Generator<T>>, produced: seq<nat>, queue: seq<nat>, exp: Option<Error>)
    requires |produced| == |gens| && queue != [] && Distinct(queue) && queue[0] < |gens|
    requires Caught(gens, produced, queue, exp)
    ensures Caught(gens, produced[queue[0] := produced[queue[0]] + 1], queue[1..] + [queue[0]], exp)
  {
    RotateQueue(queue);
    if exp.Some? {
      var i: nat :| Latest(gens, produced, queue, i) && exp == gens[i].throws;
      assert Latest(gens, produced[queue[0] := produced[queue[0]] + 1], queue[1..] + [queue[0]], i);
    }
  }

  lemma CaughtEnd<T>(gens: seq<Generator<T>>, produced: seq<nat>, queue: seq<nat>, exp: Option<Error>)
    requires |produced| == |gens| && queue != [] && Distinct(queue)
    requires forall k :: 0 <= k < |queue| ==> queue[k] < |gens|
    requires InOrder(gens, produced, queue) && Caught(gens, produced, queue, exp)
    ensures var g := gens[queue[0]];
      Caught(gens, produced, queue[1..], if g.throws.Some? then g.throws else exp)
  {
    RotateQueue(queue);
    if gens[queue[0]].throws.Some? {
      assert Latest(gens, produced, queue[1..], queue[0]);
    } else if exp.Some? {
      var i: nat :| Latest(gens, produced, queue, i) && exp == gens[i].throws;
      assert Latest(gens, produced, queue[1..], i);
    }
  }
}
