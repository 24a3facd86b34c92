/** Coroutines that only pause, detach others and finish take turns in FIFO order. */
module RoundRobin {
  type Id = nat

  /** What a coroutine still does. */
  datatype Script =
    | Done
    | Pausing(rest: Script)
    | Detaching(id: Id, child: Script, rest: Script)

  datatype Task = Task(id: Id, script: Script)

  /** What one resumption does: the coroutines it detaches, and what is left when it pauses. */
  function Detached(s: Script): seq<Task> {
    match s
    case Done => []
    case Pausing(_) => []
    case Detaching(id, child, rest) => [Task(id, child)] + Detached(rest)
  }

  function Left(t: Task): seq<Task>
    decreases t.script
  {
    match t.script
    case Done => []
    case Pausing(rest) => [Task(t.id, rest)]
    case Detaching(_, _, rest) => Left(Task(t.id, rest))
  }

  /** The queue after its first coroutine has been resumed and has paused or finished. */
  function Turn(queue: seq<Task>): seq<Task>
    requires queue != []
  {
    queue[1..] + Detached(queue[0].script) + Left(queue[0])
  }

  /** How often a script, and everything it detaches, is resumed. */
  function Resumes(s: Script): nat {
    match s
    case Done => 1
    case Pausing(rest) => 1 + Resumes(rest)
    case Detaching(_, child, rest) => Resumes(child) + Resumes(rest)
  }

  function Work(queue: seq<Task>): nat {
    if queue == [] then 0 else Resumes(queue[0].script) + Work(queue[1..])
  }

  lemma {:induction false} WorkConcat(a: seq<Task>, b: seq<Task>)
    ensures Work(a + b) == Work(a) + Work(b)
  {
    if a == [] {
      assert a + b == b;
    } else {
      WorkConcat(a[1..], b);
      assert (a + b)[1..] == a[1..] + b;
    }
  }

  lemma {:induction false} BurstWork(t: Task)
    ensures Work(Detached(t.script)) + Work(Left(t)) + 1 == Resumes(t.script)
    decreases t.script
  {
    match t.script
    case Done =>
    case Pausing(rest) => assert Work([Task(t.id, rest)]) == Resumes(rest) + Work([]);
    case Detaching(id, child, rest) =>
      BurstWork(Task(t.id, rest));
      WorkConcat([Task(id, child)], Detached(rest));
      assert Work([Task(id, child)]) == Resumes(child) + Work([]);
  }

  /** Each turn does exactly one unit of the remaining work, so flushing terminates. */
  lemma TurnWork(queue: seq<Task>)
    requires queue != []
    ensures Work(Turn(queue)) + 1 == Work(queue)
  {
    BurstWork(queue[0]);
    WorkConcat(queue[1..], Detached(queue[0].script));
    WorkConcat(queue[1..] + Detached(queue[0].script), Left(queue[0]));
  }

  /** The order in which flushing the queue resumes coroutines. */
  function Trace(queue: seq<Task>): seq<Id>
    decreases Work(queue)
  {
    if queue == [] then []
    else
      TurnWork(queue);
      [queue[0].id] + Trace(Turn(queue))
  }

  function Ids(queue: seq<Task>): seq<Id> {
    seq(|queue|, i requires 0 <= i < |queue| => queue[i].id)
  }

  /** Round robin: whoever is queued now is resumed in queue order before anybody else, so a coroutine
      behind k others is resumed after exactly those k. */
  lemma {:induction false} FirstInFirstOut(queue: seq<Task>, k: nat)
    requires k <= |queue|
    ensures k <= |Trace(queue)| && Trace(queue)[..k] == Ids(queue)[..k]
    decreases k
  {
    if k > 0 {
      var next := Turn(queue);
      assert Trace(queue) == [queue[0].id] + Trace(next);
      TurnKeepsOrder(queue, k - 1);
      hide Turn, Ids;
      FirstInFirstOut(next, k - 1);
      assert Trace(queue)[..k] == [queue[0].id] + Trace(next)[..k - 1];
    }
  }

  lemma TurnKeepsOrder(queue: seq<Task>, k: nat)
    requires queue != [] && k < |queue|
    ensures k <= |Turn(queue)|
    ensures Ids(queue)[..k + 1] == [queue[0].id] + Ids(Turn(queue))[..k]
  {
  }

  /** Nobody is resumed too often or too seldom: the trace is as long as the scripts say. */
  lemma {:induction false} TraceLength(queue: seq<Task>)
    ensures |Trace(queue)| == Work(queue)
    decreases Work(queue)
  {
    if queue != [] {
      TurnWork(queue);
      TraceLength(Turn(queue));
    }
  }

  /** What the running coroutine does, one action after the other, it does to the end of the queue: a
      coroutine it detaches waits behind everybody, and so does itself when it pauses. */
  lemma TurnByActions(id: Id, child: Id, body: Script, rest: Script, queue: seq<Task>)
    ensures Turn([Task(id, Done)] + queue) == queue
    ensures Turn([Task(id, Pausing(rest))] + queue) == queue + [Task(id, rest)]
    ensures Turn([Task(id, Detaching(child, body, rest))] + queue)
         == Turn([Task(id, rest)] + (queue + [Task(child, body)]))
  {
    assert ([Task(id, Done)] + queue)[1..] == queue;
    assert ([Task(id, Pausing(rest))] + queue)[1..] == queue;
    assert ([Task(id, Detaching(child, body, rest))] + queue)[1..] == queue;
    assert ([Task(id, rest)] + (queue + [Task(child, body)]))[1..] == queue + [Task(child, body)];
  }

  // ---------- Who is resumed how often ----------

  function One(b: bool): nat {
    if b then 1 else 0
  }

  /** How often a coroutine runs when t is resumed to its end: once for each of its own bursts, and
      likewise for whatever it detaches. */
  function Bursts(t: Task, id: Id): nat
    decreases t.script
  {
    match t.script
    case Done => One(t.id == id)
    case Pausing(rest) => One(t.id == id) + Bursts(Task(t.id, rest), id)
    case Detaching(child, body, rest) => Bursts(Task(child, body), id) + Bursts(Task(t.id, rest), id)
  }

  function AllBursts(queue: seq<Task>, id: Id): nat {
    if queue == [] then 0 else Bursts(queue[0], id) + AllBursts(queue[1..], id)
  }

  lemma {:induction false} BurstsConcat(a: seq<Task>, b: seq<Task>, id: Id)
    ensures AllBursts(a + b, id) == AllBursts(a, id) + AllBursts(b, id)
  {
    if a == [] {
      assert a + b == b;
    } else {
      BurstsConcat(a[1..], b, id);
      assert (a + b)[1..] == a[1..] + b;
    }
  }

  lemma {:induction false} OneBurst(t: Task, id: Id)
    ensures AllBursts(Detached(t.script), id) + AllBursts(Left(t), id) + One(t.id == id) == Bursts(t, id)
    decreases t.script
  {
    match t.script
    case Done =>
    case Pausing(rest) =>
      assert AllBursts([Task(t.id, rest)], id) == Bursts(Task(t.id, rest), id) + AllBursts([], id);
    case Detaching(child, body, rest) =>
      OneBurst(Task(t.id, rest), id);
      BurstsConcat([Task(child, body)], Detached(rest), id);
      assert AllBursts([Task(child, body)], id) == Bursts(Task(child, body), id) + AllBursts([], id);
  }

  /** Everybody gets its own turns: flushing resumes each coroutine exactly as often as its script, and
      the scripts that detach it, say. */
  lemma {:induction false} EverybodysTurns(queue: seq<Task>, id: Id)
    ensures multiset(Trace(queue))[id] == AllBursts(queue, id)
    decreases Work(queue)
  {
    if queue != [] {
      TurnWork(queue);
      EverybodysTurns(Turn(queue), id);
      OneBurst(queue[0], id);
      BurstsConcat(queue[1..], Detached(queue[0].script), id);
      BurstsConcat(queue[1..] + Detached(queue[0].script), Left(queue[0]), id);
      assert Trace(queue) == [queue[0].id] + Trace(Turn(queue));
    }
  }

  /** flush_queue of the current thread, with the bodies of the coroutines as scripts. */
  class Thread {
    var queue: seq<Task>
    var resumed: seq<Id>

    constructor (queue: seq<Task>)
      ensures this.queue == queue && resumed == []
    {
      this.queue := queue;
      resumed := [];
    }

    method FlushQueue()
      modifies this
      ensures queue == [] && resumed == old(resumed) + Trace(old(queue))
    {
      while queue != []
        invariant resumed + Trace(queue) == old(resumed) + Trace(old(queue))
        decreases Work(queue)
      {
        var h := queue[0];
        TurnWork(queue);
        assert resumed + Trace(queue) == resumed + [h.id] + Trace(Turn(queue));
        ghost var next := Turn(queue);
        queue := queue[1..];
        resumed := resumed + [h.id];
        Resume(h);
        assert queue == next;
      }
    }

    /** One resumption, up to the next pause or the end. */
    method Resume(h: Task)
      modifies `queue
      ensures queue == old(queue) + Detached(h.script) + Left(h)
    {
      var s := h.script;
      while s.Detaching?
        invariant queue + Detached(s) == old(queue) + Detached(h.script)
        invariant Left(Task(h.id, s)) == Left(h)
        decreases s
      {
        assert queue + Detached(s) == queue + [Task(s.id, s.child)] + Detached(s.rest);
        queue := queue + [Task(s.id, s.child)];
        s := s.rest;
      }
      if s.Pausing? {
        queue := queue + [Task(h.id, s.rest)];
      }
    }
  }
}
