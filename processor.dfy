/**
  The sharded round-robin queue engine, as a sequential data structure: one
  bounded producer queue and one bounded consumer queue per shard, a producer
  index and a consumer index that go round the shards, and the running and
  pause flags. The worker threads become two explicit steps on one shard, a
  take that holds the result in flight and a put that queues it; a blocking
  put or take becomes a precondition (the queue has room, the queue
  is not empty); a timed put or take gets a flag telling whether it was served
  before its timeout.
*/
module Processor {
  import opened Wrappers

  /** What applying the user's function gives: a value, null, or an exception. */
  datatype Applied<R> = Returned(value: R) | ReturnedNull | Threw

  /** A work item: an input with the function to apply to it, or one shard's mark of a barrier. */
  datatype Task<!T, R> =
    | Process(fn: T -> Applied<R>, input: T)
    | Barrier(generation: nat, parties: nat)

  /** A processing task whose function throws: it ends the worker that runs it. */
  predicate Throws<T, R>(task: Task<T, R>) {
    task.Process? && task.fn(task.input).Threw?
  }

  /**
    What a worker puts on its consumer queue for one task: the value the
    function returns, and nothing for a null, an exception or a barrier mark.
  */
  function Output<T, R>(task: Task<T, R>): (out: seq<R>)
    ensures |out| <= 1
    ensures |out| == 1 <==> task.Process? && task.fn(task.input).Returned?
    ensures |out| == 1 ==> out[0] == task.fn(task.input).value
  {
    match task
    case Process(fn, input) => if fn(input).Returned? then [fn(input).value] else []
    case Barrier(_, _) => []
  }

  /** The results a run of tasks yields, in order. */
  function Outputs<T, R>(tasks: seq<Task<T, R>>): seq<R> {
    if |tasks| == 0 then [] else Output(tasks[0]) + Outputs(tasks[1..])
  }

  /** The results of two runs of tasks one after the other are the results of each, in that order. */
  lemma {:induction false} OutputsAppend<T, R>(a: seq<Task<T, R>>, b: seq<Task<T, R>>)
    ensures Outputs(a + b) == Outputs(a) + Outputs(b)
    decreases |a|
  {
    if |a| == 0 {
      assert a + b == b;
    } else {
      assert (a + b)[1..] == a[1..] + b;
      OutputsAppend(a[1..], b);
    }
  }

  /** Barrier marks never yield output. */
  lemma {:induction false} BarriersYieldNothing<T, R>(tasks: seq<Task<T, R>>)
    requires forall i :: 0 <= i < |tasks| ==> tasks[i].Barrier?
    ensures Outputs(tasks) == []
    decreases |tasks|
  {
    if |tasks| > 0 {
      BarriersYieldNothing(tasks[1..]);
    }
  }

  /** The shard after `index`, going round `thread` shards. */
  function Next(index: nat, thread: nat): (r: nat)
    requires thread > 0
    ensures r < thread
  {
    (index + 1) % thread
  }

  /** From a valid index, the next shard is the following one, or the first after the last. */
  lemma NextWraps(index: nat, thread: nat)
    requires index < thread
    ensures Next(index, thread) == if index + 1 < thread then index + 1 else 0
  {
  }

  /** The index after `n` advances. */
  function Advance(index: nat, thread: nat, n: nat): (r: nat)
    requires index < thread
    ensures r < thread
  {
    if n == 0 then index else Next(Advance(index, thread, n - 1), thread)
  }

  /** Advancing `a` then `b` times is advancing `a + b` times. */
  lemma {:induction false} AdvanceAdds(index: nat, thread: nat, a: nat, b: nat)
    requires index < thread
    ensures Advance(Advance(index, thread, a), thread, b) == Advance(index, thread, a + b)
  {
    if b > 0 {
      AdvanceAdds(index, thread, a, b - 1);
    }
  }

  /** Within one round the index just counts up. */
  lemma {:induction false} AdvanceWithinRound(index: nat, thread: nat, n: nat)
    requires index + n < thread
    ensures Advance(index, thread, n) == index + n
  {
    if n > 0 {
      AdvanceWithinRound(index, thread, n - 1);
      NextWraps(index + n - 1, thread);
    }
  }

  /** From any valid shard, the advances left in the round lead to the first shard. */
  lemma AdvanceToFirst(index: nat, thread: nat)
    requires index < thread
    ensures Advance(index, thread, thread - index) == 0
  {
    AdvanceWithinRound(index, thread, thread - 1 - index);
    assert Advance(index, thread, thread - index) == Next(thread - 1, thread);
    NextWraps(thread - 1, thread);
  }

  /** After `thread` advances the index is back where it started. */
  lemma FullRoundReturns(index: nat, thread: nat)
    requires index < thread
    ensures Advance(index, thread, thread) == index
  {
    AdvanceToFirst(index, thread);
    AdvanceWithinRound(0, thread, index);
    AdvanceAdds(index, thread, thread - index, index);
  }

  /** Any `thread` consecutive advances visit every shard. */
  lemma RoundRobinVisitsEveryShard(index: nat, thread: nat, shard: nat)
    requires index < thread && shard < thread
    ensures exists n :: 0 <= n < thread && Advance(index, thread, n) == shard
  {
    if index <= shard {
      AdvanceWithinRound(index, thread, shard - index);
    } else {
      AdvanceToFirst(index, thread);
      AdvanceWithinRound(0, thread, shard);
      AdvanceAdds(index, thread, thread - index, shard);
      assert Advance(index, thread, thread - index + shard) == shard;
    }
  }

  class ConcurrentProcessor<T, R> {
    const thread: nat
    const queueSize: nat
    const producerQueue: array<seq<Task<T, R>>>
    const consumerQueue: array<seq<R>>
    /** Per shard, the result its worker has computed and not yet put on the consumer queue. */
    const inFlight: array<seq<R>>
    var running: bool
    var paused: bool
    var producerIndex: nat
    var consumerIndex: nat
    /** The number of barriers created so far. */
    var barriers: nat
    /** The shards whose worker has ended because a function threw; starting again brings up new workers. */
    var stopped: set<nat>
    /** Per shard, every task ever put on its producer queue, in order. */
    ghost var submitted: seq<seq<Task<T, R>>>
    /** Per shard, every result ever taken from its consumer queue, in order. */
    ghost var delivered: seq<seq<R>>

    /**
      Indices within the shards, queues within capacity, at most one result in
      flight per shard, and per-shard FIFO: what a shard has delivered, then what
      waits in its consumer queue, then the result its worker holds, then what its
      pending tasks will yield, is exactly what its submitted tasks yield.
    */
    ghost predicate Valid()
      reads this, producerQueue, consumerQueue, inFlight
    {
      && thread > 0 && queueSize > 0
      && producerQueue as object != consumerQueue as object
      && inFlight as object != consumerQueue as object && inFlight as object != producerQueue as object
      && producerQueue.Length == thread && consumerQueue.Length == thread && inFlight.Length == thread
      && producerIndex < thread && consumerIndex < thread
      && |submitted| == thread && |delivered| == thread
      && (forall i :: 0 <= i < thread ==> |producerQueue[i]| <= queueSize && |consumerQueue[i]| <= queueSize)
      && (forall i :: 0 <= i < thread ==> |inFlight[i]| <= 1)
      && (forall i :: 0 <= i < thread ==>
            Outputs(submitted[i]) == delivered[i] + consumerQueue[i] + inFlight[i] + Outputs(producerQueue[i]))
    }

    constructor (thread: nat, queueSize: nat)
      requires thread > 0 && queueSize > 0
      ensures Valid() && fresh(producerQueue) && fresh(consumerQueue) && fresh(inFlight)
      ensures this.thread == thread && this.queueSize == queueSize
      ensures forall i :: 0 <= i < thread ==> producerQueue[i] == [] && consumerQueue[i] == [] && inFlight[i] == []
      ensures !running && !paused && producerIndex == 0 && consumerIndex == 0 && barriers == 0 && stopped == {}
    {
      this.thread := thread;
      this.queueSize := queueSize;
      producerQueue := new seq<Task<T, R>>[thread](_ => []);
      consumerQueue := new seq<R>[thread](_ => []);
      inFlight := new seq<R>[thread](_ => []);
      running, paused := false, false;
      producerIndex, consumerIndex, barriers := 0, 0, 0;
      stopped := {};
      submitted := seq(thread, _ => []);
      delivered := seq(thread, _ => []);
    }

    /** Starts a fresh worker on every shard unless the workers run already. */
    method Start()
      modifies this
      ensures running && paused == old(paused)
      ensures stopped == if old(running) then old(stopped) else {}
      ensures producerIndex == old(producerIndex) && consumerIndex == old(consumerIndex)
      ensures barriers == old(barriers) && submitted == old(submitted) && delivered == old(delivered)
    {
      if !running {
        running := true;
        stopped := {};
      }
    }

    /**
      Hands `t` to the current shard and moves to the next one. A null input
      is ignored; a null function is an illegal argument, reported before the
      workers are started.
    */
    method Produce(t: Option<T>, fn: Option<T -> Applied<R>>) returns (illegal: bool)
      requires Valid()
      requires t.Some? && fn.Some? ==> !paused && |producerQueue[producerIndex]| < queueSize
      modifies this, producerQueue
      ensures Valid()
      ensures illegal <==> t.Some? && fn.None?
      ensures t.None? || fn.None? ==>
        && unchanged(this) && unchanged(producerQueue)
      ensures t.Some? && fn.Some? ==>
        && running && paused == old(paused)
        && stopped == (if old(running) then old(stopped) else {})
        && producerQueue[old(producerIndex)] == old(producerQueue[producerIndex]) + [Process(fn.value, t.value)]
        && submitted == old(submitted)[old(producerIndex) := old(submitted[producerIndex]) + [Process(fn.value, t.value)]]
        && (forall i :: 0 <= i < thread && i != old(producerIndex) ==> producerQueue[i] == old(producerQueue[i]))
        && producerIndex == Next(old(producerIndex), thread)
        && consumerIndex == old(consumerIndex) && barriers == old(barriers) && delivered == old(delivered)
    {
      if t.None? {
        return false;
      }
      if fn.None? {
        return true;
      }
      Start();
      EnqueueAt(producerIndex, Process(fn.value, t.value));
      producerIndex := Next(producerIndex, thread);
      illegal := false;
    }

    /** Appends one task to shard `i`'s producer queue. */
    method EnqueueAt(i: nat, task: Task<T, R>)
      requires Valid() && i < thread && |producerQueue[i]| < queueSize
      modifies this, producerQueue
      ensures Valid()
      ensures producerQueue[i] == old(producerQueue[i]) + [task]
      ensures forall j :: 0 <= j < thread && j != i ==> producerQueue[j] == old(producerQueue[j])
      ensures submitted == old(submitted)[i := old(submitted[i]) + [task]]
      ensures running == old(running) && paused == old(paused) && producerIndex == old(producerIndex)
      ensures consumerIndex == old(consumerIndex) && barriers == old(barriers) && delivered == old(delivered)
      ensures stopped == old(stopped)
    {
      OutputsAppend(producerQueue[i], [task]);
      OutputsAppend(submitted[i], [task]);
      producerQueue[i] := producerQueue[i] + [task];
      submitted := submitted[i := submitted[i] + [task]];
      forall j | 0 <= j < thread
        ensures Outputs(submitted[j]) == delivered[j] + consumerQueue[j] + inFlight[j] + Outputs(producerQueue[j])
      {
        if j != i {
          assert producerQueue[j] == old(producerQueue[j]) && submitted[j] == old(submitted[j]);
        }
      }
    }

    /**
      The timed variant: a null input counts as handed over; otherwise the new task
      goes to the current shard only when there is room and the offer is served
      before the timeout (`served`), and only then does the index move on.
    */
    method ProduceTimed(t: Option<T>, fn: Option<T -> Applied<R>>, served: bool) returns (offered: bool, illegal: bool)
      requires Valid()
      requires t.Some? && fn.Some? ==> !paused
      modifies this, producerQueue
      ensures Valid()
      ensures illegal <==> t.Some? && fn.None?
      ensures t.None? ==> offered && !illegal
      ensures t.None? || fn.None? ==> unchanged(this) && unchanged(producerQueue)
      ensures t.Some? && fn.Some? ==>
        && running && paused == old(paused)
        && stopped == (if old(running) then old(stopped) else {})
        && offered == (served && |old(producerQueue[producerIndex])| < queueSize)
        && (offered ==> producerQueue[old(producerIndex)]
                        == old(producerQueue[producerIndex]) + [Process(fn.value, t.value)])
        && (offered ==> submitted == old(submitted)[old(producerIndex) :=
                                       old(submitted[producerIndex]) + [Process(fn.value, t.value)]])
        && (!offered ==> unchanged(producerQueue) && submitted == old(submitted))
        && (forall i :: 0 <= i < thread && i != old(producerIndex) ==> producerQueue[i] == old(producerQueue[i]))
        && producerIndex == (if offered then Next(old(producerIndex), thread) else old(producerIndex))
        && consumerIndex == old(consumerIndex) && barriers == old(barriers) && delivered == old(delivered)
    {
      if t.None? {
        return true, false;
      }
      if fn.None? {
        return false, true;
      }
      Start();
      illegal := false;
      offered := served && |producerQueue[producerIndex]| < queueSize;
      if offered {
        EnqueueAt(producerIndex, Process(fn.value, t.value));
        producerIndex := Next(producerIndex, thread);
      }
    }

    /** Takes the next result from the current shard and moves to the next shard. */
    method Get() returns (r: R)
      requires Valid() && |consumerQueue[consumerIndex]| > 0
      modifies this, consumerQueue
      ensures Valid()
      ensures [r] + consumerQueue[old(consumerIndex)] == old(consumerQueue[consumerIndex])
      ensures forall i :: 0 <= i < thread && i != old(consumerIndex) ==> consumerQueue[i] == old(consumerQueue[i])
      ensures delivered == old(delivered)[old(consumerIndex) := old(delivered[consumerIndex]) + [r]]
      ensures consumerIndex == Next(old(consumerIndex), thread)
      ensures producerIndex == old(producerIndex) && running == old(running) && paused == old(paused)
      ensures barriers == old(barriers) && submitted == old(submitted) && stopped == old(stopped)
    {
      r := Dequeue();
      consumerIndex := Next(consumerIndex, thread);
    }

    /** Removes the head of the current shard's consumer queue. */
    method Dequeue() returns (r: R)
      requires Valid() && |consumerQueue[consumerIndex]| > 0
      modifies this, consumerQueue
      ensures Valid()
      ensures [r] + consumerQueue[consumerIndex] == old(consumerQueue[consumerIndex])
      ensures forall i :: 0 <= i < thread && i != consumerIndex ==> consumerQueue[i] == old(consumerQueue[i])
      ensures delivered == old(delivered)[consumerIndex := old(delivered[consumerIndex]) + [r]]
      ensures consumerIndex == old(consumerIndex) && producerIndex == old(producerIndex)
      ensures running == old(running) && paused == old(paused)
      ensures barriers == old(barriers) && submitted == old(submitted) && stopped == old(stopped)
    {
      var i := consumerIndex;
      var q := consumerQueue[i];
      r := q[0];
      assert [r] + q[1..] == q;
      consumerQueue[i] := q[1..];
      delivered := delivered[i := delivered[i] + [r]];
      forall j | 0 <= j < thread
        ensures Outputs(submitted[j]) == delivered[j] + consumerQueue[j] + inFlight[j] + Outputs(producerQueue[j])
      {
        if j != i {
          assert consumerQueue[j] == old(consumerQueue[j]) && delivered[j] == old(delivered[j]);
        }
      }
    }

    /**
      The timed variant: the current shard's next result when one is there and
      the poll is served before the timeout, the index moving on only then;
      otherwise nothing.
    */
    method GetTimed(served: bool) returns (r: Option<R>)
      requires Valid()
      modifies this, consumerQueue
      ensures Valid()
      ensures r.Some? <==> served && |old(consumerQueue[consumerIndex])| > 0
      ensures r.Some? ==>
        && [r.value] + consumerQueue[old(consumerIndex)] == old(consumerQueue[consumerIndex])
        && delivered == old(delivered)[old(consumerIndex) := old(delivered[consumerIndex]) + [r.value]]
        && consumerIndex == Next(old(consumerIndex), thread)
      ensures r.None? ==> unchanged(consumerQueue) && consumerIndex == old(consumerIndex) && delivered == old(delivered)
      ensures forall i :: 0 <= i < thread && i != old(consumerIndex) ==> consumerQueue[i] == old(consumerQueue[i])
      ensures producerIndex == old(producerIndex) && running == old(running) && paused == old(paused)
      ensures barriers == old(barriers) && submitted == old(submitted) && stopped == old(stopped)
    {
      r := None;
      if served && |consumerQueue[consumerIndex]| > 0 {
        var v := Dequeue();
        r := Some(v);
        consumerIndex := Next(consumerIndex, thread);
      }
    }

    /**
      The take half of a turn of shard `i`'s worker, while it has not ended and
      holds no result: it removes the head task, and for a processing task keeps
      the function's value in flight; a null result and a barrier mark yield
      nothing, and an exception ends the worker, leaving the shard's later tasks
      waiting. Consumer-queue room is not needed to take.
    */
    method WorkerStep(i: nat)
      requires Valid() && running && i < thread && i !in stopped
      requires |producerQueue[i]| > 0 && inFlight[i] == []
      modifies this, producerQueue, inFlight
      ensures Valid()
      ensures [old(producerQueue[i][0])] + producerQueue[i] == old(producerQueue[i])
      ensures inFlight[i] == Output(old(producerQueue[i][0]))
      ensures forall j :: 0 <= j < thread && j != i ==>
        producerQueue[j] == old(producerQueue[j]) && inFlight[j] == old(inFlight[j])
      ensures stopped == if Throws(old(producerQueue[i][0])) then old(stopped) + {i} else old(stopped)
      ensures running == old(running) && paused == old(paused) && barriers == old(barriers)
      ensures producerIndex == old(producerIndex) && consumerIndex == old(consumerIndex)
      ensures submitted == old(submitted) && delivered == old(delivered)
    {
      var threw := TakeTask(i);
      if threw {
        stopped := stopped + {i};
      }
    }

    /** Removes shard `i`'s head task and keeps its output in flight; tells whether its function threw. */
    method TakeTask(i: nat) returns (threw: bool)
      requires Valid() && i < thread && |producerQueue[i]| > 0 && inFlight[i] == []
      modifies producerQueue, inFlight
      ensures Valid()
      ensures threw == Throws(old(producerQueue[i][0]))
      ensures [old(producerQueue[i][0])] + producerQueue[i] == old(producerQueue[i])
      ensures inFlight[i] == Output(old(producerQueue[i][0]))
      ensures forall j :: 0 <= j < thread && j != i ==>
        producerQueue[j] == old(producerQueue[j]) && inFlight[j] == old(inFlight[j])
    {
      var pending := producerQueue[i];
      var task := pending[0];
      assert pending == [task] + pending[1..];
      OutputsAppend([task], pending[1..]);
      assert Outputs([task]) == Output(task) + Outputs([task][1..]);
      var out := Output(task);
      threw := Throws(task);
      assert Outputs(submitted[i]) == delivered[i] + consumerQueue[i] + out + Outputs(pending[1..]);
      producerQueue[i], inFlight[i] := pending[1..], out;
      forall j | 0 <= j < thread
        ensures Outputs(submitted[j]) == delivered[j] + consumerQueue[j] + inFlight[j] + Outputs(producerQueue[j])
      {
        if j != i {
          assert producerQueue[j] == old(producerQueue[j]) && inFlight[j] == old(inFlight[j]);
        }
      }
    }

    /**
      The put half of a turn of shard `i`'s worker: the result it holds goes to
      the end of the shard's consumer queue, which must have room for it.
    */
    method WorkerPut(i: nat)
      requires Valid() && running && i < thread && i !in stopped
      requires |inFlight[i]| > 0 && |consumerQueue[i]| < queueSize
      modifies consumerQueue, inFlight
      ensures Valid()
      ensures consumerQueue[i] == old(consumerQueue[i]) + old(inFlight[i]) && inFlight[i] == []
      ensures forall j :: 0 <= j < thread && j != i ==>
        consumerQueue[j] == old(consumerQueue[j]) && inFlight[j] == old(inFlight[j])
    {
      consumerQueue[i] := consumerQueue[i] + inFlight[i];
      inFlight[i] := [];
    }

    /**
      Puts one mark of a new barrier, sized for all shards, at the end of every
      producer queue; the producer index does not move.
    */
    method PutBarrierInAllProducerQueue()
      requires Valid()
      requires forall i :: 0 <= i < thread ==> |producerQueue[i]| < queueSize
      modifies this, producerQueue
      ensures Valid()
      ensures barriers == old(barriers) + 1
      ensures forall i :: 0 <= i < thread ==>
        producerQueue[i] == old(producerQueue[i]) + [Barrier(old(barriers), thread)]
      ensures |submitted| == thread
      ensures forall i :: 0 <= i < thread ==> submitted[i] == old(submitted[i]) + [Barrier(old(barriers), thread)]
      ensures producerIndex == old(producerIndex) && consumerIndex == old(consumerIndex)
      ensures running == old(running) && paused == old(paused) && delivered == old(delivered)
      ensures stopped == old(stopped)
    {
      var mark: Task<T, R> := Barrier(barriers, thread);
      var i := 0;
      while i < thread
        invariant 0 <= i <= thread && Valid()
        invariant forall j :: 0 <= j < i ==> producerQueue[j] == old(producerQueue[j]) + [mark]
        invariant forall j :: i <= j < thread ==> producerQueue[j] == old(producerQueue[j])
        invariant forall j :: 0 <= j < i ==> submitted[j] == old(submitted[j]) + [mark]
        invariant forall j :: i <= j < thread ==> submitted[j] == old(submitted[j])
        invariant delivered == old(delivered) && barriers == old(barriers)
        invariant producerIndex == old(producerIndex) && consumerIndex == old(consumerIndex)
        invariant running == old(running) && paused == old(paused) && stopped == old(stopped)
      {
        EnqueueAt(i, mark);
        i := i + 1;
      }
      barriers := barriers + 1;
    }

    /** Sets the pause flag: producers wait until `Resume`. */
    method Pause()
      modifies this
      ensures paused && running == old(running)
      ensures producerIndex == old(producerIndex) && consumerIndex == old(consumerIndex)
      ensures barriers == old(barriers) && submitted == old(submitted) && delivered == old(delivered)
      ensures stopped == old(stopped)
    {
      paused := true;
    }

    /** Clears the pause flag. */
    method Resume()
      modifies this
      ensures !paused && running == old(running)
      ensures producerIndex == old(producerIndex) && consumerIndex == old(consumerIndex)
      ensures barriers == old(barriers) && submitted == old(submitted) && delivered == old(delivered)
      ensures stopped == old(stopped)
    {
      paused := false;
    }

    /** Stops the workers; a later `Produce` starts them again. */
    method Close()
      modifies this
      ensures !running && paused == old(paused)
      ensures producerIndex == old(producerIndex) && consumerIndex == old(consumerIndex)
      ensures barriers == old(barriers) && submitted == old(submitted) && delivered == old(delivered)
      ensures stopped == old(stopped)
    {
      running := false;
    }
  }

  /**
    Per-shard FIFO as seen from outside: what a shard has delivered is a prefix
    of what its submitted tasks yield, in submission order.
  */
  lemma DeliveredInSubmissionOrder<T, R>(p: ConcurrentProcessor<T, R>, i: nat)
    requires p.Valid() && i < p.thread
    ensures p.delivered[i] <= Outputs(p.submitted[i])
    ensures |p.delivered[i]| + |p.consumerQueue[i]| + |p.inFlight[i]| <= |Outputs(p.submitted[i])|
  {
    var d, c, f, o := p.delivered[i], p.consumerQueue[i], p.inFlight[i], Outputs(p.producerQueue[i]);
    assert Outputs(p.submitted[i]) == d + (c + f + o);
  }
}
