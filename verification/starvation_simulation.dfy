/**
 * The shared state of the starvation-free scheduler: the bounded queue of
 * pending tasks, the id counter, the lifecycle flags and the per-class
 * processed counters, with the three steps that change them (submitting a
 * task, withdrawing one, and the reset at the start of a run).
 *
 * Blocking waits are not modelled as waits: a step that would block returns
 * an outcome that says so and changes nothing.
 */
module StarvationSimulation {
  import opened AgingSelection
  import opened Sequences

  /** The three processed counters: A, M, and B (which also books every
      class other than 'A' and 'M'). */
  datatype Counter = CounterA | CounterM | CounterB

  /** The counter a withdrawn task of class `kind` is booked on. */
  function CounterOf(kind: char): (c: Counter)
    ensures c == CounterA <==> kind == 'A'
    ensures c == CounterM <==> kind == 'M'
  {
    if kind == 'A' then CounterA
    else if kind == 'M' then CounterM
    else CounterB
  }

  /** 1 if a task of class `kind` is booked on `c`, otherwise 0. */
  function Booking(kind: char, c: Counter): nat {
    if CounterOf(kind) == c then 1 else 0
  }

  /** How many tasks of `ts` are booked on counter `c`. */
  function Booked(ts: seq<Task>, c: Counter): nat {
    if |ts| == 0 then 0
    else Booked(ts[..|ts| - 1], c) + Booking(ts[|ts| - 1].kind, c)
  }

  /** Every task is booked on exactly one of the three counters. */
  lemma {:induction false} BookedTotal(ts: seq<Task>)
    ensures Booked(ts, CounterA) + Booked(ts, CounterM) + Booked(ts, CounterB) == |ts|
  {
    if |ts| != 0 {
      BookedTotal(ts[..|ts| - 1]);
    }
  }

  lemma BookedAppend(ts: seq<Task>, t: Task, c: Counter)
    ensures Booked(ts + [t], c) == Booked(ts, c) + Booking(t.kind, c)
  {
    assert (ts + [t])[..|ts|] == ts;
  }

  /** Erasing any one task from a queue takes exactly that task's booking
      out of the count. */
  lemma {:induction false} BookedRemoveAt(q: seq<Task>, i: nat, c: Counter)
    requires i < |q|
    ensures Booked(q, c) == Booked(RemoveAt(q, i), c) + Booking(q[i].kind, c)
  {
    var n := |q| - 1;
    var front := q[..n];
    assert Booked(q, c) == Booked(front, c) + Booking(q[n].kind, c);
    if i == n {
      assert RemoveAt(q, i) == front;
    } else {
      BookedRemoveAt(front, i, c);
      assert front[i] == q[i];
      assert RemoveAt(q, i) == RemoveAt(front, i) + [q[n]];
      BookedAppend(RemoveAt(front, i), q[n], c);
    }
  }

  /** Every task accepted since the last reset is either still queued or
      has been withdrawn, counter by counter. */
  ghost predicate Accounted(submitted: seq<Task>, withdrawn: seq<Task>, queue: seq<Task>) {
    forall c :: Booked(submitted, c) == Booked(withdrawn, c) + Booked(queue, c)
  }

  lemma AccountedEmpty()
    ensures Accounted([], [], [])
  {
  }

  lemma AccountedAfterEnqueue(submitted: seq<Task>, withdrawn: seq<Task>, queue: seq<Task>, t: Task)
    requires Accounted(submitted, withdrawn, queue)
    ensures Accounted(submitted + [t], withdrawn, queue + [t])
  {
    forall c
      ensures Booked(submitted + [t], c) == Booked(withdrawn, c) + Booked(queue + [t], c)
    {
      BookedAppend(submitted, t, c);
      BookedAppend(queue, t, c);
    }
  }

  lemma AccountedAfterWithdraw(submitted: seq<Task>, withdrawn: seq<Task>, queue: seq<Task>, i: nat)
    requires i < |queue|
    requires Accounted(submitted, withdrawn, queue)
    ensures Accounted(submitted, withdrawn + [queue[i]], RemoveAt(queue, i))
  {
    forall c
      ensures Booked(submitted, c) == Booked(withdrawn + [queue[i]], c) + Booked(RemoveAt(queue, i), c)
    {
      BookedRemoveAt(queue, i, c);
      BookedAppend(withdrawn, queue[i], c);
    }
  }

  /** Once the queue is drained, the withdrawn tasks are exactly the accepted
      ones, counter by counter, and there are as many of them. */
  lemma DrainedAccounting(submitted: seq<Task>, withdrawn: seq<Task>)
    requires Accounted(submitted, withdrawn, [])
    ensures forall c :: Booked(withdrawn, c) == Booked(submitted, c)
    ensures |withdrawn| == |submitted|
  {
    BookedTotal(submitted);
    BookedTotal(withdrawn);
  }

  /** Ids strictly increase along the queue (so no id is queued twice). */
  ghost predicate IdsIncreasing(q: seq<Task>) {
    forall i, j :: 0 <= i < j < |q| ==> q[i].id < q[j].id
  }

  /** Every id in `ts` was handed out before `nextId`. */
  ghost predicate IdsIssued(ts: seq<Task>, nextId: int) {
    forall i :: 0 <= i < |ts| ==> 0 <= ts[i].id < nextId
  }

  /** No two withdrawals returned the same id, and no withdrawn id is queued. */
  ghost predicate WithdrawnOnce(withdrawn: seq<Task>, queue: seq<Task>) {
    && (forall i, j :: 0 <= i < j < |withdrawn| ==> withdrawn[i].id != withdrawn[j].id)
    && (forall i, j :: 0 <= i < |withdrawn| && 0 <= j < |queue| ==> withdrawn[i].id != queue[j].id)
  }

  lemma IdsAfterEnqueue(withdrawn: seq<Task>, queue: seq<Task>, nextId: int, t: Task)
    requires IdsIncreasing(queue) && IdsIssued(queue, nextId) && IdsIssued(withdrawn, nextId)
    requires WithdrawnOnce(withdrawn, queue)
    requires t.id == nextId >= 0
    ensures IdsIncreasing(queue + [t]) && IdsIssued(queue + [t], nextId + 1)
    ensures IdsIssued(withdrawn, nextId + 1)
    ensures WithdrawnOnce(withdrawn, queue + [t])
  {
  }

  lemma IdsAfterWithdraw(withdrawn: seq<Task>, queue: seq<Task>, nextId: int, i: nat)
    requires i < |queue|
    requires IdsIncreasing(queue) && IdsIssued(queue, nextId) && IdsIssued(withdrawn, nextId)
    requires WithdrawnOnce(withdrawn, queue)
    ensures IdsIncreasing(RemoveAt(queue, i)) && IdsIssued(RemoveAt(queue, i), nextId)
    ensures IdsIssued(withdrawn + [queue[i]], nextId)
    ensures WithdrawnOnce(withdrawn + [queue[i]], RemoveAt(queue, i))
  {
    var r := RemoveAt(queue, i);
    var w := withdrawn + [queue[i]];
    forall a, b | 0 <= a < |w| && 0 <= b < |r|
      ensures w[a].id != r[b].id
    {
      if a == |withdrawn| {
        if b < i {
          assert r[b] == queue[b];
        } else {
          assert r[b] == queue[b + 1];
        }
      }
    }
  }

  /** What a call of `enqueue_task` did. */
  datatype Submission = Accepted(id: nat) | Rejected | BlockedFull

  /** What one round of the consumer loop did. */
  datatype Withdrawal = Taken(task: Task, index: nat, workMs: nat) | Stopped | BlockedEmpty

  class Simulation {
    const maxQueue: nat
    const runSeconds: nat
    /** The fixed class sequence producer 0 submits first. */
    const initialSequence: seq<char>

    var queue: seq<Task>
    var stopProduction: bool
    var stopConsumers: bool
    var initialDone: bool
    var processedA: nat
    var processedM: nat
    var processedB: nat
    var nextId: nat

    /** Every task accepted since the last reset, in id order. */
    ghost var submitted: seq<Task>
    /** Every task withdrawn since the last reset, in withdrawal order. */
    ghost var withdrawn: seq<Task>

    /** The queue holds at most `maxQueue` tasks, each id is handed out once
        and in increasing order along the queue, every task is either queued
        or withdrawn, and the counters book exactly the withdrawn tasks. */
    ghost predicate Valid()
      reads this
    {
      && |queue| <= maxQueue
      && nextId == |submitted|
      && (forall k :: 0 <= k < |submitted| ==> submitted[k].id == k)
      && IdsIncreasing(queue) && IdsIssued(queue, nextId) && IdsIssued(withdrawn, nextId)
      && WithdrawnOnce(withdrawn, queue)
      && Accounted(submitted, withdrawn, queue)
      && (forall c :: ProcessedOf(c) == Booked(withdrawn, c))
    }

    /** The value of processed counter `c`. */
    function ProcessedOf(c: Counter): nat
      reads this
    {
      match c
      case CounterA => processedA
      case CounterM => processedM
      case CounterB => processedB
    }

    constructor ()
      ensures Valid()
      ensures maxQueue == 20 && runSeconds == 10 && |initialSequence| == 30
      ensures initialSequence == "BBMBBBAMBB" + "BBBMABBMBB" + "MBBBABMBBB"
      ensures queue == [] && nextId == 0 && processedA == processedM == processedB == 0
      ensures !stopProduction && !stopConsumers && !initialDone
    {
      maxQueue := 20;
      runSeconds := 10;
      nextId := 0;
      initialSequence := "BBMBBBAMBB" + "BBBMABBMBB" + "MBBBABMBBB";
      queue := [];
      stopProduction, stopConsumers, initialDone := false, false, false;
      processedA, processedM, processedB := 0, 0, 0;
      submitted, withdrawn := [], [];
      AccountedEmpty();
    }

    /** The reset of the shared state at the start of a run. */
    method Reset()
      modifies this
      ensures Valid()
      ensures queue == [] && nextId == 0 && processedA == processedM == processedB == 0
      ensures !stopProduction && !stopConsumers && !initialDone
    {
      queue := [];
      processedA, processedM, processedB := 0, 0, 0;
      stopProduction, stopConsumers, initialDone := false, false, false;
      nextId := 0;
      submitted, withdrawn := [], [];
      AccountedEmpty();
    }

    /** The coordinator ends the production window. */
    method StopProduction()
      requires Valid()
      modifies this`stopProduction
      ensures Valid() && stopProduction
    {
      stopProduction := true;
    }

    /** The coordinator stops the consumers. */
    method StopConsumers()
      requires Valid()
      modifies this`stopConsumers
      ensures Valid() && stopConsumers
    {
      stopConsumers := true;
    }

    /** Submitting a task of class `kind` at time `now`. Once production is
        stopped nothing changes; while the queue is full the caller would
        block; otherwise the task is appended with the next id. */
    method EnqueueTask(kind: char, now: int) returns (r: Submission)
      requires Valid()
      modifies this`queue, this`nextId, this`submitted
      ensures Valid()
      ensures old(stopProduction) ==> r == Rejected && unchanged(this)
      ensures !old(stopProduction) && old(|queue|) >= maxQueue ==>
                r == BlockedFull && unchanged(this)
      ensures !old(stopProduction) && old(|queue|) < maxQueue ==>
                && r == Accepted(old(nextId))
                && queue == old(queue) + [Task(kind, old(nextId), now)]
                && nextId == old(nextId) + 1
                && submitted == old(submitted) + [Task(kind, old(nextId), now)]
    {
      if !stopProduction && |queue| >= maxQueue {
        return BlockedFull;
      }
      if stopProduction {
        return Rejected;
      }
      var t := Task(kind, nextId, now);
      AccountedAfterEnqueue(submitted, withdrawn, queue, t);
      IdsAfterEnqueue(withdrawn, queue, nextId, t);
      queue := queue + [t];
      submitted := submitted + [t];
      r := Accepted(nextId);
      nextId := nextId + 1;
    }

    /** One round of the consumer loop at time `now`: stop if told to (even
        with tasks queued), block on an empty queue, otherwise erase the task
        the aging policy selects and book it on its class's counter. */
    method Consume(now: int) returns (r: Withdrawal)
      requires Valid()
      requires EnqueuedBy(queue, now)
      modifies this`queue, this`processedA, this`processedM, this`processedB, this`withdrawn
      ensures Valid()
      ensures old(stopConsumers) ==> r == Stopped && unchanged(this)
      ensures !old(stopConsumers) && old(queue) == [] ==> r == BlockedEmpty && unchanged(this)
      ensures !old(stopConsumers) && old(queue) != [] ==>
                && r.Taken?
                && IsSelection(old(queue), now, r.index)
                && r.task == old(queue)[r.index]
                && r.workMs == ProcessingTimeMs(r.task.kind)
                && queue == RemoveAt(old(queue), r.index)
                && (forall c :: ProcessedOf(c) == old(ProcessedOf(c)) + Booking(r.task.kind, c))
                && withdrawn == old(withdrawn) + [r.task]
    {
      if stopConsumers {
        return Stopped;
      }
      if |queue| == 0 {
        return BlockedEmpty;
      }
      var idx := SelectTaskIndex(queue, now);
      var task := queue[idx];
      AccountedAfterWithdraw(submitted, withdrawn, queue, idx);
      IdsAfterWithdraw(withdrawn, queue, nextId, idx);
      forall c
        ensures Booked(withdrawn + [task], c) == Booked(withdrawn, c) + Booking(task.kind, c)
      {
        BookedAppend(withdrawn, task, c);
      }
      queue := RemoveAt(queue, idx);
      withdrawn := withdrawn + [task];
      Book(task.kind);
      r := Taken(task, idx, ProcessingTimeMs(task.kind));
    }

    /** Books one processed task of class `kind`: 'A' and 'M' on their own
        counters, every other class on the B counter. */
    method Book(kind: char)
      modifies this`processedA, this`processedM, this`processedB
      ensures forall c :: ProcessedOf(c) == old(ProcessedOf(c)) + Booking(kind, c)
    {
      if kind == 'A' {
        processedA := processedA + 1;
      } else if kind == 'M' {
        processedM := processedM + 1;
      } else {
        processedB := processedB + 1;
      }
    }

    /** The final summary of a run: the counters and the number of tasks left
        in the queue. When the queue was drained, every accepted task has been
        booked exactly once, on its own class's counter. */
    method FinalSummary() returns (a: nat, m: nat, b: nat, pending: nat)
      requires Valid()
      ensures pending == |queue|
      ensures a == processedA && m == processedM && b == processedB
      ensures pending == 0 ==>
                && a == Booked(submitted, CounterA)
                && m == Booked(submitted, CounterM)
                && b == Booked(submitted, CounterB)
                && a + m + b == nextId
    {
      a, m, b := processedA, processedM, processedB;
      pending := |queue|;
      if pending == 0 {
        DrainedAccounting(submitted, withdrawn);
        assert ProcessedOf(CounterA) == a && ProcessedOf(CounterM) == m && ProcessedOf(CounterB) == b;
        BookedTotal(submitted);
      }
    }
  }
}
