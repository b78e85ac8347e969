# Concurrency workshop solutions, modelled in Dafny

This project models the three "solution" programs of an operating-systems
workshop on concurrency. In each program, threads share state and a lock
discipline keeps that state correct. The model keeps the state and the
critical sections. The threads are replaced by the set of orders in which
the critical sections can run.

- **Starvation-free scheduler** (`starvation_selection.dfy`,
  `starvation_simulation.dfy`).
  - Producers put tasks of class A, M or B into a bounded queue, and
    consumers withdraw them.
  - Each task is scored as its base priority (A 3, M 2, B 1) plus its wait
    in the queue, at one level per 200 ms. The consumer takes the task with
    the highest score, and the oldest task on a tie.
  - `SelectTaskIndex` is the selection scan. `Simulation` is the
    scheduler's shared state: its methods are the queue insertion, one
    consumer step, the reset at the start of a run, the two stop flags and
    the final summary.
  - Ghost logs of what was submitted and what was withdrawn carry the
    invariants:
    - every task is counted once, either queued or in its class counter;
    - ids are issued in increasing order and never reused.
- **Deadlock-free transfers** (`deadlock_transfer.dfy`).
  - Ten threads each run three transfers between five accounts. Each
    transfer names its two account locks lower index first ("low" and
    "high") and acquires both before touching the balances.
  - A transfer moves money only if the source balance covers it.
  - `Bank` holds the account array and the completed-transfer counter.
    `DoTransferNodl` is one thread's loop.
  - The lemmas prove that the discipline "hold the low lock, then wait for
    the high one" rules out a circular wait. The program passes both locks
    to `std::lock`, which avoids deadlock by its own algorithm; that
    algorithm is not modelled. The lemmas also prove that every run of the
    scheduled transfers, in any order, conserves the total of 15000 and
    keeps every balance non-negative.
- **Race-free stock updates** (`race_condition_stock.dfy`).
  - Twenty threads each sell or restock one of ten products. Each product's
    read-modify-write happens under that product's mutex.
  - Any order of the twenty operations is given as a `schedule` that is a
    permutation of the operation list.
  - The model proves that the final stock does not depend on that order.
    In particular, product 0 always ends at 120 and product 5 at 110, so
    the run's check always reports success.

## Where the model departs from the code

- **Exact scores.** The C++ computes the score as a `double`,
  `base + wait_ms / 200.0`. The model multiplies it by 200, so the score is
  the exact integer `200 * base + wait_ms`.
  - Strict comparisons agree: two exact scores that differ, differ by at
    least 0.005, which rounding cannot reverse.
  - Exact ties between classes can differ. A wait difference that is a
    multiple of 200 ms can tie two classes exactly. The C++ rounds the two
    sums differently and keeps whichever rounds higher; the model keeps the
    older task. Example: an A task that has waited 3 ms and an M task that
    has waited 203 ms. The C++ scores them 3.015 and 3.0149999999999997 and
    keeps the A task. The model scores both 603 and keeps the older M task.
- **The -1e9 sentinel** is kept (scaled) as `ScoreSentinel`. Every real
  score is non-negative, because the clock is monotonic. `EnqueuedBy`
  states this as a precondition, so the first task always beats the
  sentinel.
- **Blocking waits become outcomes.**
  - A producer that would wait on a full queue gets `BlockedFull`, with
    nothing changed.
  - A consumer that would wait on an empty queue gets `BlockedEmpty`, with
    nothing changed. This also covers the source's "queue empty, continue"
    branch.
  - A stopped side gets `Rejected` or `Stopped`.
  - Retrying is the caller's business, as it is for the real thread after
    it wakes up.
- **Transfers.** `DoTransferNodl` runs one thread's list in order.
  `ScheduledRunConserves` covers every interleaving of the thirty
  transfers, and more: any sequence of thirty transfers drawn from the
  schedule.

## Model

| member | source | states |
|---|---|---|
| AgingSelection.BasePriority | starvation_solucion.cpp/starvation_solucion.cpp/starvation_solucion.cpp.cpp:145-153 | base priority is at most 3, and is 0 exactly for a class other than A, M, B |
| AgingSelection.ProcessingTimeMs | starvation_solucion.cpp/starvation_solucion.cpp/starvation_solucion.cpp.cpp:155-163 | simulated work lies between 50 and 150 ms |
| AgingSelection.ClassOrder | starvation_solucion.cpp/starvation_solucion.cpp/starvation_solucion.cpp.cpp:145-153 | A > M > B > any other class, and other classes get priority 0 |
| AgingSelection.HigherClassShorterWork | starvation_solucion.cpp/starvation_solucion.cpp/starvation_solucion.cpp.cpp:155-163 | A is processed faster than M, and M faster than B |
| AgingSelection.WaitMs | starvation_solucion.cpp/starvation_solucion.cpp/starvation_solucion.cpp.cpp:208 | the wait is non-negative exactly when the task entered the queue no later than now |
| AgingSelection.ScoreScalesEffectivePriority | starvation_solucion.cpp/starvation_solucion.cpp/starvation_solucion.cpp.cpp:207-209 | the integer score is exactly 200 times base + wait_ms / 200 without rounding, and two scores compare as those unrounded priorities do |
| AgingSelection.SelectTaskIndex | starvation_solucion.cpp/starvation_solucion.cpp/starvation_solucion.cpp.cpp:196-223 | empty queue gives 0; otherwise the index has the maximal aged score, no equally scored task is older, and earlier equally scored tasks are strictly younger |
| AgingSelection.SelectionUnique | starvation_solucion.cpp/starvation_solucion.cpp/starvation_solucion.cpp.cpp:211-220 | the selection with its tie-break designates exactly one index |
| AgingSelection.HigherClassWinsOnEqualWait | starvation_solucion.cpp/starvation_solucion.cpp/starvation_solucion.cpp.cpp:207-213 | with equal waits a higher class outscores a lower one, which is therefore not withdrawn |
| AgingSelection.AgedLowOvertakesHigh | starvation_solucion.cpp/starvation_solucion.cpp/starvation_solucion.cpp.cpp:207-213 | a B task that waited over 400 ms longer than an A task outscores it, so the A task is not withdrawn |
| AgingSelection.OvertakerEnqueuedWithinWindow | starvation_solucion.cpp/starvation_solucion.cpp/starvation_solucion.cpp.cpp:205-214 | a task withdrawn ahead of a queued task entered at most 200 ms per priority level later, at most 600 ms later |
| AgingSelection.OldestByMarginIsSelected | starvation_solucion.cpp/starvation_solucion.cpp/starvation_solucion.cpp.cpp:205-220 | no starvation: a task at least 600 ms older than every other queued task is the one withdrawn |
| StarvationSimulation.CounterOf | starvation_solucion.cpp/starvation_solucion.cpp/starvation_solucion.cpp.cpp:287-289 | an A task is booked to the A counter, an M task to the M counter, anything else to the B counter |
| Sequences.RemoveAt | starvation_solucion.cpp/starvation_solucion.cpp/starvation_solucion.cpp.cpp:281 | erasing one element keeps the prefix, shifts the suffix down, and removes exactly that element from the multiset; the queue erase and the removal of one operation from a run both use it |
| StarvationSimulation.BookedTotal | starvation_solucion.cpp/starvation_solucion.cpp/starvation_solucion.cpp.cpp:287-289 | the three counters together count every withdrawn task once |
| StarvationSimulation.BookedAppend | starvation_solucion.cpp/starvation_solucion.cpp/starvation_solucion.cpp.cpp:287-289 | withdrawing one more task adds one to its own counter and nothing to the others |
| StarvationSimulation.BookedRemoveAt | starvation_solucion.cpp/starvation_solucion.cpp/starvation_solucion.cpp.cpp:279-289 | erasing a task from the queue moves exactly its own class count out of the queue |
| StarvationSimulation.AccountedEmpty | starvation_solucion.cpp/starvation_solucion.cpp/starvation_solucion.cpp.cpp:42-56 | after the reset, nothing is submitted, withdrawn or queued, and the accounting holds |
| StarvationSimulation.AccountedAfterEnqueue | starvation_solucion.cpp/starvation_solucion.cpp/starvation_solucion.cpp.cpp:185-189 | appending a submitted task to the queue keeps "submitted = withdrawn + queued" per class |
| StarvationSimulation.AccountedAfterWithdraw | starvation_solucion.cpp/starvation_solucion.cpp/starvation_solucion.cpp.cpp:279-289 | moving the selected task from the queue to the withdrawn log keeps the per-class accounting |
| StarvationSimulation.DrainedAccounting | starvation_solucion.cpp/starvation_solucion.cpp/starvation_solucion.cpp.cpp:83-116 | once the queue is drained, every submitted task of every class was processed |
| StarvationSimulation.IdsAfterEnqueue | starvation_solucion.cpp/starvation_solucion.cpp/starvation_solucion.cpp.cpp:185-189 | issuing id next_id keeps queued ids increasing, all ids below the new next_id, and withdrawn ids out of the queue |
| StarvationSimulation.IdsAfterWithdraw | starvation_solucion.cpp/starvation_solucion.cpp/starvation_solucion.cpp.cpp:279-281 | withdrawing a task keeps queue ids increasing and every task withdrawn at most once |
| StarvationSimulation.Simulation.constructor | starvation_solucion.cpp/starvation_solucion.cpp/starvation_solucion.cpp.cpp:26-40 | capacity 20, 10 s run, the fixed 30-task sequence, empty queue, zero counters, flags down |
| StarvationSimulation.Simulation.Reset | starvation_solucion.cpp/starvation_solucion.cpp/starvation_solucion.cpp.cpp:42-56 | the run's reset clears the queue, counters, flags and id counter and re-establishes the invariant |
| StarvationSimulation.Simulation.StopProduction | starvation_solucion.cpp/starvation_solucion.cpp/starvation_solucion.cpp.cpp:74-76 | raises the production stop flag, changing nothing else |
| StarvationSimulation.Simulation.StopConsumers | starvation_solucion.cpp/starvation_solucion.cpp/starvation_solucion.cpp.cpp:92-94 | raises the consumer stop flag, changing nothing else |
| StarvationSimulation.Simulation.EnqueueTask | starvation_solucion.cpp/starvation_solucion.cpp/starvation_solucion.cpp.cpp:175-192 | when stopped nothing changes; when the queue is full the producer blocks; otherwise a task with the next id and the current time is appended, and the invariants are kept |
| StarvationSimulation.Simulation.Consume | starvation_solucion.cpp/starvation_solucion.cpp/starvation_solucion.cpp.cpp:259-292 | when stopped nothing changes; an empty queue blocks; otherwise the aging selection is removed from the queue, booked to its class counter, and its processing time is returned |
| StarvationSimulation.Simulation.Book | starvation_solucion.cpp/starvation_solucion.cpp/starvation_solucion.cpp.cpp:286-289 | exactly the counter of the task's class grows by one |
| StarvationSimulation.Simulation.FinalSummary | starvation_solucion.cpp/starvation_solucion.cpp/starvation_solucion.cpp.cpp:101-116 | reports the three counters and the pending count; with nothing pending, each counter equals the tasks submitted of its class and together they equal the ids issued |
| OrderedTransfer.LockOrder | deadlock_solucion.cpp/deadlock_solucion.cpp/deadlock_solucion.cpp.cpp:77-78 | the lock pair is the transfer's two accounts, lower index first |
| OrderedTransfer.LockOrderIgnoresDirection | deadlock_solucion.cpp/deadlock_solucion.cpp/deadlock_solucion.cpp.cpp:78-82 | opposite transfers between the same accounts lock them in the same order |
| OrderedTransfer.WaitChainIncreases | deadlock_solucion.cpp/deadlock_solucion.cpp/deadlock_solucion.cpp.cpp:78-82 | along a chain of threads each waiting for a lock the next one holds, the first-locked index strictly increases |
| OrderedTransfer.NoCircularWait | deadlock_solucion.cpp/deadlock_solucion.cpp/deadlock_solucion.cpp.cpp:78-82 | ordered locking admits no circular wait, so no deadlock |
| OrderedTransfer.Apply | deadlock_solucion.cpp/deadlock_solucion.cpp/deadlock_solucion.cpp.cpp:85-93 | a covered transfer debits the source and credits the target; an uncovered one leaves the balances unchanged |
| OrderedTransfer.ApplyLeavesOthers | deadlock_solucion.cpp/deadlock_solucion.cpp/deadlock_solucion.cpp.cpp:85-87 | a transfer touches no account other than its two |
| OrderedTransfer.Succeeds | deadlock_solucion.cpp/deadlock_solucion.cpp/deadlock_solucion.cpp.cpp:85-93 | a successful transfer debits the source and credits the target by the amount; a failed one leaves every balance as it was |
| OrderedTransfer.ApplyAll | deadlock_solucion.cpp/deadlock_solucion.cpp/deadlock_solucion.cpp.cpp:76-97 | a thread's transfers applied one at a time, in order, keep the number of accounts |
| OrderedTransfer.ApplyMoves | deadlock_solucion.cpp/deadlock_solucion.cpp/deadlock_solucion.cpp.cpp:85-87 | a covered transfer is exactly the two balance updates |
| OrderedTransfer.SumToUpdate | deadlock_solucion.cpp/deadlock_solucion.cpp/deadlock_solucion.cpp.cpp:86-87 | updating one balance changes a prefix total by exactly the difference |
| OrderedTransfer.SumMove | deadlock_solucion.cpp/deadlock_solucion.cpp/deadlock_solucion.cpp.cpp:86-87 | debiting one account and crediting another by the same amount keeps the total |
| OrderedTransfer.CoveredTransferPreservesSum | deadlock_solucion.cpp/deadlock_solucion.cpp/deadlock_solucion.cpp.cpp:85-87 | a successful transfer conserves the total money |
| OrderedTransfer.ApplyPreservesSum | deadlock_solucion.cpp/deadlock_solucion.cpp/deadlock_solucion.cpp.cpp:85-93 | every transfer, successful or not, conserves the total money |
| OrderedTransfer.ApplyAllPreservesSum | deadlock_solucion.cpp/deadlock_solucion.cpp/deadlock_solucion.cpp.cpp:76-97 | any sequence of transfers conserves the total money |
| OrderedTransfer.ApplyAllKeepsNonNegative | deadlock_solucion.cpp/deadlock_solucion.cpp/deadlock_solucion.cpp.cpp:85-87 | the balance guard keeps non-negative balances non-negative under non-negative amounts |
| OrderedTransfer.Completed | deadlock_solucion.cpp/deadlock_solucion.cpp/deadlock_solucion.cpp.cpp:88 | the number of successful transfers of a run, never more than the transfers attempted |
| OrderedTransfer.InitialBalances | deadlock_solucion.cpp/deadlock_solucion.cpp/deadlock_solucion.cpp.cpp:102 | five accounts, account i opening with 1000 * (i + 1) |
| OrderedTransfer.InitialTotal | deadlock_solucion.cpp/deadlock_solucion.cpp/deadlock_solucion.cpp.cpp:102 | five non-negative accounts holding 15000 in total |
| OrderedTransfer.Schedule | deadlock_solucion.cpp/deadlock_solucion.cpp/deadlock_solucion.cpp.cpp:103-113 | ten threads, each with a list of three transfers |
| OrderedTransfer.ScheduleWellFormed | deadlock_solucion.cpp/deadlock_solucion.cpp/deadlock_solucion.cpp.cpp:103-113 | ten threads of three transfers, each between two distinct accounts of the five, with a positive amount |
| OrderedTransfer.ScheduledRunConserves | deadlock_solucion.cpp/deadlock_solucion.cpp/deadlock_solucion.cpp.cpp:101-128 | any sequence of thirty transfers drawn from the schedule, hence every interleaving of the ten threads, ends with total 15000, no negative balance, and at most 30 completed |
| OrderedTransfer.Bank.constructor | deadlock_solucion.cpp/deadlock_solucion.cpp/deadlock_solucion.cpp.cpp:101-113 | accounts hold 1000 * (i + 1), the schedule is loaded, and no transfer has completed |
| OrderedTransfer.Bank.TransferLocked | deadlock_solucion.cpp/deadlock_solucion.cpp/deadlock_solucion.cpp.cpp:77-93 | the critical section performs exactly the guarded transfer and counts it only when it succeeds |
| OrderedTransfer.Bank.DoTransferNodl | deadlock_solucion.cpp/deadlock_solucion.cpp/deadlock_solucion.cpp.cpp:75-99 | a thread's loop applies its transfers in order, counts the successful ones, and conserves the total |
| StockUpdates.ApplyOp | race_condition_solucion.cpp/race_condition_solucion.cpp/race_condition_solucion.cpp.cpp:35-53 | one operation keeps the number of products and changes its product by minus its sale or plus its restock |
| StockUpdates.ApplyOps | race_condition_solucion.cpp/race_condition_solucion.cpp/race_condition_solucion.cpp.cpp:92-106 | running operations in sequence keeps the number of products |
| StockUpdates.FinalStock | race_condition_solucion.cpp/race_condition_solucion.cpp/race_condition_solucion.cpp.cpp:35-53 | after any sequence of operations a product's stock is its start value minus its sales plus its restocks |
| StockUpdates.VolumeRemoveAt | race_condition_solucion.cpp/race_condition_solucion.cpp/race_condition_solucion.cpp.cpp:92-102 | a product's sales (restocks) split into one operation's share and the rest's |
| StockUpdates.VolumePermutation | race_condition_solucion.cpp/race_condition_solucion.cpp/race_condition_solucion.cpp.cpp:92-106 | a product's total sales and restocks do not depend on the order of the operations |
| StockUpdates.PermutationValid | race_condition_solucion.cpp/race_condition_solucion.cpp/race_condition_solucion.cpp.cpp:92-102 | reordering valid operations keeps them valid |
| StockUpdates.OrderIndependence | race_condition_solucion.cpp/race_condition_solucion.cpp/race_condition_solucion.cpp.cpp:92-106 | every order of the same operations leads to the same final stock |
| StockUpdates.OwnOperationsOnly | race_condition_solucion.cpp/race_condition_solucion.cpp/race_condition_solucion.cpp.cpp:35-53 | an operation on another product does not change this product's final stock |
| StockUpdates.VolumeNone | race_condition_solucion.cpp/race_condition_solucion.cpp/race_condition_solucion.cpp.cpp:62-86 | a product no operation touches has no sales (restocks) |
| StockUpdates.VolumeSingle | race_condition_solucion.cpp/race_condition_solucion.cpp/race_condition_solucion.cpp.cpp:62-86 | a product touched by one sale (restock) has exactly that volume |
| StockUpdates.Operations | race_condition_solucion.cpp/race_condition_solucion.cpp/race_condition_solucion.cpp.cpp:62-86 | the run has twenty operations |
| StockUpdates.OperationsValid | race_condition_solucion.cpp/race_condition_solucion.cpp/race_condition_solucion.cpp.cpp:62-86 | all twenty operations name one of the ten products |
| StockUpdates.ExpectedVolumeProduct0 | race_condition_solucion.cpp/race_condition_solucion.cpp/race_condition_solucion.cpp.cpp:108 | product 0 sells 10 and restocks 30, so it ends at 120 |
| StockUpdates.ExpectedVolumeProduct5 | race_condition_solucion.cpp/race_condition_solucion.cpp/race_condition_solucion.cpp.cpp:109 | product 5 sells 15 and restocks 25, so it ends at 110 |
| StockUpdates.PermutedStock | race_condition_solucion.cpp/race_condition_solucion.cpp/race_condition_solucion.cpp.cpp:92-106 | any reordering of the operations ends with each product at start - sales + restocks of the original list |
| StockUpdates.ScheduledStocks | race_condition_solucion.cpp/race_condition_solucion.cpp/race_condition_solucion.cpp.cpp:57-106 | from the initial stock of 100, every order of the twenty operations gives each product 100 - sales + restocks |
| StockUpdates.InitialStocksUniform | race_condition_solucion.cpp/race_condition_solucion.cpp/race_condition_solucion.cpp.cpp:12-14 | the initial stock (InitialStocks) has ten products, each at 100 |
| StockUpdates.ScheduledExpected | race_condition_solucion.cpp/race_condition_solucion.cpp/race_condition_solucion.cpp.cpp:104-113 | every order of the twenty operations ends with product 0 at 120 and product 5 at 110 |
| StockUpdates.Vender | race_condition_solucion.cpp/race_condition_solucion.cpp/race_condition_solucion.cpp.cpp:35-43 | a sale lowers its product's stock by the quantity and touches no other product |
| StockUpdates.Reabastecer | race_condition_solucion.cpp/race_condition_solucion.cpp/race_condition_solucion.cpp.cpp:45-53 | a restock raises its product's stock by the quantity and touches no other product |
| StockUpdates.InitStock | race_condition_solucion.cpp/race_condition_solucion.cpp/race_condition_solucion.cpp.cpp:57-59 | every product starts at 100 |
| StockUpdates.RunOperation | race_condition_solucion.cpp/race_condition_solucion.cpp/race_condition_solucion.cpp.cpp:93-101 | a thread body performs its one sale or restock |
| StockUpdates.RunOperations | race_condition_solucion.cpp/race_condition_solucion.cpp/race_condition_solucion.cpp.cpp:92-106 | the threads' critical sections, in the order they ran, give the sequential result |
| StockUpdates.CheckExpected | race_condition_solucion.cpp/race_condition_solucion.cpp/race_condition_solucion.cpp.cpp:108-113 | the run's verdict is correct exactly when product 0 is 120 and product 5 is 110 |
| StockUpdates.RunScheduled | race_condition_solucion.cpp/race_condition_solucion.cpp/race_condition_solucion.cpp.cpp:92-106 | the threads, in any order of their operations, leave every product at its starting 100 minus its sales plus its restocks |
| StockUpdates.RunSingleSimulation | race_condition_solucion.cpp/race_condition_solucion.cpp/race_condition_solucion.cpp.cpp:55-119 | in every order of the threads, every product ends at 100 minus its sales plus its restocks, so product 0 ends at 120 and product 5 at 110, and the run reports success |

## Left out

- Threads, mutexes, `std::lock`, condition variables and their notifications. Interleavings are parameters: a sequence of consumer and producer steps, a transfer order, or a stock-operation `schedule`.
- Sleeps are left out: `random_sleep`, the 5 ms production pause, the 20 ms pause after a transfer, and the processing sleep. `Consume` returns the processing time instead of sleeping.
- Clocks. `steady_clock` becomes an integer millisecond parameter `now`, and the 10-second run length is only a field. The elapsed-time measurement and the log timestamps are left out.
- The producer loop. `random_task_type` and its 10/30/60 distribution are random. Producer 0's fixed sequence is kept as the `initialSequence` field, and any class can be passed to `EnqueueTask`.
- The drain loop in `run` polls the queue until it is empty. `DrainedAccounting` states what holds once it ends.
- The monitor thread, `log_event` and all printing.
- `main` of the stock program repeats the run ten times. Every run starts from `InitStock`, so one run is modelled.
- The C++11 `construct_at` shim and `Account`'s move operations, which only support building the account vector. `Account`'s id equals its index and is not stored separately.
- OrderedTransfer.NoCircularWait: states that holding the low lock while waiting for the high one admits no circular wait. The program acquires both locks through `std::lock`, whose own deadlock-avoiding algorithm (a sequence of lock, try_lock and unlock calls) is not modelled.
- OrderedTransfer.ValidTransfer: excludes transfers from an account to itself. Such a transfer would hand `std::lock` the same mutex twice, and the schedule contains none.
- StarvationSimulation.Simulation.Consume: withdrawing a task and booking it on its class counter are one atomic step. In the program the counter is bumped after the queue lock is released, so between the two an observer such as the monitor can see a task that is neither queued nor counted. The per-class accounting holds between whole consumer rounds.
- StarvationSimulation.Simulation.Reset: `initialDone` is set only by producer 0 at the end of the fixed sequence. That producer loop is not modelled, so the field is kept only for the reset.
- `deadlock_con_problema.cpp` and `race_condition_con_problema.cpp` are not part of this model.
- AgingSelection.SelectTaskIndex: uses the exact scaled score instead of the `double` score, so rounding of `wait_ms / 200.0` is not modelled. An exact tie between classes is settled oldest-first in the model but by rounding in the C++. Example: an A task that has waited 3 ms and an M task that has waited 203 ms. The C++ keeps A, because 3.015 > 3.0149999999999997. The model ties them at 603 and keeps the older M task.
- StarvationSimulation.Simulation.EnqueueTask: `next_id` is an unbounded integer; 32-bit overflow after 2^31 tasks is not modelled.
- OrderedTransfer.Apply: balances are unbounded integers, so `long long` overflow is not modelled; the scheduled amounts keep every balance far from it.
- StockUpdates.Vender: stock is an unbounded integer, so `int` overflow is not modelled; the twenty operations keep stock between 0 and 200.
