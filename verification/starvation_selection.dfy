/**
 * Aging-based task selection of the starvation-free scheduler.
 *
 * A queued task is scored as `base_priority(type) + wait_ms / 200`. The
 * model multiplies that score by the aging interval (200 ms), so a score is
 * the exact integer `200 * base + wait_ms` and comparisons between scores
 * are exact. The clock is an integer number of milliseconds.
 */
module AgingSelection {

  /** One queued unit of work: its class ('A', 'M' or 'B'), its id and the
      millisecond at which it entered the queue. */
  datatype Task = Task(kind: char, id: int, enqueueTime: int)

  /** Milliseconds of waiting that are worth one level of base priority. */
  const AgingIntervalMs: int := 200

  /** The largest base priority of any class ('A'). */
  const MaxBasePriority: nat := 3

  /** The initial best score of the selection scan (-1e9 in unscaled units). */
  const ScoreSentinel: int := -1_000_000_000 * AgingIntervalMs

  /** Static priority of a class: A > M > B, anything else 0. */
  function BasePriority(kind: char): (p: nat)
    ensures p <= MaxBasePriority
    ensures p == 0 <==> kind != 'A' && kind != 'M' && kind != 'B'
  {
    match kind
    case 'A' => 3
    case 'M' => 2
    case 'B' => 1
    case _ => 0
  }

  /** Simulated processing time of a class in milliseconds. */
  function ProcessingTimeMs(kind: char): (ms: nat)
    ensures 50 <= ms <= 150
  {
    match kind
    case 'A' => 50
    case 'M' => 100
    case 'B' => 150
    case _ => 100
  }

  /** Milliseconds the task has spent in the queue at time `now`; never
      negative once the task is enqueued. */
  function WaitMs(t: Task, now: int): (w: int)
    ensures w >= 0 <==> t.enqueueTime <= now
  {
    now - t.enqueueTime
  }

  /** The effective priority, scaled by the aging interval. */
  function Score(t: Task, now: int): int {
    AgingIntervalMs * BasePriority(t.kind) + WaitMs(t, now)
  }

  /** The scaled score is exactly 200 times `base + wait_ms / 200` computed
      without rounding, so scaled scores compare as the unrounded ones do. */
  lemma ScoreScalesEffectivePriority(t: Task, u: Task, now: int)
    ensures Score(t, now) as real
              == AgingIntervalMs as real
                 * (BasePriority(t.kind) as real + WaitMs(t, now) as real / AgingIntervalMs as real)
    ensures Score(t, now) < Score(u, now)
            <==> BasePriority(t.kind) as real + WaitMs(t, now) as real / AgingIntervalMs as real
                 < BasePriority(u.kind) as real + WaitMs(u, now) as real / AgingIntervalMs as real
  {
  }

  /** `idx` is the task the scan over q[..n] settles on: its score is maximal,
      no task of that score entered earlier, and every earlier index with the
      same score entered strictly later (the first of the oldest wins). */
  ghost predicate IsBestAmong(q: seq<Task>, now: int, idx: nat, n: nat)
    requires n <= |q|
  {
    && idx < n
    && (forall j :: 0 <= j < n ==> Score(q[j], now) <= Score(q[idx], now))
    && (forall j :: 0 <= j < n && Score(q[j], now) == Score(q[idx], now) ==>
          q[idx].enqueueTime <= q[j].enqueueTime)
    && (forall j :: 0 <= j < idx && Score(q[j], now) == Score(q[idx], now) ==>
          q[idx].enqueueTime < q[j].enqueueTime)
  }

  /** `idx` is the task the aging policy must withdraw from q at time `now`. */
  ghost predicate IsSelection(q: seq<Task>, now: int, idx: nat) {
    IsBestAmong(q, now, idx, |q|)
  }

  /** Every queued task entered the queue no later than `now`
      (the scheduler's clock is monotonic). */
  predicate EnqueuedBy(q: seq<Task>, now: int) {
    forall i :: 0 <= i < |q| ==> q[i].enqueueTime <= now
  }

  /** The linear scan of the queue: strict maximum of the score, ties broken
      by the earlier enqueue time. An empty queue yields index 0. */
  method SelectTaskIndex(q: seq<Task>, now: int) returns (idx: nat)
    requires EnqueuedBy(q, now)
    ensures q == [] ==> idx == 0
    ensures q != [] ==> IsSelection(q, now, idx)
  {
    idx := 0;
    if |q| == 0 {
      return;
    }
    var bestScore := ScoreSentinel;
    var i := 0;
    while i < |q|
      invariant 0 <= i <= |q|
      invariant idx < |q|
      invariant i == 0 ==> idx == 0 && bestScore == ScoreSentinel
      invariant 0 < i ==> bestScore == Score(q[idx], now) && IsBestAmong(q, now, idx, i)
    {
      var t := q[i];
      var score := Score(t, now);
      if score > bestScore {
        bestScore := score;
        idx := i;
      } else if score == bestScore {
        if t.enqueueTime < q[idx].enqueueTime {
          idx := i;
        }
      }
      i := i + 1;
    }
  }

  /** The base priorities are strictly ordered A > M > B, and every class
      other than these three has the lowest priority. */
  lemma ClassOrder(other: char)
    requires other != 'A' && other != 'M' && other != 'B'
    ensures BasePriority('A') > BasePriority('M') > BasePriority('B') > BasePriority(other)
    ensures BasePriority(other) == 0
  {
  }

  /** A higher class is processed faster: A takes less time than M, M less than B. */
  lemma HigherClassShorterWork()
    ensures ProcessingTimeMs('A') < ProcessingTimeMs('M') < ProcessingTimeMs('B')
  {
  }

  /** The selection rule picks exactly one index: the tie-break is deterministic. */
  lemma SelectionUnique(q: seq<Task>, now: int, i: nat, k: nat)
    requires IsSelection(q, now, i) && IsSelection(q, now, k)
    ensures i == k
  {
    assert Score(q[i], now) == Score(q[k], now);
    assert q[i].enqueueTime == q[k].enqueueTime;
  }

  /** With equal waits the higher class outscores the lower one, so the lower
      one is not withdrawn while the higher one is queued. */
  lemma HigherClassWinsOnEqualWait(q: seq<Task>, now: int, idx: nat, hi: nat, lo: nat)
    requires IsSelection(q, now, idx)
    requires hi < |q| && lo < |q|
    requires WaitMs(q[hi], now) == WaitMs(q[lo], now)
    requires BasePriority(q[hi].kind) > BasePriority(q[lo].kind)
    ensures Score(q[hi], now) > Score(q[lo], now)
    ensures idx != lo
  {
  }

  /** Aging: a 'B' task that has waited more than 400 ms longer than an 'A'
      task outscores it, so the 'A' task is not the one withdrawn. */
  lemma AgedLowOvertakesHigh(q: seq<Task>, now: int, idx: nat, b: nat, a: nat)
    requires IsSelection(q, now, idx)
    requires b < |q| && a < |q|
    requires q[b].kind == 'B' && q[a].kind == 'A'
    requires WaitMs(q[b], now) > WaitMs(q[a], now) + 2 * AgingIntervalMs
    ensures Score(q[b], now) > Score(q[a], now)
    ensures idx != a
  {
  }

  /** Bounded overtaking: a task withdrawn ahead of a queued task t entered
      the queue at most 200 ms per level of priority it has over t after t,
      hence never more than 600 ms after t. */
  lemma OvertakerEnqueuedWithinWindow(q: seq<Task>, now: int, idx: nat, t: nat)
    requires IsSelection(q, now, idx)
    requires t < |q|
    ensures q[idx].enqueueTime - q[t].enqueueTime
              <= AgingIntervalMs * (BasePriority(q[idx].kind) - BasePriority(q[t].kind))
    ensures q[idx].enqueueTime <= q[t].enqueueTime + AgingIntervalMs * MaxBasePriority
  {
    assert Score(q[t], now) <= Score(q[idx], now);
  }

  /** No starvation: a task that entered the queue at least 600 ms before
      every other queued task is the one withdrawn, whatever the classes. */
  lemma OldestByMarginIsSelected(q: seq<Task>, now: int, idx: nat, i: nat)
    requires IsSelection(q, now, idx)
    requires i < |q|
    requires forall j :: 0 <= j < |q| && j != i ==>
               q[i].enqueueTime + AgingIntervalMs * MaxBasePriority <= q[j].enqueueTime
    ensures idx == i
  {
    OvertakerEnqueuedWithinWindow(q, now, idx, i);
  }
}
