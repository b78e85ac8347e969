/**
 * Funds transfers between accounts with ordered locking.
 *
 * Each transfer names its two account locks lower index first ("low" and
 * "high"), acquires both, and moves the amount only if the source account
 * covers it. The locks are not modelled as locks: each transfer is one
 * atomic step on the balances, which is what holding both account locks
 * guarantees. The low/high ordering is modelled, and the lemma
 * NoCircularWait shows that the discipline "hold the low lock, then wait for
 * the high one" admits no circular wait. The program hands both locks to a
 * deadlock-avoiding multi-lock acquisition, whose own algorithm is not
 * modelled.
 */
module OrderedTransfer {

  /** A transfer request: move `amount` from account `from` to account `to`. */
  datatype Transfer = Transfer(from: int, to: int, amount: int)

  /** The two account locks of a transfer, lower index first. */
  datatype LockPair = LockPair(low: int, high: int)

  /** A transfer between two distinct accounts among `n`. */
  predicate ValidTransfer(t: Transfer, n: int) {
    0 <= t.from < n && 0 <= t.to < n && t.from != t.to
  }

  /** Every transfer of `ts` is between two distinct accounts among `n`. */
  predicate AllValid(ts: seq<Transfer>, n: int) {
    forall i :: 0 <= i < |ts| ==> ValidTransfer(ts[i], n)
  }

  /** The lock order of a transfer: the smaller account index first. */
  function LockOrder(t: Transfer): (p: LockPair)
    ensures p.low <= p.high
    ensures (p.low == t.from && p.high == t.to) || (p.low == t.to && p.high == t.from)
  {
    LockPair(if t.from <= t.to then t.from else t.to, if t.from <= t.to then t.to else t.from)
  }

  /** The lock order does not depend on the direction of the transfer. */
  lemma LockOrderIgnoresDirection(t: Transfer)
    ensures LockOrder(Transfer(t.to, t.from, t.amount)) == LockOrder(t)
  {
  }

  /** Under the low-then-high discipline: transfer i holds its low lock and
      waits for its high one, which transfer i + 1 holds as its low lock. */
  ghost predicate WaitChain(ts: seq<Transfer>) {
    forall i :: 0 <= i < |ts| - 1 ==> LockOrder(ts[i]).high == LockOrder(ts[i + 1]).low
  }

  /** A circular wait: a wait chain whose last transfer waits for the lock the
      first one holds. */
  ghost predicate CircularWait(ts: seq<Transfer>) {
    |ts| > 0 && WaitChain(ts) && LockOrder(ts[|ts| - 1]).high == LockOrder(ts[0]).low
  }

  /** Along a wait chain of transfers between distinct accounts the first
      locks strictly increase. */
  lemma {:induction false} WaitChainIncreases(ts: seq<Transfer>, n: int, k: nat)
    requires AllValid(ts, n)
    requires WaitChain(ts)
    requires k < |ts|
    ensures LockOrder(ts[k]).low >= LockOrder(ts[0]).low + k
  {
    if k > 0 {
      WaitChainIncreases(ts, n, k - 1);
    }
  }

  /** Acquiring the low lock before the high one rules out a circular wait
      among transfers between distinct accounts, hence a lock-order
      deadlock. */
  lemma NoCircularWait(ts: seq<Transfer>, n: int)
    requires AllValid(ts, n)
    ensures !CircularWait(ts)
  {
    if |ts| > 0 && WaitChain(ts) {
      WaitChainIncreases(ts, n, |ts| - 1);
    }
  }

  /** The balances after one transfer: moved if the source covers the
      amount, otherwise unchanged. */
  function Apply(balances: seq<int>, t: Transfer): (r: seq<int>)
    requires ValidTransfer(t, |balances|)
    ensures |r| == |balances|
    ensures balances[t.from] >= t.amount ==>
              r[t.from] == balances[t.from] - t.amount && r[t.to] == balances[t.to] + t.amount
    ensures balances[t.from] < t.amount ==> r == balances
  {
    if balances[t.from] >= t.amount then
      balances[t.from := balances[t.from] - t.amount][t.to := balances[t.to] + t.amount]
    else
      balances
  }

  /** A transfer touches no account other than its two. */
  lemma ApplyLeavesOthers(balances: seq<int>, t: Transfer, k: nat)
    requires ValidTransfer(t, |balances|)
    requires k < |balances| && k != t.from && k != t.to
    ensures Apply(balances, t)[k] == balances[k]
  {
  }

  /** Whether a transfer on these balances succeeds: a successful one moves
      the amount, a failed one leaves every balance as it was. */
  function Succeeds(balances: seq<int>, t: Transfer): (ok: bool)
    requires ValidTransfer(t, |balances|)
    ensures ok ==> Apply(balances, t)[t.from] == balances[t.from] - t.amount
                   && Apply(balances, t)[t.to] == balances[t.to] + t.amount
    ensures !ok ==> Apply(balances, t) == balances
  {
    balances[t.from] >= t.amount
  }

  /** The balances after the transfers of `ts`, one at a time in order. */
  function ApplyAll(balances: seq<int>, ts: seq<Transfer>): (r: seq<int>)
    requires AllValid(ts, |balances|)
    ensures |r| == |balances|
  {
    if |ts| == 0 then balances
    else Apply(ApplyAll(balances, ts[..|ts| - 1]), ts[|ts| - 1])
  }

  /** How many of the transfers of `ts` succeed when run in order; never
      more than were attempted. */
  function Completed(balances: seq<int>, ts: seq<Transfer>): (c: nat)
    requires AllValid(ts, |balances|)
    ensures c <= |ts|
  {
    if |ts| == 0 then 0
    else
      var before := ApplyAll(balances, ts[..|ts| - 1]);
      Completed(balances, ts[..|ts| - 1]) + (if Succeeds(before, ts[|ts| - 1]) then 1 else 0)
  }

  /** The total of the first n entries. */
  function SumTo(s: seq<int>, n: nat): int
    requires n <= |s|
  {
    if n == 0 then 0 else SumTo(s, n - 1) + s[n - 1]
  }

  /** The total of all balances. */
  function Sum(s: seq<int>): int {
    SumTo(s, |s|)
  }

  /** Overwriting one entry changes every prefix total that covers it by
      the difference, and no other. */
  lemma {:induction false} SumToUpdate(s: seq<int>, i: nat, v: int, n: nat)
    requires i < |s| && n <= |s|
    ensures SumTo(s[i := v], n) == SumTo(s, n) + (if i < n then v - s[i] else 0)
  {
    if n > 0 {
      SumToUpdate(s, i, v, n - 1);
    }
  }

  /** Moving `x` from entry `a` to entry `b` leaves the sum unchanged. */
  lemma SumMove(s: seq<int>, r: seq<int>, a: nat, b: nat, x: int)
    requires a < |s| && b < |s| && a != b
    requires r == s[a := s[a] - x][b := s[b] + x]
    ensures Sum(r) == Sum(s)
  {
    var mid := s[a := s[a] - x];
    SumToUpdate(s, a, s[a] - x, |s|);
    SumToUpdate(mid, b, s[b] + x, |s|);
  }

  /** A covered transfer is the two-entry update of the balances. */
  lemma ApplyMoves(balances: seq<int>, t: Transfer)
    requires ValidTransfer(t, |balances|)
    requires balances[t.from] >= t.amount
    ensures Apply(balances, t)
              == balances[t.from := balances[t.from] - t.amount][t.to := balances[t.to] + t.amount]
  {
  }

  /** A covered transfer moves the amount between two entries, so it
      preserves the total. */
  lemma CoveredTransferPreservesSum(balances: seq<int>, t: Transfer)
    requires ValidTransfer(t, |balances|)
    requires balances[t.from] >= t.amount
    ensures Sum(Apply(balances, t)) == Sum(balances)
  {
    ApplyMoves(balances, t);
    SumMove(balances, Apply(balances, t), t.from, t.to, t.amount);
  }

  /** A transfer, successful or not, preserves the total of all balances. */
  lemma ApplyPreservesSum(balances: seq<int>, t: Transfer)
    requires ValidTransfer(t, |balances|)
    ensures Sum(Apply(balances, t)) == Sum(balances)
  {
    if balances[t.from] >= t.amount {
      CoveredTransferPreservesSum(balances, t);
    }
  }

  /** Any sequence of transfers preserves the total of all balances. */
  lemma {:induction false} ApplyAllPreservesSum(balances: seq<int>, ts: seq<Transfer>)
    requires AllValid(ts, |balances|)
    ensures Sum(ApplyAll(balances, ts)) == Sum(balances)
  {
    if |ts| != 0 {
      var front := ts[..|ts| - 1];
      ApplyAllPreservesSum(balances, front);
      ApplyPreservesSum(ApplyAll(balances, front), ts[|ts| - 1]);
    }
  }

  predicate NonNegative(s: seq<int>) {
    forall k :: 0 <= k < |s| ==> s[k] >= 0
  }

  /** With non-negative amounts, no transfer drives a balance below zero. */
  lemma {:induction false} ApplyAllKeepsNonNegative(balances: seq<int>, ts: seq<Transfer>)
    requires AllValid(ts, |balances|)
    requires NonNegative(balances)
    requires forall i :: 0 <= i < |ts| ==> ts[i].amount >= 0
    ensures NonNegative(ApplyAll(balances, ts))
  {
    if |ts| != 0 {
      ApplyAllKeepsNonNegative(balances, ts[..|ts| - 1]);
    }
  }

  /** The five opening balances: 1000, 2000, ..., 5000. */
  function InitialBalances(): (b: seq<int>)
    ensures |b| == 5
    ensures forall i :: 0 <= i < |b| ==> b[i] == 1000 * (i + 1)
  {
    [1000, 2000, 3000, 4000, 5000]
  }

  /** The bank starts with five non-negative balances totalling 15000. */
  lemma InitialTotal()
    ensures |InitialBalances()| == 5 && NonNegative(InitialBalances())
    ensures Sum(InitialBalances()) == 15000
  {
    var s := InitialBalances();
    assert SumTo(s, 2) == 3000;
    assert SumTo(s, 4) == 10000;
  }

  /** The transfers of the ten threads, three each. */
  function Schedule(): (s: seq<seq<Transfer>>)
    ensures |s| == 10
    ensures forall i :: 0 <= i < |s| ==> |s[i]| == 3
  {
    [ [Transfer(0, 1, 200), Transfer(1, 2, 300), Transfer(2, 0, 150)],
      [Transfer(1, 0, 250), Transfer(0, 2, 100), Transfer(2, 1, 200)],
      [Transfer(2, 3, 300), Transfer(3, 4, 400), Transfer(4, 2, 250)],
      [Transfer(3, 2, 350), Transfer(2, 4, 200), Transfer(4, 3, 300)],
      [Transfer(4, 0, 400), Transfer(0, 3, 250), Transfer(3, 4, 150)],
      [Transfer(0, 4, 300), Transfer(4, 1, 350), Transfer(1, 0, 200)],
      [Transfer(1, 3, 250), Transfer(3, 0, 300), Transfer(0, 1, 150)],
      [Transfer(2, 1, 200), Transfer(1, 4, 250), Transfer(4, 2, 300)],
      [Transfer(3, 1, 300), Transfer(1, 2, 200), Transfer(2, 3, 250)],
      [Transfer(4, 3, 350), Transfer(3, 2, 250), Transfer(2, 4, 200)] ]
  }

  /** Every transfer of the schedule is between two distinct of the five
      accounts and moves a positive amount. */
  predicate WellFormedTransfer(t: Transfer) {
    ValidTransfer(t, 5) && t.amount > 0
  }

  lemma ScheduleWellFormed()
    ensures |Schedule()| == 10
    ensures forall i :: 0 <= i < 10 ==> |Schedule()[i]| == 3
    ensures forall i, k :: 0 <= i < 10 && 0 <= k < 3 ==> WellFormedTransfer(Schedule()[i][k])
  {
  }

  /** Whatever order the thirty scheduled transfers take effect in (any
      interleaving of the ten threads), the total stays 15000, no balance goes
      negative, and at most 30 transfers complete. */
  lemma ScheduledRunConserves(ts: seq<Transfer>)
    requires |ts| == 30
    requires forall j :: 0 <= j < |ts| ==>
               exists i, k :: 0 <= i < 10 && 0 <= k < 3 && ts[j] == Schedule()[i][k]
    ensures AllValid(ts, 5)
    ensures Sum(ApplyAll(InitialBalances(), ts)) == 15000
    ensures NonNegative(ApplyAll(InitialBalances(), ts))
    ensures Completed(InitialBalances(), ts) <= 30
  {
    ScheduleWellFormed();
    InitialTotal();
    assert forall j :: 0 <= j < |ts| ==> WellFormedTransfer(ts[j]);
    ApplyAllPreservesSum(InitialBalances(), ts);
    ApplyAllKeepsNonNegative(InitialBalances(), ts);
  }

  /** The shared state of the program: the accounts' balances (account i is
      entry i), the per-thread transfer lists and the completed counter. */
  class Bank {
    var accounts: array<int>
    var threadTransfers: seq<seq<Transfer>>
    var transfersCompleted: nat

    ghost predicate Valid()
      reads this
    {
      forall i :: 0 <= i < |threadTransfers| ==> AllValid(threadTransfers[i], accounts.Length)
    }

    /** The setup: five accounts holding 1000 * (i + 1) and the ten threads'
        transfer lists. */
    constructor ()
      ensures Valid() && fresh(accounts)
      ensures accounts[..] == InitialBalances()
      ensures threadTransfers == Schedule()
      ensures transfersCompleted == 0
    {
      var a := new int[5];
      var i := 0;
      while i < 5
        invariant 0 <= i <= 5
        invariant forall k :: 0 <= k < i ==> a[k] == 1000 * (k + 1)
      {
        a[i] := 1000 * (i + 1);
        i := i + 1;
      }
      accounts := a;
      threadTransfers := Schedule();
      transfersCompleted := 0;
      ScheduleWellFormed();
    }

    /** One transfer with both account locks held, the pair named
        lower index first: the balances move only if the source covers the amount, and
        the completed counter counts the moves. */
    method TransferLocked(t: Transfer)
      requires ValidTransfer(t, accounts.Length)
      modifies accounts, this`transfersCompleted
      ensures accounts[..] == Apply(old(accounts[..]), t)
      ensures transfersCompleted
                == old(transfersCompleted) + (if Succeeds(old(accounts[..]), t) then 1 else 0)
    {
      var order := LockOrder(t);
      assert {order.low, order.high} == {t.from, t.to};
      var a, b := t.from, t.to;
      ghost var before := accounts[..];
      if accounts[a] >= t.amount {
        ApplyMoves(before, t);
        accounts[a] := accounts[a] - t.amount;
        accounts[b] := accounts[b] + t.amount;
        transfersCompleted := transfersCompleted + 1;
      }
    }

    /** The body of thread `threadNo` (1-based): its transfers in order, each
        under both account locks (named lower index first). */
    method DoTransferNodl(threadNo: int)
      requires Valid()
      requires 1 <= threadNo <= |threadTransfers|
      modifies accounts, this`transfersCompleted
      ensures Valid()
      ensures accounts[..] == ApplyAll(old(accounts[..]), threadTransfers[threadNo - 1])
      ensures transfersCompleted
                == old(transfersCompleted) + Completed(old(accounts[..]), threadTransfers[threadNo - 1])
      ensures Sum(accounts[..]) == Sum(old(accounts[..]))
    {
      var ts := threadTransfers[threadNo - 1];
      var i := 0;
      while i < |ts|
        invariant 0 <= i <= |ts|
        invariant AllValid(ts[..i], accounts.Length)
        invariant accounts[..] == ApplyAll(old(accounts[..]), ts[..i])
        invariant transfersCompleted == old(transfersCompleted) + Completed(old(accounts[..]), ts[..i])
      {
        var t := ts[i];
        assert ts[..i + 1][..i] == ts[..i];
        TransferLocked(t);
        i := i + 1;
      }
      assert ts[..|ts|] == ts;
      ApplyAllPreservesSum(old(accounts[..]), ts);
    }
  }
}
