/**
 * Serialized stock updates.
 *
 * Ten products each hold a stock level. A sale subtracts a quantity from one
 * product and a restock adds one; each is a read-modify-write of a single
 * entry done under that product's mutex, so each is one atomic step here.
 * Twenty such operations run on their own threads, in an order the model
 * leaves open: any order in which they take effect gives the same stock.
 */
module StockUpdates {
  import opened Sequences

  /** Number of products in the inventory. */
  const NumProducts: nat := 10

  /** Stock level every product starts from. */
  const InitialStock: int := 100

  /** A sale (`isSell`) or a restock of `quantity` units of one product. */
  datatype Operation = Operation(isSell: bool, productId: int, quantity: int)

  /** The operation names a product among `n`. */
  predicate ValidOp(op: Operation, n: int) {
    0 <= op.productId < n
  }

  /** Every operation of `ops` names a product among `n`. */
  predicate AllValidOps(ops: seq<Operation>, n: int) {
    forall i :: 0 <= i < |ops| ==> ValidOp(ops[i], n)
  }

  /** The stock after one operation takes effect. */
  function ApplyOp(s: seq<int>, op: Operation): (r: seq<int>)
    requires ValidOp(op, |s|)
    ensures |r| == |s|
    ensures r[op.productId]
              == s[op.productId] - Share(op, op.productId, true) + Share(op, op.productId, false)
  {
    s[op.productId := if op.isSell then s[op.productId] - op.quantity
                      else s[op.productId] + op.quantity]
  }

  /** The stock after the operations of `ops`, one at a time in order. */
  function ApplyOps(s: seq<int>, ops: seq<Operation>): (r: seq<int>)
    requires AllValidOps(ops, |s|)
    ensures |r| == |s|
  {
    if |ops| == 0 then s else ApplyOp(ApplyOps(s, ops[..|ops| - 1]), ops[|ops| - 1])
  }

  /** The units one operation sells (`sells`) or restocks (`!sells`) of
      product `p`. */
  function Share(op: Operation, p: int, sells: bool): int {
    if op.productId == p && op.isSell == sells then op.quantity else 0
  }

  /** The units of product `p` that the operations of `ops` sell (`sells`)
      or restock (`!sells`). */
  function Volume(ops: seq<Operation>, p: int, sells: bool): int {
    if |ops| == 0 then 0 else Volume(ops[..|ops| - 1], p, sells) + Share(ops[|ops| - 1], p, sells)
  }

  /** Units of product `p` sold by `ops`. */
  function Sold(ops: seq<Operation>, p: int): int {
    Volume(ops, p, true)
  }

  /** Units of product `p` restocked by `ops`. */
  function Restocked(ops: seq<Operation>, p: int): int {
    Volume(ops, p, false)
  }

  /** The final stock of a product is its initial stock minus what was sold
      plus what was restocked. */
  lemma {:induction false} FinalStock(s: seq<int>, ops: seq<Operation>, p: int)
    requires AllValidOps(ops, |s|)
    requires 0 <= p < |s|
    ensures ApplyOps(s, ops)[p] == s[p] - Sold(ops, p) + Restocked(ops, p)
  {
    if |ops| != 0 {
      FinalStock(s, ops[..|ops| - 1], p);
    }
  }

  /** Taking one operation out lowers a volume by that operation's share. */
  lemma {:induction false} VolumeRemoveAt(ops: seq<Operation>, i: nat, p: int, sells: bool)
    requires i < |ops|
    ensures Volume(ops, p, sells) == Volume(RemoveAt(ops, i), p, sells) + Share(ops[i], p, sells)
  {
    var n := |ops| - 1;
    if i < n {
      var front := ops[..n];
      VolumeRemoveAt(front, i, p, sells);
      var r := RemoveAt(ops, i);
      assert r[..|r| - 1] == RemoveAt(front, i);
      assert r[|r| - 1] == ops[n];
    } else {
      assert RemoveAt(ops, i) == ops[..n];
    }
  }

  /** A volume depends only on which operations there are, not on their order. */
  lemma {:induction false} VolumePermutation(a: seq<Operation>, b: seq<Operation>, p: int, sells: bool)
    requires multiset(a) == multiset(b)
    ensures Volume(a, p, sells) == Volume(b, p, sells)
    decreases |a|
  {
    if |a| == 0 {
      assert |b| == |multiset(b)| == 0;
    } else {
      var n := |a| - 1;
      var x := a[n];
      assert x in multiset(b);
      var j :| 0 <= j < |b| && b[j] == x;
      var rest := RemoveAt(b, j);
      assert a == a[..n] + [x];
      assert multiset(a[..n]) == multiset(rest) by {
        calc {
          multiset(a[..n]);
          multiset(a) - multiset{x};
          multiset(b) - multiset{x};
          multiset(rest);
        }
      }
      VolumePermutation(a[..n], rest, p, sells);
      VolumeRemoveAt(b, j, p, sells);
    }
  }

  /** Operations that are a reordering of valid operations are valid. */
  lemma PermutationValid(a: seq<Operation>, b: seq<Operation>, n: int)
    requires multiset(a) == multiset(b)
    requires AllValidOps(a, n)
    ensures AllValidOps(b, n)
  {
    forall k | 0 <= k < |b|
      ensures ValidOp(b[k], n)
    {
      assert b[k] in multiset(a);
    }
  }

  /** With every operation serialized by its product's lock, the order in
      which the operations take effect does not change the final stock. */
  lemma OrderIndependence(s: seq<int>, a: seq<Operation>, b: seq<Operation>)
    requires multiset(a) == multiset(b)
    requires AllValidOps(a, |s|)
    ensures AllValidOps(b, |s|)
    ensures ApplyOps(s, a) == ApplyOps(s, b)
  {
    PermutationValid(a, b, |s|);
    forall p | 0 <= p < |s|
      ensures ApplyOps(s, a)[p] == ApplyOps(s, b)[p]
    {
      FinalStock(s, a, p);
      FinalStock(s, b, p);
      VolumePermutation(a, b, p, true);
      VolumePermutation(a, b, p, false);
    }
  }

  /** An operation on another product has no effect on the stock of `p`:
      each product's final value depends only on its own operations. */
  lemma OwnOperationsOnly(s: seq<int>, ops: seq<Operation>, i: nat, p: int)
    requires AllValidOps(ops, |s|)
    requires 0 <= p < |s|
    requires i < |ops| && ops[i].productId != p
    ensures AllValidOps(RemoveAt(ops, i), |s|)
    ensures ApplyOps(s, ops)[p] == ApplyOps(s, RemoveAt(ops, i))[p]
  {
    var r := RemoveAt(ops, i);
    forall k | 0 <= k < |r|
      ensures ValidOp(r[k], |s|)
    {
      assert r[k] in multiset(ops);
    }
    FinalStock(s, ops, p);
    FinalStock(s, r, p);
    VolumeRemoveAt(ops, i, p, true);
    VolumeRemoveAt(ops, i, p, false);
  }

  /** The twenty operations of one simulation run: five sales and five
      restocks on products 0-4, then the same on products 5-9. */
  function Operations(): (ops: seq<Operation>)
    ensures |ops| == 20
  {
    [ Operation(true, 0, 10), Operation(true, 1, 15), Operation(true, 2, 20),
      Operation(true, 3, 5), Operation(true, 4, 25),
      Operation(false, 0, 30), Operation(false, 1, 20), Operation(false, 2, 40),
      Operation(false, 3, 10), Operation(false, 4, 35),
      Operation(true, 5, 15), Operation(true, 6, 20), Operation(true, 7, 10),
      Operation(true, 8, 25), Operation(true, 9, 15),
      Operation(false, 5, 25), Operation(false, 6, 30), Operation(false, 7, 15),
      Operation(false, 8, 40), Operation(false, 9, 20) ]
  }

  /** Operations that sell or restock nothing of `p` add up to zero. */
  lemma {:induction false} VolumeNone(ops: seq<Operation>, p: int, sells: bool)
    requires forall k :: 0 <= k < |ops| ==> Share(ops[k], p, sells) == 0
    ensures Volume(ops, p, sells) == 0
  {
    if |ops| != 0 {
      VolumeNone(ops[..|ops| - 1], p, sells);
    }
  }

  /** When only the i-th operation sells (or restocks) product `p`, the
      volume is that operation's quantity. */
  lemma VolumeSingle(ops: seq<Operation>, i: nat, p: int, sells: bool)
    requires i < |ops|
    requires forall k :: 0 <= k < |ops| && k != i ==> Share(ops[k], p, sells) == 0
    ensures Volume(ops, p, sells) == Share(ops[i], p, sells)
  {
    var r := RemoveAt(ops, i);
    forall k | 0 <= k < |r|
      ensures Share(r[k], p, sells) == 0
    {
      if k < i {
        assert r[k] == ops[k];
      } else {
        assert r[k] == ops[k + 1];
      }
    }
    VolumeNone(r, p, sells);
    VolumeRemoveAt(ops, i, p, sells);
  }

  /** Every operation of the run names one of the ten products. */
  lemma OperationsValid()
    ensures AllValidOps(Operations(), NumProducts)
  {
  }

  /** Product 0 sells 10 and restocks 30, so its expected final stock is
      100 - 10 + 30 = 120. */
  lemma ExpectedVolumeProduct0()
    ensures Sold(Operations(), 0) == 10 && Restocked(Operations(), 0) == 30
    ensures InitialStock - Sold(Operations(), 0) + Restocked(Operations(), 0) == 120
  {
    VolumeSingle(Operations(), 0, 0, true);
    VolumeSingle(Operations(), 5, 0, false);
  }

  /** Product 5 sells 15 and restocks 25, so its expected final stock is
      100 - 15 + 25 = 110. */
  lemma ExpectedVolumeProduct5()
    ensures Sold(Operations(), 5) == 15 && Restocked(Operations(), 5) == 25
    ensures InitialStock - Sold(Operations(), 5) + Restocked(Operations(), 5) == 110
  {
    VolumeSingle(Operations(), 10, 5, true);
    VolumeSingle(Operations(), 15, 5, false);
  }

  /** Operations applied in any reordering of `ops` leave product `p` at
      its initial stock minus the sales plus the restocks of `ops`. */
  lemma PermutedStock(s: seq<int>, ops: seq<Operation>, schedule: seq<Operation>, p: int)
    requires multiset(schedule) == multiset(ops)
    requires AllValidOps(ops, |s|)
    requires 0 <= p < |s|
    ensures AllValidOps(schedule, |s|)
    ensures ApplyOps(s, schedule)[p] == s[p] - Sold(ops, p) + Restocked(ops, p)
  {
    PermutationValid(ops, schedule, |s|);
    FinalStock(s, schedule, p);
    VolumePermutation(schedule, ops, p, true);
    VolumePermutation(schedule, ops, p, false);
  }

  /** Whatever order the twenty operations take effect in, starting from
      the initial stock every product ends at the initial stock minus its
      sales plus its restocks. */
  lemma ScheduledStocks(s: seq<int>, schedule: seq<Operation>)
    requires |s| == NumProducts
    requires forall k :: 0 <= k < |s| ==> s[k] == InitialStock
    requires multiset(schedule) == multiset(Operations())
    ensures AllValidOps(schedule, |s|)
    ensures forall p :: 0 <= p < |s| ==>
              ApplyOps(s, schedule)[p] == InitialStock - Sold(Operations(), p) + Restocked(Operations(), p)
  {
    OperationsValid();
    PermutationValid(Operations(), schedule, |s|);
    forall p | 0 <= p < |s|
      ensures ApplyOps(s, schedule)[p] == InitialStock - Sold(Operations(), p) + Restocked(Operations(), p)
    {
      PermutedStock(s, Operations(), schedule, p);
    }
  }

  /** The stock right after initialization: every product at 100. */
  function InitialStocks(): seq<int> {
    [InitialStock, InitialStock, InitialStock, InitialStock, InitialStock,
     InitialStock, InitialStock, InitialStock, InitialStock, InitialStock]
  }

  /** The initial stock holds the initial level for each of the ten products. */
  lemma InitialStocksUniform()
    ensures |InitialStocks()| == NumProducts
    ensures forall k :: 0 <= k < |InitialStocks()| ==> InitialStocks()[k] == InitialStock
  {
  }

  /** Whatever order the twenty operations take effect in, product 0 ends
      at 120 and product 5 at 110: the run is always judged correct. */
  lemma ScheduledExpected(schedule: seq<Operation>)
    requires multiset(schedule) == multiset(Operations())
    ensures AllValidOps(schedule, NumProducts)
    ensures ApplyOps(InitialStocks(), schedule)[0] == 120
    ensures ApplyOps(InitialStocks(), schedule)[5] == 110
  {
    InitialStocksUniform();
    ScheduledStocks(InitialStocks(), schedule);
    ExpectedVolumeProduct0();
    ExpectedVolumeProduct5();
  }

  /** A sale: under the product's lock, read the stock and write it back
      lowered by `quantity`. */
  method Vender(stock: array<int>, productId: int, quantity: int)
    requires 0 <= productId < stock.Length
    modifies stock
    ensures stock[productId] == old(stock[productId]) - quantity
    ensures forall k :: 0 <= k < stock.Length && k != productId ==> stock[k] == old(stock[k])
    ensures stock[..] == ApplyOp(old(stock[..]), Operation(true, productId, quantity))
  {
    var current := stock[productId];
    stock[productId] := current - quantity;
  }

  /** A restock: under the product's lock, read the stock and write it back
      raised by `quantity`. */
  method Reabastecer(stock: array<int>, productId: int, quantity: int)
    requires 0 <= productId < stock.Length
    modifies stock
    ensures stock[productId] == old(stock[productId]) + quantity
    ensures forall k :: 0 <= k < stock.Length && k != productId ==> stock[k] == old(stock[k])
    ensures stock[..] == ApplyOp(old(stock[..]), Operation(false, productId, quantity))
  {
    var current := stock[productId];
    stock[productId] := current + quantity;
  }

  /** Sets every product's stock to the initial level. */
  method InitStock(stock: array<int>)
    requires stock.Length == NumProducts
    modifies stock
    ensures forall i :: 0 <= i < stock.Length ==> stock[i] == InitialStock
    ensures stock[..] == InitialStocks()
  {
    var i := 0;
    while i < NumProducts
      invariant 0 <= i <= NumProducts
      invariant forall k :: 0 <= k < i ==> stock[k] == InitialStock
    {
      stock[i] := InitialStock;
      i := i + 1;
    }
  }

  /** The body of one operation's thread: a sale or a restock. */
  method RunOperation(stock: array<int>, op: Operation)
    requires ValidOp(op, stock.Length)
    modifies stock
    ensures stock[..] == ApplyOp(old(stock[..]), op)
  {
    if op.isSell {
      Vender(stock, op.productId, op.quantity);
    } else {
      Reabastecer(stock, op.productId, op.quantity);
    }
  }

  /** The operations take effect one at a time in the order of `schedule`,
      each under its product's lock. */
  method RunOperations(stock: array<int>, schedule: seq<Operation>)
    requires AllValidOps(schedule, stock.Length)
    modifies stock
    ensures stock[..] == ApplyOps(old(stock[..]), schedule)
  {
    var i := 0;
    while i < |schedule|
      invariant 0 <= i <= |schedule|
      invariant stock[..] == ApplyOps(old(stock[..]), schedule[..i])
    {
      assert schedule[..i + 1][..i] == schedule[..i];
      RunOperation(stock, schedule[i]);
      i := i + 1;
    }
    assert schedule[..|schedule|] == schedule;
  }

  /** The check after the threads are joined: products 0 and 5 against
      their expected values 100 - 10 + 30 and 100 - 15 + 25. */
  method CheckExpected(stock: array<int>) returns (ok0: bool, ok5: bool, allOk: bool)
    requires stock.Length == NumProducts
    ensures ok0 <==> stock[0] == 120
    ensures ok5 <==> stock[5] == 110
    ensures allOk <==> ok0 && ok5
  {
    var expected0 := InitialStock - 10 + 30;
    var expected5 := InitialStock - 15 + 25;
    ok0 := stock[0] == expected0;
    ok5 := stock[5] == expected5;
    allOk := ok0 && ok5;
  }

  /** The threads of `ops`, in the order `schedule`, run on a stock where
      every product is at the initial level: every product ends at that
      level minus its sales plus its restocks. */
  method RunScheduled(stock: array<int>, ops: seq<Operation>, schedule: seq<Operation>)
    requires stock.Length == NumProducts
    requires forall k :: 0 <= k < stock.Length ==> stock[k] == InitialStock
    requires AllValidOps(ops, NumProducts)
    requires multiset(schedule) == multiset(ops)
    modifies stock
    ensures forall p :: 0 <= p < NumProducts ==>
              stock[p] == InitialStock - Sold(ops, p) + Restocked(ops, p)
  {
    ghost var init := stock[..];
    PermutationValid(ops, schedule, NumProducts);
    RunOperations(stock, schedule);
    ghost var fin := stock[..];
    forall p | 0 <= p < NumProducts
      ensures fin[p] == InitialStock - Sold(ops, p) + Restocked(ops, p)
    {
      PermutedStock(init, ops, schedule, p);
    }
  }

  /** One simulation run: initialize the stock, let the twenty operations
      take effect in the order `schedule` (the order in which their threads
      got the product locks), and check products 0 and 5 against the expected
      values. */
  method RunSingleSimulation(stock: array<int>, schedule: seq<Operation>)
      returns (ok0: bool, ok5: bool, allOk: bool)
    requires stock.Length == NumProducts
    requires multiset(schedule) == multiset(Operations())
    modifies stock
    ensures forall p :: 0 <= p < NumProducts ==>
              stock[p] == InitialStock - Sold(Operations(), p) + Restocked(Operations(), p)
    ensures stock[0] == 120 && stock[5] == 110
    ensures ok0 && ok5 && allOk
  {
    InitStock(stock);
    OperationsValid();
    RunScheduled(stock, Operations(), schedule);
    ExpectedVolumeProduct0();
    ExpectedVolumeProduct5();
    ok0, ok5, allOk := CheckExpected(stock);
  }
}
