/**
 * The commit half of the three stock movements, shared by the localStorage
 * backend and the Express mock server: what is appended to the tables and
 * how the warehouse count moves once a request has passed validation.
 *
 * The lemmas here are the ledger's conservation facts: how each commit moves
 * a staff member's holding, and that the warehouse count plus what is still
 * out with staff (`stock_qty + distributed - returned`) is unchanged by a
 * transfer with one line per product and by any return.
 */
module Movements {
  import opened Outcomes
  import opened Sums
  import opened Ledger

  // ---------------------------------------------------------------------------
  // Commits
  // ---------------------------------------------------------------------------

  /**
   * Commit of a transfer to `to`: a header with id `transfers.length + 1`,
   * then for each line (in order) the product's count becomes
   * `Math.max(0, stock - qty)` and a transfer line is written.
   */
  function CommitTransfer(s: State, to: int, items: seq<Item>): (r: State)
    ensures r.transfers == s.transfers + [Batch(|s.transfers| + 1, to)]
    ensures r.users == s.users && r.returnBatches == s.returnBatches && r.returnItems == s.returnItems && r.userTxs == s.userTxs
    ensures |r.products| == |s.products|
  {
    var id := |s.transfers| + 1;
    s.(transfers := s.transfers + [Batch(id, to)],
       products := MoveStock(s.products, items, true),
       transferItems := s.transferItems + BatchLinesFor(s.products, items, id, |s.transferItems| + 1))
  }

  /**
   * Commit of a return by `staff`: a header with id `returns.length + 1`,
   * then for each line whose product exists the count grows by `qty`, and a
   * return line and a `RETURN` user transaction are written.
   */
  function CommitReturn(s: State, staff: int, items: seq<Item>): (r: State)
    ensures r.returnBatches == s.returnBatches + [Batch(|s.returnBatches| + 1, staff)]
    ensures r.users == s.users && r.transfers == s.transfers && r.transferItems == s.transferItems
    ensures |r.products| == |s.products|
    ensures |s.userTxs| <= |r.userTxs| && r.userTxs[..|s.userTxs|] == s.userTxs
  {
    var id := |s.returnBatches| + 1;
    s.(returnBatches := s.returnBatches + [Batch(id, staff)],
       products := MoveStock(s.products, items, false),
       returnItems := s.returnItems + BatchLinesFor(s.products, items, id, |s.returnItems| + 1),
       userTxs := s.userTxs + ReturnTxsFor(s.products, items, staff))
  }

  /** The user transactions a sale or job return writes: one per line, in order. */
  function SaleRows(user: int, items: seq<Item>, txType: string, customer: string): (r: seq<UserTx>)
    ensures |r| == |items|
    ensures forall i :: 0 <= i < |items| ==>
      r[i] == UserTx(user, items[i].productId, items[i].qty, txType, Some(customer))
  {
    seq(|items|, i requires 0 <= i < |items| => UserTx(user, items[i].productId, items[i].qty, txType, Some(customer)))
  }

  // ---------------------------------------------------------------------------
  // Table shape
  // ---------------------------------------------------------------------------

  lemma CommitTransferWellFormed(s: State, to: int, items: seq<Item>)
    requires WellFormed(s)
    ensures WellFormed(CommitTransfer(s, to, items))
  {
  }

  lemma CommitReturnWellFormed(s: State, staff: int, items: seq<Item>)
    requires WellFormed(s)
    ensures WellFormed(CommitReturn(s, staff, items))
  {
  }

  // ---------------------------------------------------------------------------
  // Holdings
  // ---------------------------------------------------------------------------

  /** A committed transfer raises the recipient's holding of `p` by the requested quantity and no one else's. */
  lemma CommitTransferHolding(s: State, to: int, items: seq<Item>, staff: int, p: int)
    requires WellFormed(s) && AllPresent(s.products, items)
    ensures Holding(CommitTransfer(s, to, items), staff, p)
         == Holding(s, staff, p) + (if staff == to then SumOf(items, ItemQtyFor(p)) else 0)
  {
    var nl := BatchLinesFor(s.products, items, |s.transfers| + 1, |s.transferItems| + 1);
    BatchedQtyAfterAppend(s.transfers, s.transferItems, to, nl, staff, p);
    BatchLinesQty(s.products, items, |s.transfers| + 1, |s.transferItems| + 1, p);
  }

  /**
   * A committed return lowers the returner's holding of an existing product
   * by the quantity returned of it; lines naming an unknown product are
   * skipped, so the holding of a product that does not exist is unchanged.
   */
  lemma CommitReturnHolding(s: State, returner: int, items: seq<Item>, staff: int, p: int)
    requires WellFormed(s)
    ensures Holding(CommitReturn(s, returner, items), staff, p)
         == Holding(s, staff, p) - (if staff == returner && IndexOfProduct(s.products, p) >= 0 then SumOf(items, ItemQtyFor(p)) else 0)
  {
    var nl := BatchLinesFor(s.products, items, |s.returnBatches| + 1, |s.returnItems| + 1);
    var rt := ReturnTxsFor(s.products, items, returner);
    BatchedQtyAfterAppend(s.returnBatches, s.returnItems, returner, nl, staff, p);
    BatchLinesQtyPresent(s.products, items, |s.returnBatches| + 1, |s.returnItems| + 1, p);
    SumAppend(s.userTxs, rt, TxTerm(staff, p, TRANSFER));
    SumAppend(s.userTxs, rt, TxTerm(staff, p, JOB_RETURN));
    OtherTxsDoNotCount(rt, staff, p, TRANSFER);
    OtherTxsDoNotCount(rt, staff, p, JOB_RETURN);
  }

  /** Quantity of `p` of type `t` for `staff` in the rows a sale writes. */
  lemma {:induction false} SaleRowsQty(user: int, items: seq<Item>, txType: string, customer: string, staff: int, p: int, t: string)
    ensures TxQty(SaleRows(user, items, txType, customer), staff, p, t)
         == (if staff == user && txType == t then SumOf(items, ItemQtyFor(p)) else 0)
    decreases |items|
  {
    var rows := SaleRows(user, items, txType, customer);
    if |items| > 0 {
      SaleRowsQty(user, items[1..], txType, customer, staff, p, t);
      assert rows[1..] == SaleRows(user, items[1..], txType, customer);
    }
  }

  /**
   * Appending sale rows of type `t` moves `user`'s holding of `p` down by the
   * quantity for `TRANSFER`, up for `JOB_RETURN`, and not at all for any other type.
   */
  lemma SaleRowsHolding(s: State, user: int, items: seq<Item>, txType: string, customer: string, staff: int, p: int)
    ensures var q := if staff == user then SumOf(items, ItemQtyFor(p)) else 0;
      Holding(s.(userTxs := s.userTxs + SaleRows(user, items, txType, customer)), staff, p)
      == Holding(s, staff, p) + (if txType == TRANSFER then -q else if txType == JOB_RETURN then q else 0)
  {
    var rows := SaleRows(user, items, txType, customer);
    SumAppend(s.userTxs, rows, TxTerm(staff, p, TRANSFER));
    SumAppend(s.userTxs, rows, TxTerm(staff, p, JOB_RETURN));
    SaleRowsQty(user, items, txType, customer, staff, p, TRANSFER);
    SaleRowsQty(user, items, txType, customer, staff, p, JOB_RETURN);
  }

  // ---------------------------------------------------------------------------
  // Warehouse counts
  // ---------------------------------------------------------------------------

  /** Each product appears on at most one line of the request. */
  predicate DistinctItems(items: seq<Item>) {
    forall i, j :: 0 <= i < j < |items| ==> items[i].productId != items[j].productId
  }

  /** The line passes the transfer check: its product exists and `qty <= stock_qty`. */
  predicate Withdrawable(ps: seq<Product>, it: Item) {
    var k := IndexOfProduct(ps, it.productId);
    k >= 0 && it.qty <= ps[k].stockQty
  }

  /** A deposit (return) adds the requested quantity of each product to its count. */
  lemma {:induction false} MoveStockDeposit(ps: seq<Product>, items: seq<Item>)
    requires UniqueProductIds(ps)
    ensures forall k :: 0 <= k < |ps| ==>
      MoveStock(ps, items, false)[k].stockQty == ps[k].stockQty + SumOf(items, ItemQtyFor(ps[k].id))
    decreases |items|
  {
    if |items| > 0 {
      var ps1 := AdjustStock(ps, items[0].productId, items[0].qty, false);
      assert UniqueProductIds(ps1);
      MoveStockDeposit(ps1, items[1..]);
      forall k | 0 <= k < |ps|
        ensures ps1[k].stockQty == ps[k].stockQty + ItemQtyFor(ps[k].id)(items[0])
      {
        if ps[k].id == items[0].productId {
          assert IndexOfProduct(ps, items[0].productId) == k;
        }
      }
    }
  }

  /** One withdrawal step: it subtracts exactly, and leaves every other product's line passing the check. */
  lemma WithdrawStep(ps: seq<Product>, it: Item, rest: seq<Item>)
    requires UniqueProductIds(ps) && Withdrawable(ps, it)
    requires forall i :: 0 <= i < |rest| ==> Withdrawable(ps, rest[i]) && rest[i].productId != it.productId
    ensures var ps1 := AdjustStock(ps, it.productId, -it.qty, true);
      && UniqueProductIds(ps1)
      && (forall i :: 0 <= i < |rest| ==> Withdrawable(ps1, rest[i]))
      && (forall k :: 0 <= k < |ps| ==> ps1[k].stockQty == ps[k].stockQty - ItemQtyFor(ps[k].id)(it))
  {
    var ps1 := AdjustStock(ps, it.productId, -it.qty, true);
    var k0 := IndexOfProduct(ps, it.productId);
    forall i | 0 <= i < |rest| ensures Withdrawable(ps1, rest[i]) {
      AdjustStockKeepsIndex(ps, it.productId, -it.qty, true, rest[i].productId);
    }
    forall k | 0 <= k < |ps|
      ensures ps1[k].stockQty == ps[k].stockQty - ItemQtyFor(ps[k].id)(it)
    {
      if ps[k].id == it.productId {
        assert k0 == k;
      }
    }
  }

  /**
   * A withdrawal (transfer) whose lines name distinct products and each pass
   * the check subtracts exactly the requested quantity: the zero floor never
   * bites.
   */
  lemma {:induction false} MoveStockWithdraw(ps: seq<Product>, items: seq<Item>)
    requires UniqueProductIds(ps) && DistinctItems(items)
    requires forall i :: 0 <= i < |items| ==> Withdrawable(ps, items[i])
    ensures forall k :: 0 <= k < |ps| ==>
      MoveStock(ps, items, true)[k].stockQty == ps[k].stockQty - SumOf(items, ItemQtyFor(ps[k].id))
    decreases |items|
  {
    if |items| > 0 {
      var rest := items[1..];
      forall i | 0 <= i < |rest| ensures Withdrawable(ps, rest[i]) && rest[i].productId != items[0].productId {
        assert rest[i] == items[i + 1];
      }
      WithdrawStep(ps, items[0], rest);
      var ps1 := AdjustStock(ps, items[0].productId, -items[0].qty, true);
      MoveStockWithdraw(ps1, rest);
    }
  }

  /** Withdrawals floor every count at zero, so counts that start nonnegative stay nonnegative. */
  lemma {:induction false} MoveStockWithdrawNonnegative(ps: seq<Product>, items: seq<Item>)
    requires forall k :: 0 <= k < |ps| ==> ps[k].stockQty >= 0
    ensures forall k :: 0 <= k < |ps| ==> MoveStock(ps, items, true)[k].stockQty >= 0
    decreases |items|
  {
    if |items| > 0 {
      MoveStockWithdrawNonnegative(AdjustStock(ps, items[0].productId, -items[0].qty, true), items[1..]);
    }
  }

  /** Warehouse count plus what is still out with staff, for product `p`. */
  function WarehouseBalance(s: State, p: int): int
    requires 0 <= IndexOfProduct(s.products, p)
  {
    s.products[IndexOfProduct(s.products, p)].stockQty + LinesQty(s.transferItems, p) - LinesQty(s.returnItems, p)
  }

  /** A validated transfer with one line per product moves quantity from the warehouse to staff and creates none. */
  lemma CommitTransferConserves(s: State, to: int, items: seq<Item>, p: int)
    requires UniqueProductIds(s.products) && DistinctItems(items)
    requires forall i :: 0 <= i < |items| ==> Withdrawable(s.products, items[i])
    requires 0 <= IndexOfProduct(s.products, p)
    ensures 0 <= IndexOfProduct(CommitTransfer(s, to, items).products, p)
    ensures WarehouseBalance(CommitTransfer(s, to, items), p) == WarehouseBalance(s, p)
  {
    var r := CommitTransfer(s, to, items);
    var id := |s.transfers| + 1;
    MoveStockKeepsIndex(s.products, items, true, p);
    MoveStockWithdraw(s.products, items);
    assert AllPresent(s.products, items);
    SumAppend(s.transferItems, BatchLinesFor(s.products, items, id, |s.transferItems| + 1), LineQtyFor(p));
    BatchLinesQty(s.products, items, id, |s.transferItems| + 1, p);
  }

  /**
   * A return moves quantity of every existing product from staff back to the
   * warehouse and creates none, whether or not other lines were skipped.
   */
  lemma CommitReturnConserves(s: State, returner: int, items: seq<Item>, p: int)
    requires UniqueProductIds(s.products)
    requires 0 <= IndexOfProduct(s.products, p)
    ensures 0 <= IndexOfProduct(CommitReturn(s, returner, items).products, p)
    ensures WarehouseBalance(CommitReturn(s, returner, items), p) == WarehouseBalance(s, p)
  {
    var id := |s.returnBatches| + 1;
    MoveStockKeepsIndex(s.products, items, false, p);
    MoveStockDeposit(s.products, items);
    SumAppend(s.returnItems, BatchLinesFor(s.products, items, id, |s.returnItems| + 1), LineQtyFor(p));
    BatchLinesQtyPresent(s.products, items, id, |s.returnItems| + 1, p);
  }

  /**
   * What a committed return writes: one return line and one `RETURN` row per
   * requested item whose product exists, in request order, and nothing for
   * the others.
   */
  lemma CommitReturnTables(s: State, staff: int, items: seq<Item>)
    ensures var r := CommitReturn(s, staff, items);
      var kept := Filter(items, IsPresent(s.products));
      && |r.returnItems| == |s.returnItems| + |kept| && r.returnItems[..|s.returnItems|] == s.returnItems
      && LineItems(r.returnItems[|s.returnItems|..]) == kept
      && r.userTxs == s.userTxs + ReturnRows(staff, kept)
  {
    var r := CommitReturn(s, staff, items);
    var nl := BatchLinesFor(s.products, items, |s.returnBatches| + 1, |s.returnItems| + 1);
    BatchLinesOfPresent(s.products, items, |s.returnBatches| + 1, |s.returnItems| + 1);
    ReturnTxsOfPresent(s.products, items, staff);
    assert r.returnItems[|s.returnItems|..] == nl;
  }

  // ---------------------------------------------------------------------------
  // The dashboard's stock total
  // ---------------------------------------------------------------------------

  /** A withdrawal with one checked line per product lowers the catalogue's total count by the quantity requested. */
  lemma {:induction false} MoveStockWithdrawTotal(ps: seq<Product>, items: seq<Item>)
    requires UniqueProductIds(ps) && DistinctItems(items)
    requires forall i :: 0 <= i < |items| ==> Withdrawable(ps, items[i])
    ensures SumOf(MoveStock(ps, items, true), StockOf()) == SumOf(ps, StockOf()) - SumOf(items, ItemQty())
    decreases |items|
  {
    if |items| > 0 {
      var rest := items[1..];
      forall i | 0 <= i < |rest| ensures Withdrawable(ps, rest[i]) && rest[i].productId != items[0].productId {
        assert rest[i] == items[i + 1];
      }
      WithdrawStep(ps, items[0], rest);
      AdjustStockTotal(ps, items[0].productId, -items[0].qty, true);
      MoveStockWithdrawTotal(AdjustStock(ps, items[0].productId, -items[0].qty, true), rest);
    }
  }

  /**
   * The dashboard after a transfer with one checked line per product: the
   * stock total drops by the quantity sent, and one more movement is listed.
   */
  lemma CommitTransferStats(s: State, to: int, items: seq<Item>)
    requires UniqueProductIds(s.products) && DistinctItems(items)
    requires forall i :: 0 <= i < |items| ==> Withdrawable(s.products, items[i])
    ensures var before, after := GetStats(s), GetStats(CommitTransfer(s, to, items));
      && after.totalProducts == before.totalProducts
      && after.totalStock == before.totalStock - SumOf(items, ItemQty())
      && after.recentTransactions == before.recentTransactions + 1
  {
    MoveStockWithdrawTotal(s.products, items);
  }

  /**
   * The dashboard after any return: the stock total rises by the quantity of
   * the lines whose product exists, and one more movement is listed.
   */
  lemma CommitReturnStats(s: State, staff: int, items: seq<Item>)
    ensures var before, after := GetStats(s), GetStats(CommitReturn(s, staff, items));
      && after.totalProducts == before.totalProducts
      && after.totalStock == before.totalStock + SumOf(Filter(items, IsPresent(s.products)), ItemQty())
      && after.recentTransactions == before.recentTransactions + 1
  {
    MoveStockDepositTotal(s.products, items);
  }
}
