/**
 * The localStorage backend (`MockBackend`): the three stock movements, the
 * product catalogue operations and the staff dashboard, each a function from
 * the current tables to a result.  A request that fails validation returns
 * `Err` and the caller keeps the tables it had: nothing is saved.
 */
module LocalBackend {
  import opened Outcomes
  import opened Sums
  import opened Ledger
  import opened Movements
  import Inventory

  /** The messages the backend throws, with the values they interpolate. */
  datatype Error =
    | ProductNotFound(productId: int)
    | InsufficientStock(productName: string)
    | InsufficientHolding(heldName: Option<string>, have: int)
    | CannotReturnMore(available: int)
      /** Reading `stock_qty` of a product that does not exist while committing a return throws before anything is saved. */
    | MissingProduct(productId: int)
    | NotFound

  // ---------------------------------------------------------------------------
  // Transfers (admin to staff)
  // ---------------------------------------------------------------------------

  /** The error `createTransfer` reports for one line, checked against the pre-request counts. */
  function TransferCheck(ps: seq<Product>): Item -> Option<Error> {
    (it: Item) =>
      var k := IndexOfProduct(ps, it.productId);
      if k == -1 then Some(ProductNotFound(it.productId))
      else if it.qty > ps[k].stockQty then Some(InsufficientStock(ps[k].name))
      else None
  }

  /**
   * `createTransfer({toUserId, items})`: every line must name an existing
   * product whose count covers the line's own quantity; then the transfer is
   * committed and its id returned.  The recipient is not looked up.
   */
  function CreateTransfer(s: State, toUserId: int, items: seq<Item>): (r: Result<(State, int), Error>)
    ensures r.Ok? <==> forall i :: 0 <= i < |items| ==> Withdrawable(s.products, items[i])
    ensures r.Err? ==>
      exists i :: 0 <= i < |items| && !Withdrawable(s.products, items[i])
        && (forall j :: 0 <= j < i ==> Withdrawable(s.products, items[j]))
        && r.error == (if IndexOfProduct(s.products, items[i].productId) == -1 then ProductNotFound(items[i].productId)
                       else InsufficientStock(s.products[IndexOfProduct(s.products, items[i].productId)].name))
    ensures r.Ok? ==> r.value.1 == |s.transfers| + 1 && r.value.0.transfers == s.transfers + [Batch(r.value.1, toUserId)]
  {
    var failure := FirstFailure(items, TransferCheck(s.products));
    if failure.Some? then Err(failure.value)
    else Ok((CommitTransfer(s, toUserId, items), |s.transfers| + 1))
  }

  /** A successful transfer raises the recipient's holding of every product by the quantity sent, and no one else's. */
  lemma TransferHolding(s: State, toUserId: int, items: seq<Item>, staff: int, p: int)
    requires WellFormed(s) && CreateTransfer(s, toUserId, items).Ok?
    ensures var s' := CreateTransfer(s, toUserId, items).value.0;
      && WellFormed(s')
      && Holding(s', staff, p) == Holding(s, staff, p) + (if staff == toUserId then SumOf(items, ItemQtyFor(p)) else 0)
  {
    CommitTransferWellFormed(s, toUserId, items);
    CommitTransferHolding(s, toUserId, items, staff, p);
  }

  /** Counts that start nonnegative stay nonnegative, whatever the request. */
  lemma TransferStockNonnegative(s: State, toUserId: int, items: seq<Item>)
    requires forall k :: 0 <= k < |s.products| ==> s.products[k].stockQty >= 0
    requires CreateTransfer(s, toUserId, items).Ok?
    ensures var ps := CreateTransfer(s, toUserId, items).value.0.products;
      forall k :: 0 <= k < |ps| ==> ps[k].stockQty >= 0
  {
    MoveStockWithdrawNonnegative(s.products, items);
  }

  /**
   * With one line per product, each count drops by exactly the quantity sent
   * and the warehouse balance (`stock_qty + distributed - returned`) is unchanged.
   */
  lemma TransferConserves(s: State, toUserId: int, items: seq<Item>, p: int)
    requires UniqueProductIds(s.products) && DistinctItems(items)
    requires CreateTransfer(s, toUserId, items).Ok?
    requires 0 <= IndexOfProduct(s.products, p)
    ensures var s' := CreateTransfer(s, toUserId, items).value.0;
      && (forall k :: 0 <= k < |s.products| ==>
            s'.products[k].stockQty == s.products[k].stockQty - SumOf(items, ItemQtyFor(s.products[k].id)))
      && 0 <= IndexOfProduct(s'.products, p)
      && WarehouseBalance(s', p) == WarehouseBalance(s, p)
  {
    MoveStockWithdraw(s.products, items);
    CommitTransferConserves(s, toUserId, items, p);
  }

  /** A single product with id 1 and count 5. */
  function OneProduct(): State {
    State([], [Product(1, "Tile", "T-1", 10, 5)], [], [], [], [], [])
  }

  /**
   * Lines are checked one by one against the pre-request count: two lines of
   * 3 against a count of 5 both pass, the floor clamps the count to 0, and the
   * recipient holds 6, one more than the warehouse had.
   */
  lemma DuplicateLinesOverdraw()
    ensures var r := CreateTransfer(OneProduct(), 7, [Item(1, 3), Item(1, 3)]);
      && r.Ok?
      && r.value.0.products[0].stockQty == 0
      && Holding(r.value.0, 7, 1) == 6
      && WarehouseBalance(r.value.0, 1) == WarehouseBalance(OneProduct(), 1) + 1
  {
    OverdrawAccepted();
    OverdrawTables();
    OverdrawHolding();
    OverdrawBalance();
  }

  lemma OverdrawHolding()
    ensures Holding(CommitTransfer(OneProduct(), 7, [Item(1, 3), Item(1, 3)]), 7, 1) == 6
  {
    var s := OneProduct();
    var items := [Item(1, 3), Item(1, 3)];
    CommitTransferHolding(s, 7, items, 7, 1);
    assert SumOf(items, ItemQtyFor(1)) == 6;
  }

  lemma OverdrawBalance()
    ensures var s' := CommitTransfer(OneProduct(), 7, [Item(1, 3), Item(1, 3)]);
      && 0 <= IndexOfProduct(s'.products, 1)
      && WarehouseBalance(s', 1) == 6
      && WarehouseBalance(OneProduct(), 1) == 5
  {
    var s' := CommitTransfer(OneProduct(), 7, [Item(1, 3), Item(1, 3)]);
    OverdrawTables();
    assert IndexOfProduct(s'.products, 1) == 0;
    var ls := s'.transferItems;
    assert ls[1..] == [BatchLine(2, 1, 1, 3)] && ls[1..][1..] == [];
    assert SumOf(ls[1..], LineQtyFor(1)) == 3;
    assert LinesQty(ls, 1) == 6;
  }

  lemma OverdrawAccepted()
    ensures CreateTransfer(OneProduct(), 7, [Item(1, 3), Item(1, 3)]) == Ok((CommitTransfer(OneProduct(), 7, [Item(1, 3), Item(1, 3)]), 1))
  {
    var s := OneProduct();
    var items := [Item(1, 3), Item(1, 3)];
    assert IndexOfProduct(s.products, 1) == 0;
    assert Withdrawable(s.products, items[0]) && Withdrawable(s.products, items[1]);
  }

  lemma OverdrawTables()
    ensures var s' := CommitTransfer(OneProduct(), 7, [Item(1, 3), Item(1, 3)]);
      && s'.products == [Product(1, "Tile", "T-1", 10, 0)]
      && s'.transferItems == [BatchLine(1, 1, 1, 3), BatchLine(2, 1, 1, 3)]
  {
    var s := OneProduct();
    var items := [Item(1, 3), Item(1, 3)];
    var ps1 := AdjustStock(s.products, 1, -3, true);
    assert ps1 == [Product(1, "Tile", "T-1", 10, 2)];
    assert AdjustStock(ps1, 1, -3, true) == [Product(1, "Tile", "T-1", 10, 0)];
    assert items[1..] == [Item(1, 3)];
    assert MoveStock(ps1, [Item(1, 3)], true) == [Product(1, "Tile", "T-1", 10, 0)];
    assert BatchLinesFor(s.products, items, 1, 1) == [BatchLine(1, 1, 1, 3), BatchLine(2, 1, 1, 3)];
  }

  // ---------------------------------------------------------------------------
  // Staff sales and job returns (`createUserTransaction`)
  // ---------------------------------------------------------------------------

  function HoldingCheck(s: State, user: int): Item -> Option<Error> {
    (it: Item) =>
      var have := Holding(s, user, it.productId);
      if it.qty > have then Some(InsufficientHolding(ProductName(s.products, it.productId), have))
      else None
  }

  /**
   * `createUserTransaction({items, customer_name, type}, user)`: a sale
   * checks each line against the user's current holding; other types are not
   * checked.  One row per line is appended, with the type defaulting to
   * `TRANSFER` and the customer name to `Customer`; no count changes.
   */
  function CreateUserTransaction(s: State, user: int, items: seq<Item>, customerName: Option<string>, txType: Option<string>): (r: Result<State, Error>)
    ensures r.Err? <==> IsOutbound(txType) && exists i :: 0 <= i < |items| && items[i].qty > Holding(s, user, items[i].productId)
    ensures r.Err? ==>
      exists i :: 0 <= i < |items| && items[i].qty > Holding(s, user, items[i].productId)
        && (forall j :: 0 <= j < i ==> items[j].qty <= Holding(s, user, items[j].productId))
        && r.error == InsufficientHolding(ProductName(s.products, items[i].productId), Holding(s, user, items[i].productId))
    ensures r.Ok? ==>
      && r.value.products == s.products && r.value.transfers == s.transfers && r.value.transferItems == s.transferItems
      && r.value.returnBatches == s.returnBatches && r.value.returnItems == s.returnItems && r.value.users == s.users
      && |r.value.userTxs| == |s.userTxs| + |items| && r.value.userTxs[..|s.userTxs|] == s.userTxs
      && forall i :: 0 <= i < |items| ==>
           var row := r.value.userTxs[|s.userTxs| + i];
           && row.userId == user && row.productId == items[i].productId && row.quantity == items[i].qty
           && row.txType == (if Truthy(txType) then txType.value else TRANSFER)
           && row.customerName == Some(if Truthy(customerName) then customerName.value else "Customer")
  {
    var failure := if IsOutbound(txType) then FirstFailure(items, HoldingCheck(s, user)) else None;
    if failure.Some? then Err(failure.value)
    else Ok(s.(userTxs := s.userTxs + SaleRows(user, items, OrElse(txType, TRANSFER), OrElse(customerName, "Customer"))))
  }

  /**
   * A successful call lowers the user's holding by the quantity sold, raises
   * it by the quantity of a job return, and leaves it alone for any other type.
   */
  lemma UserTransactionHolding(s: State, user: int, items: seq<Item>, customerName: Option<string>, txType: Option<string>, staff: int, p: int)
    requires CreateUserTransaction(s, user, items, customerName, txType).Ok?
    ensures var q := if staff == user then SumOf(items, ItemQtyFor(p)) else 0;
      var t := OrElse(txType, TRANSFER);
      Holding(CreateUserTransaction(s, user, items, customerName, txType).value, staff, p)
      == Holding(s, staff, p) + (if t == TRANSFER then -q else if t == JOB_RETURN then q else 0)
  {
    SaleRowsHolding(s, user, items, OrElse(txType, TRANSFER), OrElse(customerName, "Customer"), staff, p);
  }

  /** A sale of one line never takes a holding below zero. */
  lemma SingleSaleKeepsHoldingNonnegative(s: State, user: int, it: Item, customerName: Option<string>)
    requires CreateUserTransaction(s, user, [it], customerName, None).Ok?
    ensures Holding(CreateUserTransaction(s, user, [it], customerName, None).value, user, it.productId)
         == Holding(s, user, it.productId) - it.qty >= 0
  {
    UserTransactionHolding(s, user, [it], customerName, None, user, it.productId);
    assert [it][1..] == [];
  }

  /** One transfer of 5 units of product 1 to staff member 7. */
  function FiveWithStaff(): State {
    State([], [Product(1, "Tile", "T-1", 10, 0)], [Batch(1, 7)], [BatchLine(1, 1, 1, 5)], [], [], [])
  }

  /** Two sale lines of 3 each pass against a holding of 5, which ends at -1. */
  lemma DuplicateLinesOversell()
    ensures Holding(FiveWithStaff(), 7, 1) == 5
    ensures var r := CreateUserTransaction(FiveWithStaff(), 7, [Item(1, 3), Item(1, 3)], None, None);
      r.Ok? && Holding(r.value, 7, 1) == -1
  {
    var s := FiveWithStaff();
    var items := [Item(1, 3), Item(1, 3)];
    assert BatchedQty(s.transfers, s.transferItems, 7, 1) == 5;
    UserTransactionHolding(s, 7, items, None, None, 7, 1);
    assert SumOf(items, ItemQtyFor(1)) == 6;
  }

  // ---------------------------------------------------------------------------
  // Returns (staff to warehouse)
  // ---------------------------------------------------------------------------

  function ReturnCheck(s: State, user: int): Item -> Option<Error> {
    (it: Item) =>
      var have := Holding(s, user, it.productId);
      if it.qty > have then Some(CannotReturnMore(have)) else None
  }

  function PresenceCheck(ps: seq<Product>): Item -> Option<Error> {
    (it: Item) => if IndexOfProduct(ps, it.productId) == -1 then Some(MissingProduct(it.productId)) else None
  }

  /**
   * `createReturn({items}, user)`: every line must be covered by the user's
   * holding; a line whose product has since been deleted then makes the
   * commit throw, so nothing is saved.  Otherwise the return is committed and
   * its id returned.
   */
  function CreateReturn(s: State, user: int, items: seq<Item>): (r: Result<(State, int), Error>)
    ensures r.Ok? <==>
      (forall i :: 0 <= i < |items| ==> items[i].qty <= Holding(s, user, items[i].productId)) && AllPresent(s.products, items)
    ensures r.Err? && r.error.CannotReturnMore? ==>
      exists i :: 0 <= i < |items| && items[i].qty > Holding(s, user, items[i].productId)
        && r.error.available == Holding(s, user, items[i].productId)
    ensures r.Err? && r.error.MissingProduct? ==>
      forall i :: 0 <= i < |items| ==> items[i].qty <= Holding(s, user, items[i].productId)
    ensures r.Err? && (exists i :: 0 <= i < |items| && items[i].qty > Holding(s, user, items[i].productId)) ==>
      exists i :: 0 <= i < |items| && items[i].qty > Holding(s, user, items[i].productId)
        && (forall j :: 0 <= j < i ==> items[j].qty <= Holding(s, user, items[j].productId))
        && r.error == CannotReturnMore(Holding(s, user, items[i].productId))
    ensures r.Err? && (forall i :: 0 <= i < |items| ==> items[i].qty <= Holding(s, user, items[i].productId)) ==>
      exists i :: 0 <= i < |items| && IndexOfProduct(s.products, items[i].productId) == -1
        && (forall j :: 0 <= j < i ==> IndexOfProduct(s.products, items[j].productId) != -1)
        && r.error == MissingProduct(items[i].productId)
    ensures r.Ok? ==> r.value.1 == |s.returnBatches| + 1 && r.value.0.returnBatches == s.returnBatches + [Batch(r.value.1, user)]
  {
    var over := FirstFailure(items, ReturnCheck(s, user));
    if over.Some? then Err(over.value)
    else
      var missing := FirstFailure(items, PresenceCheck(s.products));
      if missing.Some? then Err(missing.value)
      else Ok((CommitReturn(s, user, items), |s.returnBatches| + 1))
  }

  /**
   * A successful return lowers the user's holding by the quantity returned,
   * adds it back to each count, keeps the warehouse balance, and its `RETURN`
   * rows are not counted twice.
   */
  lemma ReturnEffects(s: State, user: int, items: seq<Item>, staff: int, p: int)
    requires WellFormed(s) && UniqueProductIds(s.products)
    requires CreateReturn(s, user, items).Ok?
    ensures var s' := CreateReturn(s, user, items).value.0;
      && WellFormed(s')
      && Holding(s', staff, p) == Holding(s, staff, p) - (if staff == user then SumOf(items, ItemQtyFor(p)) else 0)
      && (forall k :: 0 <= k < |s.products| ==>
            s'.products[k].stockQty == s.products[k].stockQty + SumOf(items, ItemQtyFor(s.products[k].id)))
      && (0 <= IndexOfProduct(s.products, p) ==>
            0 <= IndexOfProduct(s'.products, p) && WarehouseBalance(s', p) == WarehouseBalance(s, p))
  {
    CommitReturnWellFormed(s, user, items);
    CommitReturnHolding(s, user, items, staff, p);
    if IndexOfProduct(s.products, p) == -1 {
      SumZero(items, ItemQtyFor(p));
    }
    MoveStockDeposit(s.products, items);
    if 0 <= IndexOfProduct(s.products, p) {
      CommitReturnConserves(s, user, items, p);
    }
  }

  /** Whatever was transferred to a staff member can be returned in full straight away. */
  lemma TransferThenReturn(s: State, staff: int, it: Item)
    requires WellFormed(s) && Holding(s, staff, it.productId) == 0
    requires CreateTransfer(s, staff, [it]).Ok?
    ensures var s' := CreateTransfer(s, staff, [it]).value.0;
      CreateReturn(s', staff, [it]).Ok?
  {
    var s' := CreateTransfer(s, staff, [it]).value.0;
    TransferHolding(s, staff, [it], staff, it.productId);
    assert [it][1..] == [];
    MoveStockKeepsIndex(s.products, [it], true, it.productId);
  }

  // ---------------------------------------------------------------------------
  // Catalogue
  // ---------------------------------------------------------------------------

  /** `updateProduct(id, updates)`: merges into the first product with that id, or reports "Not found". */
  function UpdateProductLocal(ps: seq<Product>, id: int, u: ProductPatch): (r: Result<seq<Product>, Error>)
    ensures r.Err? <==> forall i :: 0 <= i < |ps| ==> ps[i].id != id
    ensures r.Err? ==> r.error == NotFound
    ensures r.Ok? ==> Some(r.value) == UpdateProduct(ps, id, u)
  {
    var updated := UpdateProduct(ps, id, u);
    if updated.None? then Err(NotFound) else Ok(updated.value)
  }

  /** `deleteProduct(id)`: keeps every product with a different id, in order; an unknown id is not an error. */
  function DeleteProduct(ps: seq<Product>, id: int): (r: seq<Product>)
    ensures forall q :: q in r <==> q in ps && q.id != id
    ensures |r| == SumOf(ps, Indicator(KeepsOtherIds(id)))
    ensures (forall i :: 0 <= i < |ps| ==> ps[i].id != id) ==> r == ps
    ensures forall k :: 0 <= k < |ps| && ps[k].id == id && (forall j :: 0 <= j < |ps| && j != k ==> ps[j].id != id) ==>
      r == ps[..k] + ps[k + 1..]
  {
    DeleteMembership(ps, id);
    FilterCount(ps, KeepsOtherIds(id));
    DeleteOrder(ps, id);
    Filter(ps, KeepsOtherIds(id))
  }

  /** The filter keeps the other products in order: all of them when none matches, all but the one match otherwise. */
  lemma DeleteOrder(ps: seq<Product>, id: int)
    ensures (forall i :: 0 <= i < |ps| ==> ps[i].id != id) ==> Filter(ps, KeepsOtherIds(id)) == ps
    ensures forall k :: 0 <= k < |ps| && ps[k].id == id && (forall j :: 0 <= j < |ps| && j != k ==> ps[j].id != id) ==>
      Filter(ps, KeepsOtherIds(id)) == ps[..k] + ps[k + 1..]
  {
    if forall i :: 0 <= i < |ps| ==> ps[i].id != id {
      FilterAllKept(ps, KeepsOtherIds(id));
    }
    forall k | 0 <= k < |ps| && ps[k].id == id && (forall j :: 0 <= j < |ps| && j != k ==> ps[j].id != id) {
      DeleteOnlyMatch(ps, id, k);
    }
  }

  /** With `ps[k]` the only product with that id, the filter cuts out exactly position `k`. */
  lemma DeleteOnlyMatch(ps: seq<Product>, id: int, k: int)
    requires 0 <= k < |ps| && ps[k].id == id
    requires forall j :: 0 <= j < |ps| && j != k ==> ps[j].id != id
    ensures Filter(ps, KeepsOtherIds(id)) == ps[..k] + ps[k + 1..]
  {
    var before, after := ps[..k], ps[k + 1..];
    OthersKept(ps, id, k, before, after);
    assert ps == before + [ps[k]] + after by {
      assert ps[..k + 1] == before + [ps[k]];
      assert ps == ps[..k + 1] + after;
    }
    FilterDropsOne(before, ps[k], after, KeepsOtherIds(id));
  }

  /** Every product before and after the only match keeps a different id. */
  lemma OthersKept(ps: seq<Product>, id: int, k: int, before: seq<Product>, after: seq<Product>)
    requires 0 <= k < |ps| && before == ps[..k] && after == ps[k + 1..]
    requires forall j :: 0 <= j < |ps| && j != k ==> ps[j].id != id
    ensures forall i :: 0 <= i < |before| ==> KeepsOtherIds(id)(before[i])
    ensures forall i :: 0 <= i < |after| ==> KeepsOtherIds(id)(after[i])
  {
    forall i | 0 <= i < |before| ensures KeepsOtherIds(id)(before[i]) {
      assert before[i] == ps[i] && i != k;
    }
    forall i | 0 <= i < |after| ensures KeepsOtherIds(id)(after[i]) {
      assert after[i] == ps[k + 1 + i] && k + 1 + i != k;
    }
  }

  lemma DeleteMembership(ps: seq<Product>, id: int)
    ensures forall q :: q in Filter(ps, KeepsOtherIds(id)) <==> q in ps && q.id != id
  {
    forall q ensures q in Filter(ps, KeepsOtherIds(id)) <==> q in ps && q.id != id {
      FilterMembership(ps, KeepsOtherIds(id), q);
    }
  }

  /** Deleting the product just added under a fresh id restores the catalogue. */
  lemma AddThenDelete(ps: seq<Product>, input: ProductInput)
    requires input.id.None?
    ensures DeleteProduct(AddProduct(ps, input), NextProductId(ps)) == ps
  {
    var added := AddProduct(ps, input);
    var id := NextProductId(ps);
    FilterAllKept(ps, KeepsOtherIds(id));
    assert added == ps + [added[|ps|]];
    assert Filter([added[|ps|]], KeepsOtherIds(id)) == [];
    FilterAppend(ps, [added[|ps|]], KeepsOtherIds(id));
  }

  // ---------------------------------------------------------------------------
  // Dashboard and reports
  // ---------------------------------------------------------------------------

  /** `getUserStats(user)`: the total of the user's positive-only inventory, reported twice. */
  ghost function UserStatsLocal(s: State, user: int): (r: Inventory.UserStats)
    ensures r.productsTaken == r.balanceToReturn && r.pendingReturns == 0
    ensures r.productsTaken >= 0
    ensures forall p :: p in Inventory.LocalInventory(s, user) ==> Inventory.LocalInventory(s, user)[p] <= r.productsTaken
  {
    Inventory.GetUserStats(Inventory.LocalInventory(s, user))
  }

  /** With unique header ids the dashboard shows a non-zero figure exactly when the user holds something. */
  lemma UserStatsLocalPositive(s: State, user: int)
    requires UniqueBatchIds(s.transfers) && UniqueBatchIds(s.returnBatches)
    ensures UserStatsLocal(s, user).productsTaken > 0 <==> exists p :: Holding(s, user, p) > 0
  {
    Inventory.LocalUserStatsPositive(s, user);
  }

  /** `getReport('stock')` rows balance: in-warehouse plus distributed minus returned is the warehouse balance. */
  lemma StockReportBalance(s: State, i: int)
    requires UniqueProductIds(s.products) && 0 <= i < |s.products|
    ensures 0 <= IndexOfProduct(s.products, s.products[i].id)
    ensures var row := StockReport(s)[i];
      row.inWarehouse + row.distributed - row.returned == WarehouseBalance(s, s.products[i].id)
  {
    assert IndexOfProduct(s.products, s.products[i].id) == i;
  }

  /** `getReport('low-stock')`: the products whose count is below 10. */
  function LowStockReport(s: State): (r: seq<Product>)
    ensures forall p :: p in r <==> p in s.products && p.stockQty < LOW_STOCK_THRESHOLD
    ensures |r| == GetStats(s).lowStockCount
  {
    LowStock(s.products, LOW_STOCK_THRESHOLD)
  }
}
