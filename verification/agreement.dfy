/**
 * Where the localStorage backend and the Express mock server agree, and the
 * concrete requests on which the server as written departs from the ledger.
 */
module Agreement {
  import opened Outcomes
  import opened Sums
  import opened Ledger
  import opened Movements
  import LocalBackend
  import MockServer

  /** Both backends accept the same transfers to an existing recipient and commit them identically. */
  lemma TransfersAgree(s: State, toUserId: int, items: seq<Item>)
    requires exists i :: 0 <= i < |s.users| && s.users[i].id == toUserId
    ensures MockServer.PostTransfers(s, toUserId, items).Ok? == LocalBackend.CreateTransfer(s, toUserId, items).Ok?
    ensures MockServer.PostTransfers(s, toUserId, items).Ok? ==>
      MockServer.PostTransfers(s, toUserId, items).value == LocalBackend.CreateTransfer(s, toUserId, items).value
  {
  }

  /**
   * With the ledger holding, the server's sale endpoint accepts exactly what
   * the localStorage backend accepts for the authenticated user, and writes
   * the same rows.
   */
  lemma CorrectedSalesAgree(s: State, token: string, items: seq<Item>, customerName: Option<string>, txType: Option<string>)
    requires MockServer.FindByToken(s.users, Some(token)).Some?
    ensures var user := MockServer.FindByToken(s.users, Some(token)).value;
      var server := MockServer.PostUserTransactions(MockServer.Corrected, s, Some(token), items, customerName, txType);
      var local := LocalBackend.CreateUserTransaction(s, user.id, items, customerName, txType);
      server.Ok? == local.Ok? && (server.Ok? ==> server.value == local.value)
  {
  }

  /**
   * With the ledger holding and every product present, the server's return
   * endpoint accepts exactly what the localStorage backend accepts and
   * commits the same return.
   */
  lemma CorrectedReturnsAgree(s: State, token: string, items: seq<Item>)
    requires MockServer.FindByToken(s.users, Some(token)).Some?
    requires AllPresent(s.products, items)
    ensures var user := MockServer.FindByToken(s.users, Some(token)).value;
      var server := MockServer.PostReturns(MockServer.Corrected, s, Some(token), items);
      var local := LocalBackend.CreateReturn(s, user.id, items);
      server.Ok? == local.Ok? && (server.Ok? ==> server.value == local.value)
  {
  }

  /**
   * When a line names a product that no longer exists, the backends part
   * ways: the localStorage backend always fails, reporting the missing
   * product once every line is covered, while the server (with the ledger
   * holding) accepts exactly when every line is covered and skips the line.
   */
  lemma ReturnsDisagreeOnMissingProduct(s: State, token: string, items: seq<Item>)
    requires MockServer.FindByToken(s.users, Some(token)).Some?
    requires !AllPresent(s.products, items)
    ensures var user := MockServer.FindByToken(s.users, Some(token)).value;
      var server := MockServer.PostReturns(MockServer.Corrected, s, Some(token), items);
      var local := LocalBackend.CreateReturn(s, user.id, items);
      && local.Err?
      && (server.Ok? <==> forall i :: 0 <= i < |items| ==> items[i].qty <= Holding(s, user.id, items[i].productId))
      && (server.Ok? ==> local.error.MissingProduct?)
  {
    var user := MockServer.FindByToken(s.users, Some(token)).value;
    assert MockServer.Authenticate(MockServer.Corrected, s.users, Some(token)) == Some(user);
    assert forall i :: 0 <= i < |items| ==>
      MockServer.StaffStock(MockServer.Corrected, s, user.id, items[i].productId) == Holding(s, user.id, items[i].productId);
  }

  /**
   * Staff member 7 received 5 units of product 1 and 1 unit of product 2;
   * product 2 has since been deleted.
   */
  function DeletedAfterTransfer(): State {
    State([User(7, "Staff", "700", "pw", "USER", Some("t"))], [Product(1, "Tile", "T-1", 10, 0)],
          [Batch(1, 7)], [BatchLine(1, 1, 1, 5), BatchLine(2, 1, 2, 1)], [], [], [])
  }

  /**
   * Returning one of each: the localStorage backend refuses with the missing
   * product and saves nothing; the server writes a header, one line and one
   * `RETURN` row for product 1, and raises its count to 1.
   */
  lemma MissingProductSkippedByServer()
    ensures LocalBackend.CreateReturn(DeletedAfterTransfer(), 7, [Item(2, 1), Item(1, 1)]) == Err(LocalBackend.MissingProduct(2))
    ensures var r := MockServer.PostReturns(MockServer.Corrected, DeletedAfterTransfer(), Some("t"), [Item(2, 1), Item(1, 1)]);
      && r.Ok?
      && r.value.0.returnItems == [BatchLine(1, 1, 1, 1)]
      && r.value.0.userTxs == [UserTx(7, 1, 1, RETURN, None)]
      && r.value.0.products == [Product(1, "Tile", "T-1", 10, 1)]
  {
    DeletedHoldings();
    LocalRefusesDeleted();
    ServerAcceptsDeleted();
    ServerSkipsDeleted();
  }

  lemma DeletedHoldings()
    ensures Holding(DeletedAfterTransfer(), 7, 1) == 5
    ensures Holding(DeletedAfterTransfer(), 7, 2) == 1
    ensures IndexOfProduct(DeletedAfterTransfer().products, 1) == 0
    ensures IndexOfProduct(DeletedAfterTransfer().products, 2) == -1
  {
    var s := DeletedAfterTransfer();
    assert BatchedQty(s.transfers, s.transferItems, 7, 1) == 5;
    assert BatchedQty(s.transfers, s.transferItems, 7, 2) == 1;
  }

  lemma LocalRefusesDeleted()
    ensures LocalBackend.CreateReturn(DeletedAfterTransfer(), 7, [Item(2, 1), Item(1, 1)]) == Err(LocalBackend.MissingProduct(2))
  {
    var s := DeletedAfterTransfer();
    var items := [Item(2, 1), Item(1, 1)];
    DeletedHoldings();
    assert FirstFailure(items, LocalBackend.ReturnCheck(s, 7)).None?;
    assert LocalBackend.PresenceCheck(s.products)(items[0]) == Some(LocalBackend.MissingProduct(2));
  }

  lemma ServerAcceptsDeleted()
    ensures MockServer.Authenticate(MockServer.Corrected, DeletedAfterTransfer().users, Some("t")) == Some(DeletedAfterTransfer().users[0])
    ensures MockServer.PostReturns(MockServer.Corrected, DeletedAfterTransfer(), Some("t"), [Item(2, 1), Item(1, 1)]).Ok?
  {
    var s := DeletedAfterTransfer();
    var items := [Item(2, 1), Item(1, 1)];
    DeletedHoldings();
    assert MockServer.FindByTokenStrict(s.users, Some("t")) == Some(s.users[0]);
    assert forall i :: 0 <= i < |items| ==> items[i].qty <= MockServer.StaffStock(MockServer.Corrected, s, 7, items[i].productId);
  }

  lemma ServerSkipsDeleted()
    ensures var r := CommitReturn(DeletedAfterTransfer(), 7, [Item(2, 1), Item(1, 1)]);
      && r.returnItems == [BatchLine(1, 1, 1, 1)]
      && r.userTxs == [UserTx(7, 1, 1, RETURN, None)]
      && r.products == [Product(1, "Tile", "T-1", 10, 1)]
  {
    DeletedLines();
    DeletedCounts();
  }

  lemma DeletedLines()
    ensures BatchLinesFor(DeletedAfterTransfer().products, [Item(2, 1), Item(1, 1)], 1, 1) == [BatchLine(1, 1, 1, 1)]
    ensures ReturnTxsFor(DeletedAfterTransfer().products, [Item(2, 1), Item(1, 1)], 7) == [UserTx(7, 1, 1, RETURN, None)]
  {
    var ps := DeletedAfterTransfer().products;
    var items := [Item(2, 1), Item(1, 1)];
    DeletedHoldings();
    assert items[1..] == [Item(1, 1)] && items[1..][1..] == [];
    assert BatchLinesFor(ps, items[1..], 1, 1) == [BatchLine(1, 1, 1, 1)];
    assert ReturnTxsFor(ps, items[1..], 7) == [UserTx(7, 1, 1, RETURN, None)];
  }

  lemma DeletedCounts()
    ensures MoveStock(DeletedAfterTransfer().products, [Item(2, 1), Item(1, 1)], false) == [Product(1, "Tile", "T-1", 10, 1)]
  {
    var ps := DeletedAfterTransfer().products;
    var items := [Item(2, 1), Item(1, 1)];
    DeletedHoldings();
    assert AdjustStock(ps, 2, 1, false) == ps;
    assert items[1..] == [Item(1, 1)] && items[1..][1..] == [];
    var ps2 := AdjustStock(ps, 1, 1, false);
    assert ps2 == [Product(1, "Tile", "T-1", 10, 1)];
    assert MoveStock(ps2, [], false) == ps2;
  }

  /** Without a query the server's low-stock report is the localStorage backend's. */
  lemma LowStockReportsAgree(s: State)
    ensures MockServer.LowStockReport(s.products, None) == LocalBackend.LowStockReport(s)
  {
  }

  /** Staff member 7 with token "t", holding 5 units of product 1 through one transfer. */
  function StaffWithFive(): State {
    State([User(7, "Staff", "700", "pw", "USER", Some("t"))], [Product(1, "Tile", "T-1", 10, 0)],
          [Batch(1, 7)], [BatchLine(1, 1, 1, 5)], [], [], [])
  }

  lemma StaffWithFiveHolding()
    ensures Holding(StaffWithFive(), 7, 1) == 5
    ensures MockServer.StaffStockAsWritten(StaffWithFive(), 7, 1) == 0
  {
    var s := StaffWithFive();
    assert BatchedQty(s.transfers, s.transferItems, 7, 1) == 5;
    MockServer.StaffStockAsWrittenIgnoresBatches(s, 7, 1);
  }

  /**
   * As written, the server cannot see transferred stock: a staff member
   * holding 5 units is refused a return of 1 with "only 0 available", and a
   * sale of 1 likewise; with the ledger holding both are accepted.
   */
  lemma TransferredStockInvisibleToServer()
    ensures MockServer.PostReturns(MockServer.AsWritten, StaffWithFive(), Some("t"), [Item(1, 1)])
         == Err(MockServer.CannotReturn(1, "Tile", 0))
    ensures MockServer.PostUserTransactions(MockServer.AsWritten, StaffWithFive(), Some("t"), [Item(1, 1)], None, None)
         == Err(MockServer.InsufficientHolding(Some("Tile"), 0, 1))
    ensures MockServer.PostReturns(MockServer.Corrected, StaffWithFive(), Some("t"), [Item(1, 1)]).Ok?
    ensures MockServer.PostUserTransactions(MockServer.Corrected, StaffWithFive(), Some("t"), [Item(1, 1)], None, None).Ok?
  {
    ReturnRefusedAsWritten();
    SaleRefusedAsWritten();
    ReturnAcceptedCorrected();
    SaleAcceptedCorrected();
  }

  lemma StaffWithFiveLookups()
    ensures MockServer.FindByToken(StaffWithFive().users, Some("t")) == Some(StaffWithFive().users[0])
    ensures MockServer.FindByTokenStrict(StaffWithFive().users, Some("t")) == Some(StaffWithFive().users[0])
    ensures FindProduct(StaffWithFive().products, 1) == Some(StaffWithFive().products[0])
  {
    assert IndexOfProduct(StaffWithFive().products, 1) == 0;
  }

  lemma ReturnRefusedAsWritten()
    ensures MockServer.PostReturns(MockServer.AsWritten, StaffWithFive(), Some("t"), [Item(1, 1)])
         == Err(MockServer.CannotReturn(1, "Tile", 0))
  {
    var s := StaffWithFive();
    StaffWithFiveHolding();
    StaffWithFiveLookups();
    var check := MockServer.ReturnCheck(MockServer.AsWritten, s, 7);
    assert check(Item(1, 1)) == Some(MockServer.CannotReturn(1, "Tile", 0));
    assert FirstFailure([Item(1, 1)], check) == Some(MockServer.CannotReturn(1, "Tile", 0));
  }

  lemma SaleRefusedAsWritten()
    ensures MockServer.PostUserTransactions(MockServer.AsWritten, StaffWithFive(), Some("t"), [Item(1, 1)], None, None)
         == Err(MockServer.InsufficientHolding(Some("Tile"), 0, 1))
  {
    var s := StaffWithFive();
    StaffWithFiveHolding();
    StaffWithFiveLookups();
    var check := MockServer.HoldingCheck(MockServer.AsWritten, s, 7);
    assert check(Item(1, 1)) == Some(MockServer.InsufficientHolding(Some("Tile"), 0, 1));
    assert FirstFailure([Item(1, 1)], check) == Some(MockServer.InsufficientHolding(Some("Tile"), 0, 1));
  }

  lemma ReturnAcceptedCorrected()
    ensures MockServer.PostReturns(MockServer.Corrected, StaffWithFive(), Some("t"), [Item(1, 1)]).Ok?
  {
    StaffWithFiveHolding();
    StaffWithFiveLookups();
  }

  lemma SaleAcceptedCorrected()
    ensures MockServer.PostUserTransactions(MockServer.Corrected, StaffWithFive(), Some("t"), [Item(1, 1)], None, None).Ok?
  {
    StaffWithFiveHolding();
    StaffWithFiveLookups();
  }
}
