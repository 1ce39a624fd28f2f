/**
 * The client-side folds and request expansion of the Supabase service layer.
 * Queries are modelled as filters over an abstract `transactions` table; a
 * row set of `None` is a query that returned no data.  The stock RPCs are
 * not executed: each call records the `StockEffect` it would request.
 */
module Api {
  import opened Outcomes
  import opened Sums
  import opened Ledger

  /** A row of the `transactions` table; user ids are strings. */
  datatype Row = Row(userId: string, productId: int, txType: string, quantity: int,
                     customerName: Option<string>, createdAt: string)

  // ---------------------------------------------------------------------------
  // getDashboardStats
  // ---------------------------------------------------------------------------

  /** The two columns the dashboard selects; `None` is a null column. */
  datatype ApiProduct = ApiProduct(stockQty: Option<int>, sellingPrice: Option<int>)

  datatype DashboardStats = DashboardStats(totalProducts: int, totalStock: int, stockValue: int, pendingReturns: int)

  /** `x || 0` for a nullable number. */
  function OrZero(x: Option<int>): (r: int)
    ensures x.Some? ==> r == x.value
    ensures x.None? ==> r == 0
  {
    if x.Some? then x.value else 0
  }

  function ApiStockOf(): ApiProduct -> int {
    (p: ApiProduct) => OrZero(p.stockQty)
  }

  function ApiValueOf(): ApiProduct -> int {
    (p: ApiProduct) => OrZero(p.stockQty) * OrZero(p.sellingPrice)
  }

  /** `getDashboardStats`: count, total stock and stock value, with null columns as 0 and no data as all zeros. */
  function GetDashboardStats(products: Option<seq<ApiProduct>>): (r: DashboardStats)
    ensures products.None? ==> r == DashboardStats(0, 0, 0, 0)
    ensures products.Some? ==> r.totalProducts == |products.value|
    ensures products.Some? && (forall i :: 0 <= i < |products.value| ==> OrZero(products.value[i].stockQty) >= 0)
      ==> r.totalStock >= 0
    ensures r.pendingReturns == 0
  {
    if products.None? then DashboardStats(0, 0, 0, 0)
    else
      var ps := products.value;
      DashboardStockNonnegative(ps);
      DashboardStats(|ps|, SumOf(ps, ApiStockOf()), SumOf(ps, ApiValueOf()), 0)
  }

  lemma DashboardStockNonnegative(ps: seq<ApiProduct>)
    ensures (forall i :: 0 <= i < |ps| ==> OrZero(ps[i].stockQty) >= 0) ==> SumOf(ps, ApiStockOf()) >= 0
  {
    if forall i :: 0 <= i < |ps| ==> OrZero(ps[i].stockQty) >= 0 {
      SumNonnegative(ps, ApiStockOf());
    }
  }

  /** The columns a catalogue entry would have in Supabase. */
  function AsApiProducts(ps: seq<Product>): (r: seq<ApiProduct>)
    ensures |r| == |ps|
    ensures forall i :: 0 <= i < |ps| ==> r[i] == ApiProduct(Some(ps[i].stockQty), Some(ps[i].sellingPrice))
  {
    seq(|ps|, i requires 0 <= i < |ps| => ApiProduct(Some(ps[i].stockQty), Some(ps[i].sellingPrice)))
  }

  /** On the same catalogue the Supabase dashboard reports the same count, stock and value as the local backends. */
  lemma DashboardAgreesWithStats(s: State)
    ensures var d := GetDashboardStats(Some(AsApiProducts(s.products)));
      var g := GetStats(s);
      d.totalProducts == g.totalProducts && d.totalStock == g.totalStock && d.stockValue == g.stockValue
  {
    var aps := AsApiProducts(s.products);
    SumCongruentAcross(s.products, aps);
  }

  lemma {:induction false} SumCongruentAcross(ps: seq<Product>, aps: seq<ApiProduct>)
    requires |aps| == |ps|
    requires forall i :: 0 <= i < |ps| ==> aps[i] == ApiProduct(Some(ps[i].stockQty), Some(ps[i].sellingPrice))
    ensures SumOf(aps, ApiStockOf()) == SumOf(ps, StockOf())
    ensures SumOf(aps, ApiValueOf()) == SumOf(ps, ValueOf())
    decreases |ps|
  {
    if |ps| > 0 {
      SumCongruentAcross(ps[1..], aps[1..]);
    }
  }

  // ---------------------------------------------------------------------------
  // createUserTransaction and the stock effect
  // ---------------------------------------------------------------------------

  /** The stock RPC a transaction requests. */
  datatype StockEffect = Decrement(productId: int, qty: int) | Increment(productId: int, qty: int) | NoChange

  /** `TRANSFER` decrements, `RETURN` increments, any other type leaves stock alone. */
  function StockEffectOf(txType: string, productId: int, qty: int): (e: StockEffect)
    ensures e.Decrement? <==> txType == TRANSFER
    ensures e.Increment? <==> txType == RETURN
    ensures !e.NoChange? ==> e.productId == productId && e.qty == qty
  {
    if txType == TRANSFER then Decrement(productId, qty)
    else if txType == RETURN then Increment(productId, qty)
    else NoChange
  }

  /** The fields `createUserTransaction` reads from its payload; `userId` is `payload.user_id`. */
  datatype Payload = Payload(userId: Option<string>, productId: int, txType: string, quantity: int, customerName: Option<string>)

  /** The rows written so far and the stock RPCs issued so far, in order. */
  datatype Db = Db(rows: seq<Row>, effects: seq<StockEffect>)

  /**
   * `createUserTransaction(payload)`: inserts one row for `payload.user_id`
   * or the signed-in user, then issues the stock RPC for its type.  `accepted`
   * is the database's answer to the insert; a refused insert throws before
   * the RPC.
   */
  function CreateUserTransaction(db: Db, currentUser: string, p: Payload, now: string, accepted: bool): (r: Result<Db, string>)
    ensures !accepted <==> r.Err?
    ensures r.Ok? ==>
      && r.value.rows == db.rows + [Row(if Truthy(p.userId) then p.userId.value else currentUser,
                                        p.productId, p.txType, p.quantity, p.customerName, now)]
      && r.value.effects == db.effects + [StockEffectOf(p.txType, p.productId, p.quantity)]
  {
    if !accepted then Err("insert refused")
    else
      var row := Row(OrElse(p.userId, currentUser), p.productId, p.txType, p.quantity, p.customerName, now);
      Ok(Db(db.rows + [row], db.effects + [StockEffectOf(p.txType, p.productId, p.quantity)]))
  }

  // ---------------------------------------------------------------------------
  // createTransfer / createReturn / createUsedTransaction
  // ---------------------------------------------------------------------------

  /** Quantity of product `p` a stock RPC asks to take out of the warehouse. */
  function DecrementedQty(p: int): StockEffect -> int {
    (e: StockEffect) => if e.Decrement? && e.productId == p then e.qty else 0
  }

  /** Quantity of product `p` a stock RPC asks to put back into the warehouse. */
  function IncrementedQty(p: int): StockEffect -> int {
    (e: StockEffect) => if e.Increment? && e.productId == p then e.qty else 0
  }

  /** A request payload: an `items` array, or a single `product_id`/`quantity`. */
  datatype Request = Request(userId: Option<string>, items: Option<seq<Item>>, productId: int, quantity: int, customerName: Option<string>)

  /** One payload per item with the given type, or the single payload when there is no `items` array. */
  function Expand(req: Request, txType: string): (r: seq<Payload>)
    ensures req.items.Some? ==> |r| == |req.items.value|
    ensures req.items.None? ==> r == [Payload(req.userId, req.productId, txType, req.quantity, req.customerName)]
    ensures req.items.Some? ==> forall i :: 0 <= i < |r| ==>
      r[i] == Payload(req.userId, req.items.value[i].productId, txType, req.items.value[i].qty, req.customerName)
  {
    if req.items.None? then [Payload(req.userId, req.productId, txType, req.quantity, req.customerName)]
    else
      var items := req.items.value;
      seq(|items|, i requires 0 <= i < |items| => Payload(req.userId, items[i].productId, txType, items[i].qty, req.customerName))
  }

  /** The outcome of a run of calls: the database after it, and how many calls committed before the first refusal. */
  datatype Run = Run(db: Db, committed: nat, failed: bool)

  /**
   * Issues the calls one after another, stopping at the first refused insert;
   * the calls before it stay committed.  `answers[i]` is the database's
   * answer to the `i`-th insert.
   */
  function RunSequentially(db: Db, currentUser: string, ps: seq<Payload>, now: string, answers: seq<bool>): (r: Run)
    requires |answers| == |ps|
    ensures r.committed <= |ps|
    ensures r.failed <==> exists i :: 0 <= i < |ps| && !answers[i]
    ensures r.failed ==> r.committed < |ps| && !answers[r.committed]
    ensures forall i :: 0 <= i < r.committed ==> answers[i]
    ensures !r.failed ==> r.committed == |ps|
    ensures |r.db.rows| == |db.rows| + r.committed && r.db.rows[..|db.rows|] == db.rows
    ensures |r.db.effects| == |db.effects| + r.committed && r.db.effects[..|db.effects|] == db.effects
    decreases |ps|
  {
    if |ps| == 0 then Run(db, 0, false)
    else
      var step := CreateUserTransaction(db, currentUser, ps[0], now, answers[0]);
      if step.Err? then Run(db, 0, true)
      else
        var rest := RunSequentially(step.value, currentUser, ps[1..], now, answers[1..]);
        assert rest.failed ==> exists i :: 0 <= i < |ps[1..]| && !answers[1..][i];
        Run(rest.db, rest.committed + 1, rest.failed)
  }

  /**
   * The committed prefix: the `k`-th new row is the `k`-th payload as written,
   * and so is its stock effect.
   */
  lemma {:induction false} RunRows(db: Db, currentUser: string, ps: seq<Payload>, now: string, answers: seq<bool>)
    requires |answers| == |ps|
    ensures var r := RunSequentially(db, currentUser, ps, now, answers);
      forall k :: 0 <= k < r.committed ==>
        && r.db.rows[|db.rows| + k] == Row(if Truthy(ps[k].userId) then ps[k].userId.value else currentUser,
                                         ps[k].productId, ps[k].txType, ps[k].quantity, ps[k].customerName, now)
        && r.db.effects[|db.effects| + k] == StockEffectOf(ps[k].txType, ps[k].productId, ps[k].quantity)
    decreases |ps|
  {
    if |ps| > 0 && answers[0] {
      var db1 := CreateUserTransaction(db, currentUser, ps[0], now, true).value;
      RunRows(db1, currentUser, ps[1..], now, answers[1..]);
      var r := RunSequentially(db, currentUser, ps, now, answers);
      var r1 := RunSequentially(db1, currentUser, ps[1..], now, answers[1..]);
      assert r == Run(r1.db, r1.committed + 1, r1.failed);
      forall k | 0 <= k < r.committed
        ensures r.db.rows[|db.rows| + k] == Row(if Truthy(ps[k].userId) then ps[k].userId.value else currentUser,
                                              ps[k].productId, ps[k].txType, ps[k].quantity, ps[k].customerName, now)
        ensures r.db.effects[|db.effects| + k] == StockEffectOf(ps[k].txType, ps[k].productId, ps[k].quantity)
      {
        if k > 0 {
          assert ps[1..][k - 1] == ps[k];
          assert |db1.rows| + (k - 1) == |db.rows| + k;
        } else {
          assert r.db.rows[..|db1.rows|] == db1.rows;
          assert r.db.effects[..|db1.effects|] == db1.effects;
        }
      }
    }
  }

  /** `createTransfer` with an items array issues one `TRANSFER` per item, each requesting a decrement of that item. */
  lemma TransferExpansion(req: Request)
    requires req.items.Some?
    ensures var ps := Expand(req, TRANSFER);
      forall i :: 0 <= i < |ps| ==>
        StockEffectOf(ps[i].txType, ps[i].productId, ps[i].quantity) == Decrement(req.items.value[i].productId, req.items.value[i].qty)
  {
  }

  /** `createReturn` requests an increment per item; `createUsedTransaction` requests no stock change at all. */
  lemma ReturnAndUsedExpansion(req: Request)
    requires req.items.Some?
    ensures var ps := Expand(req, RETURN);
      forall i :: 0 <= i < |ps| ==>
        StockEffectOf(ps[i].txType, ps[i].productId, ps[i].quantity) == Increment(req.items.value[i].productId, req.items.value[i].qty)
    ensures var ps := Expand(req, USED);
      forall i :: 0 <= i < |ps| ==> StockEffectOf(ps[i].txType, ps[i].productId, ps[i].quantity) == NoChange
  {
  }

  // ---------------------------------------------------------------------------
  // getUserStats
  // ---------------------------------------------------------------------------

  /** `created_at.startsWith(today)`. */
  predicate StartsWith(s: string, prefix: string) {
    |prefix| <= |s| && s[..|prefix|] == prefix
  }

  function TakenQty(): Row -> int {
    (r: Row) => if r.txType == TRANSFER then r.quantity else 0
  }

  function TakenTodayQty(today: string): Row -> int {
    (r: Row) => if r.txType == TRANSFER && StartsWith(r.createdAt, today) then r.quantity else 0
  }

  function ReturnedQty(): Row -> int {
    (r: Row) => if r.txType == RETURN || r.txType == USED then r.quantity else 0
  }

  datatype UserStats = UserStats(productsTaken: int, currentStockHolding: int)

  function RowOf(user: string): Row -> bool {
    (r: Row) => r.userId == user
  }

  /**
   * `getUserStats()`: over the signed-in user's rows, what was taken today,
   * and everything taken minus everything returned or used.  The loop is the
   * `forEach` with its three running totals.
   */
  method GetUserStats(table: Option<seq<Row>>, user: string, today: string) returns (r: UserStats)
    ensures table.None? ==> r == UserStats(0, 0)
    ensures table.Some? ==>
      var rows := Filter(table.value, RowOf(user));
      && r.productsTaken == SumOf(rows, TakenTodayQty(today))
      && r.currentStockHolding == SumOf(rows, TakenQty()) - SumOf(rows, ReturnedQty())
  {
    if table.None? {
      return UserStats(0, 0);
    }
    var rows := Filter(table.value, RowOf(user));
    var takenToday, totalTaken, totalReturned := 0, 0, 0;
    var i := 0;
    while i < |rows|
      invariant 0 <= i <= |rows|
      invariant takenToday == SumOf(rows[..i], TakenTodayQty(today))
      invariant totalTaken == SumOf(rows[..i], TakenQty())
      invariant totalReturned == SumOf(rows[..i], ReturnedQty())
    {
      var t := rows[i];
      SumAppend(rows[..i], [t], TakenTodayQty(today));
      SumAppend(rows[..i], [t], TakenQty());
      SumAppend(rows[..i], [t], ReturnedQty());
      assert rows[..i + 1] == rows[..i] + [t];
      if t.txType == TRANSFER {
        totalTaken := totalTaken + t.quantity;
        if StartsWith(t.createdAt, today) {
          takenToday := takenToday + t.quantity;
        }
      } else if t.txType == RETURN || t.txType == USED {
        totalReturned := totalReturned + t.quantity;
      }
      i := i + 1;
    }
    assert rows[..|rows|] == rows;
    return UserStats(takenToday, totalTaken - totalReturned);
  }

  /** What was taken today is part of what was taken, when quantities are nonnegative. */
  lemma TakenTodayAtMostTaken(rows: seq<Row>, today: string)
    requires forall i :: 0 <= i < |rows| ==> rows[i].quantity >= 0
    ensures 0 <= SumOf(rows, TakenTodayQty(today)) <= SumOf(rows, TakenQty())
  {
    SumMonotone(rows, TakenTodayQty(today), TakenQty());
    SumNonnegative(rows, TakenTodayQty(today));
  }

  /** Rows of any type other than `TRANSFER`, `RETURN` and `USED` change neither figure. */
  lemma OtherTypesIgnored(rows: seq<Row>, extra: Row, today: string)
    requires extra.txType != TRANSFER && extra.txType != RETURN && extra.txType != USED
    ensures SumOf(rows + [extra], TakenTodayQty(today)) == SumOf(rows, TakenTodayQty(today))
    ensures SumOf(rows + [extra], TakenQty()) - SumOf(rows + [extra], ReturnedQty())
         == SumOf(rows, TakenQty()) - SumOf(rows, ReturnedQty())
  {
    SumAppend(rows, [extra], TakenTodayQty(today));
    SumAppend(rows, [extra], TakenQty());
    SumAppend(rows, [extra], ReturnedQty());
  }

  // ---------------------------------------------------------------------------
  // fetchStaffInventory
  // ---------------------------------------------------------------------------

  /** Whose rows are fetched: the caller's own unless an admin names a user. */
  function SelectedUser(role: string, currentUser: string, userId: Option<string>): (u: string)
    ensures role != "ADMIN" ==> u == currentUser
    ensures !Truthy(userId) ==> u == currentUser
    ensures role == "ADMIN" && Truthy(userId) ==> u == userId.value
  {
    if role != "ADMIN" || !Truthy(userId) then currentUser else userId.value
  }

  function TransferRowOf(user: string): Row -> bool {
    (r: Row) => r.txType == TRANSFER && r.userId == user
  }

  /** The rows the query returns: the selected user's `TRANSFER` rows. */
  function StaffRows(table: seq<Row>, role: string, currentUser: string, userId: Option<string>): (r: seq<Row>)
    ensures forall x :: x in r <==> x in table && x.txType == TRANSFER && x.userId == SelectedUser(role, currentUser, userId)
    ensures |r| == SumOf(table, Indicator(TransferRowOf(SelectedUser(role, currentUser, userId))))
    ensures |r| == |KeptIndices(table, TransferRowOf(SelectedUser(role, currentUser, userId)))|
    ensures forall i :: 0 <= i < |r| ==> r[i] == table[KeptIndices(table, TransferRowOf(SelectedUser(role, currentUser, userId)))[i]]
  {
    var keep := TransferRowOf(SelectedUser(role, currentUser, userId));
    FilterCount(table, keep);
    FilterAtKeptIndices(table, keep);
    forall x ensures x in Filter(table, keep) <==> x in table && keep(x) {
      FilterMembership(table, keep, x);
    }
    Filter(table, keep)
  }

  /** One entry of the grouped inventory. */
  datatype Group = Group(productId: int, quantity: int, transactions: seq<Row>)

  function ProductIs(p: int): Row -> bool {
    (r: Row) => r.productId == p
  }

  function RowQtyFor(p: int): Row -> int {
    (r: Row) => if r.productId == p then r.quantity else 0
  }

  predicate DistinctGroups(gs: seq<Group>) {
    forall i, j :: 0 <= i < j < |gs| ==> gs[i].productId != gs[j].productId
  }

  /** The group holds exactly its product's rows, in order, and their total. */
  predicate GroupHolds(g: Group, rows: seq<Row>) {
    g.transactions == Filter(rows, ProductIs(g.productId)) && g.quantity == SumOf(rows, RowQtyFor(g.productId))
  }

  /** Every row's product has a group. */
  predicate Covered(gs: seq<Group>, rows: seq<Row>) {
    forall i :: 0 <= i < |rows| ==> exists k :: 0 <= k < |gs| && gs[k].productId == rows[i].productId
  }

  /** Every group's product occurs in some row. */
  predicate Witnessed(gs: seq<Group>, rows: seq<Row>) {
    forall k :: 0 <= k < |gs| ==> exists i :: 0 <= i < |rows| && rows[i].productId == gs[k].productId
  }

  /** `gs` is the grouping of `rows` by product. */
  predicate GroupsOf(gs: seq<Group>, rows: seq<Row>) {
    && DistinctGroups(gs)
    && (forall k :: 0 <= k < |gs| ==> GroupHolds(gs[k], rows))
    && Covered(gs, rows)
    && Witnessed(gs, rows)
  }

  /** The index of the group for product `p`, or -1. */
  function GroupIndex(gs: seq<Group>, p: int): (k: int)
    ensures -1 <= k < |gs|
    ensures k == -1 <==> forall j :: 0 <= j < |gs| ==> gs[j].productId != p
    ensures k >= 0 ==> gs[k].productId == p
    decreases |gs|
  {
    if |gs| == 0 then -1
    else if gs[0].productId == p then 0
    else
      var k := GroupIndex(gs[1..], p);
      if k == -1 then -1 else k + 1
  }

  /**
   * The grouping loop of `fetchStaffInventory`: one group per distinct
   * product, holding that product's rows and the sum of their quantities;
   * every row lands in exactly one group.
   */
  method GroupByProduct(rows: seq<Row>) returns (groups: seq<Group>)
    ensures GroupsOf(groups, rows)
  {
    groups := [];
    var i := 0;
    while i < |rows|
      invariant 0 <= i <= |rows|
      invariant GroupsOf(groups, rows[..i])
    {
      var t := rows[i];
      var prefix := rows[..i];
      assert rows[..i + 1] == prefix + [t];
      var k := GroupIndex(groups, t.productId);
      var next: seq<Group>;
      if k == -1 {
        next := groups + [Group(t.productId, t.quantity, [t])];
      } else {
        next := groups[k := Group(t.productId, groups[k].quantity + t.quantity, groups[k].transactions + [t])];
      }
      GroupStep(groups, prefix, t, k, next);
      groups := next;
      i := i + 1;
    }
    assert rows[..|rows|] == rows;
  }

  /** Adding one row to the groups of a prefix gives the groups of the longer prefix. */
  lemma GroupStep(gs: seq<Group>, prefix: seq<Row>, t: Row, k: int, next: seq<Group>)
    requires GroupsOf(gs, prefix)
    requires k == GroupIndex(gs, t.productId)
    requires k == -1 ==> next == gs + [Group(t.productId, t.quantity, [t])]
    requires k >= 0 ==> next == gs[k := Group(t.productId, gs[k].quantity + t.quantity, gs[k].transactions + [t])]
    ensures GroupsOf(next, prefix + [t])
  {
    var rows := prefix + [t];
    GroupStepHolds(gs, prefix, t, k, next, rows);
    GroupStepCovers(gs, prefix, t, k, next, rows);
    GroupStepWitnessed(gs, prefix, t, k, next, rows);
  }

  lemma GroupStepHolds(gs: seq<Group>, prefix: seq<Row>, t: Row, k: int, next: seq<Group>, rows: seq<Row>)
    requires GroupsOf(gs, prefix)
    requires rows == prefix + [t]
    requires k == GroupIndex(gs, t.productId)
    requires k == -1 ==> next == gs + [Group(t.productId, t.quantity, [t])]
    requires k >= 0 ==> next == gs[k := Group(t.productId, gs[k].quantity + t.quantity, gs[k].transactions + [t])]
    ensures DistinctGroups(next)
    ensures forall j :: 0 <= j < |next| ==> GroupHolds(next[j], rows)
  {
    forall j | 0 <= j < |next| ensures GroupHolds(next[j], rows) {
      if k == -1 && j == |gs| {
        forall i | 0 <= i < |prefix| ensures prefix[i].productId != t.productId {
          var m :| 0 <= m < |gs| && gs[m].productId == prefix[i].productId;
        }
        EntryNew(prefix, t);
      } else if j == k {
        EntryGrown(gs[k], prefix, t);
      } else {
        assert next[j] == gs[j];
        EntryKept(gs[j], prefix, t);
      }
    }
  }

  lemma EntryKept(g: Group, prefix: seq<Row>, t: Row)
    requires GroupHolds(g, prefix)
    requires g.productId != t.productId
    ensures GroupHolds(g, prefix + [t])
  {
    FilterAppend(prefix, [t], ProductIs(g.productId));
    SumAppend(prefix, [t], RowQtyFor(g.productId));
    assert [t][1..] == [];
  }

  lemma EntryGrown(g: Group, prefix: seq<Row>, t: Row)
    requires GroupHolds(g, prefix)
    requires g.productId == t.productId
    ensures GroupHolds(Group(t.productId, g.quantity + t.quantity, g.transactions + [t]), prefix + [t])
  {
    FilterAppend(prefix, [t], ProductIs(g.productId));
    SumAppend(prefix, [t], RowQtyFor(g.productId));
    assert [t][1..] == [];
  }

  lemma EntryNew(prefix: seq<Row>, t: Row)
    requires forall i :: 0 <= i < |prefix| ==> prefix[i].productId != t.productId
    ensures GroupHolds(Group(t.productId, t.quantity, [t]), prefix + [t])
  {
    FilterAllDropped(prefix, ProductIs(t.productId));
    SumZero(prefix, RowQtyFor(t.productId));
    EntryGrown(Group(t.productId, 0, []), prefix, t);
  }

  lemma GroupStepCovers(gs: seq<Group>, prefix: seq<Row>, t: Row, k: int, next: seq<Group>, rows: seq<Row>)
    requires Covered(gs, prefix)
    requires rows == prefix + [t]
    requires k == GroupIndex(gs, t.productId)
    requires k == -1 ==> next == gs + [Group(t.productId, t.quantity, [t])]
    requires k >= 0 ==> next == gs[k := Group(t.productId, gs[k].quantity + t.quantity, gs[k].transactions + [t])]
    ensures Covered(next, rows)
  {
    forall i | 0 <= i < |rows| ensures exists j :: 0 <= j < |next| && next[j].productId == rows[i].productId {
      if i < |prefix| {
        assert rows[i] == prefix[i];
        var j :| 0 <= j < |gs| && gs[j].productId == prefix[i].productId;
        assert next[j].productId == rows[i].productId;
      } else if k == -1 {
        assert rows[i] == t;
        assert next[|gs|].productId == rows[i].productId;
      } else {
        assert rows[i] == t;
        assert next[k].productId == rows[i].productId;
      }
    }
    assert forall i :: 0 <= i < |rows| ==> exists j :: 0 <= j < |next| && next[j].productId == rows[i].productId;
  }

  lemma GroupStepWitnessed(gs: seq<Group>, prefix: seq<Row>, t: Row, k: int, next: seq<Group>, rows: seq<Row>)
    requires Witnessed(gs, prefix)
    requires rows == prefix + [t]
    requires k == GroupIndex(gs, t.productId)
    requires k == -1 ==> next == gs + [Group(t.productId, t.quantity, [t])]
    requires k >= 0 ==> next == gs[k := Group(t.productId, gs[k].quantity + t.quantity, gs[k].transactions + [t])]
    ensures Witnessed(next, rows)
  {
    forall j | 0 <= j < |next| ensures exists i :: 0 <= i < |rows| && rows[i].productId == next[j].productId {
      if j < |gs| && (k == -1 || j != k) {
        var i :| 0 <= i < |prefix| && prefix[i].productId == gs[j].productId;
        assert rows[i] == prefix[i];
        assert rows[i].productId == next[j].productId;
      } else {
        assert rows[|prefix|] == t;
        assert next[j].productId == t.productId;
      }
    }
    assert forall j :: 0 <= j < |next| ==> exists i :: 0 <= i < |rows| && rows[i].productId == next[j].productId;
  }

  /** The group quantities add up to the total quantity of the rows. */
  lemma GroupTotals(gs: seq<Group>, rows: seq<Row>)
    requires GroupsOf(gs, rows)
    ensures SumOf(gs, GroupQty()) == SumOf(rows, RowQty())
  {
    var f := GroupRowTerm();
    forall k | 0 <= k < |gs| ensures GroupQty()(gs[k]) == RowTotals(f, rows)(gs[k]) {
      SumCongruent(rows, FixFirst(f, gs[k]), RowQtyFor(gs[k].productId));
    }
    SumCongruent(gs, GroupQty(), RowTotals(f, rows));
    SumSwap(gs, rows, f);
    forall i | 0 <= i < |rows| ensures ColumnTotals(f, gs)(rows[i]) == RowQty()(rows[i]) {
      OneGroupMatches(gs, rows[i]);
    }
    SumCongruent(rows, ColumnTotals(f, gs), RowQty());
  }

  function GroupQty(): Group -> int {
    (g: Group) => g.quantity
  }

  function RowQty(): Row -> int {
    (r: Row) => r.quantity
  }

  function GroupRowTerm(): (Group, Row) -> int {
    (g: Group, r: Row) => if r.productId == g.productId then r.quantity else 0
  }

  /** With distinct groups, a row whose product has a group is counted once across the groups. */
  lemma {:induction false} OneGroupMatches(gs: seq<Group>, t: Row)
    requires DistinctGroups(gs)
    requires exists k :: 0 <= k < |gs| && gs[k].productId == t.productId
    ensures SumOf(gs, FixSecond(GroupRowTerm(), t)) == t.quantity
    decreases |gs|
  {
    var f := FixSecond(GroupRowTerm(), t);
    if gs[0].productId == t.productId {
      forall j | 0 <= j < |gs[1..]| ensures f(gs[1..][j]) == 0 {
        assert gs[1..][j] == gs[j + 1];
      }
      SumZero(gs[1..], f);
    } else {
      var k :| 0 <= k < |gs| && gs[k].productId == t.productId;
      assert gs[1..][k - 1].productId == t.productId;
      OneGroupMatches(gs[1..], t);
    }
  }
}
