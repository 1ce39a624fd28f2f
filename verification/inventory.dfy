/**
 * The full-inventory folds: `getStaffInventory` of the localStorage backend
 * and of the mock server.  Each walks the tables with `forEach`, keeping a
 * product-id-keyed running map, then deletes the entries that are zero or
 * negative.  The localStorage backend adds and subtracts unconditionally
 * and counts job returns; the mock server subtracts only from an entry that
 * is already non-zero and ignores job returns.
 */
module Inventory {
  import opened Outcomes
  import opened Sums
  import opened Ledger

  /** `inventory[k] || 0`. */
  function Get(m: map<int, int>, k: int): int {
    if k in m then m[k] else 0
  }

  /**
   * One unguarded `forEach` pass: every row selected by `touch` adds
   * `delta(row)` to the entry `key(row)`, which starts at 0 when missing.
   */
  function Tally<T>(m: map<int, int>, rows: seq<T>, touch: T -> bool, key: T -> int, delta: T -> int): map<int, int>
    decreases |rows|
  {
    if |rows| == 0 then m
    else
      var r := rows[0];
      var m1 := if touch(r) then m[key(r) := Get(m, key(r)) + delta(r)] else m;
      Tally(m1, rows[1..], touch, key, delta)
  }

  /**
   * One guarded pass of the mock server: a selected row changes its entry
   * only when that entry exists and is non-zero (`if (inventory[pid])`).
   */
  function TallyGuarded<T>(m: map<int, int>, rows: seq<T>, touch: T -> bool, key: T -> int, delta: T -> int): (r: map<int, int>)
    ensures r.Keys == m.Keys
    decreases |rows|
  {
    if |rows| == 0 then m
    else
      var x := rows[0];
      var m1 := if touch(x) && key(x) in m && m[key(x)] != 0 then m[key(x) := m[key(x)] + delta(x)] else m;
      TallyGuarded(m1, rows[1..], touch, key, delta)
  }

  /** The change one row makes to entry `k` in an unguarded pass. */
  function Contribution<T>(touch: T -> bool, key: T -> int, delta: T -> int, k: int): T -> int {
    r => if touch(r) && key(r) == k then delta(r) else 0
  }

  /** An unguarded pass leaves each entry at its start value plus every selected row's delta for it. */
  lemma {:induction false} TallyValue<T>(m: map<int, int>, rows: seq<T>, touch: T -> bool, key: T -> int, delta: T -> int, k: int)
    ensures Get(Tally(m, rows, touch, key, delta), k) == Get(m, k) + SumOf(rows, Contribution(touch, key, delta, k))
    decreases |rows|
  {
    if |rows| > 0 {
      var r := rows[0];
      var m1 := if touch(r) then m[key(r) := Get(m, key(r)) + delta(r)] else m;
      TallyValue(m1, rows[1..], touch, key, delta, k);
    }
  }

  /** The clean-up step: entries `<= 0` are deleted. */
  function DropNonPositive(m: map<int, int>): (r: map<int, int>)
    ensures forall k :: k in r <==> Get(m, k) > 0
    ensures forall k :: k in r ==> k in m && r[k] == m[k]
  {
    map k | k in m && m[k] > 0 :: m[k]
  }

  // ---------------------------------------------------------------------------
  // Row selectors
  // ---------------------------------------------------------------------------

  /** `const b = batches.find(b => b.id === line.batchId); b && b.staff_id === staff`. */
  function OwnedBy(bs: seq<Batch>, staff: int): BatchLine -> bool {
    (l: BatchLine) => var b := FindBatch(bs, l.batchId); b.Some? && b.value.staffId == staff
  }

  function LineKey(): BatchLine -> int {
    (l: BatchLine) => l.productId
  }

  function LineAdd(): BatchLine -> int {
    (l: BatchLine) => l.qty
  }

  function LineSub(): BatchLine -> int {
    (l: BatchLine) => -l.qty
  }

  function TxKey(): UserTx -> int {
    (u: UserTx) => u.productId
  }

  /** The localStorage backend's user-transaction pass: `TRANSFER` subtracts, `JOB_RETURN` adds. */
  function LocalTxTouch(staff: int): UserTx -> bool {
    (u: UserTx) => u.userId == staff && (u.txType == TRANSFER || u.txType == JOB_RETURN)
  }

  function LocalTxDelta(): UserTx -> int {
    (u: UserTx) => if u.txType == TRANSFER then -u.quantity else u.quantity
  }

  /** The mock server's user-transaction pass: only `TRANSFER` rows, subtracted. */
  function SaleTouch(staff: int): UserTx -> bool {
    (u: UserTx) => u.userId == staff && u.txType == TRANSFER
  }

  function SaleDelta(): UserTx -> int {
    (u: UserTx) => -u.quantity
  }

  // ---------------------------------------------------------------------------
  // The two folds
  // ---------------------------------------------------------------------------

  function ReceivedMap(s: State, staff: int): map<int, int> {
    Tally(map[], s.transferItems, OwnedBy(s.transfers, staff), LineKey(), LineAdd())
  }

  function LocalRaw(s: State, staff: int): map<int, int> {
    var afterReturns := Tally(ReceivedMap(s, staff), s.returnItems, OwnedBy(s.returnBatches, staff), LineKey(), LineSub());
    Tally(afterReturns, s.userTxs, LocalTxTouch(staff), TxKey(), LocalTxDelta())
  }

  /** `getStaffInventory` of the localStorage backend. */
  function LocalInventory(s: State, staff: int): (r: map<int, int>)
    ensures forall p :: p in r ==> r[p] > 0
  {
    DropNonPositive(LocalRaw(s, staff))
  }

  function ServerRaw(s: State, staff: int): map<int, int> {
    var afterReturns := TallyGuarded(ReceivedMap(s, staff), s.returnItems, OwnedBy(s.returnBatches, staff), LineKey(), LineSub());
    TallyGuarded(afterReturns, s.userTxs, SaleTouch(staff), TxKey(), SaleDelta())
  }

  /** `getStaffInventory` of the mock server. */
  function ServerInventory(s: State, staff: int): (r: map<int, int>)
    ensures forall p :: p in r ==> r[p] > 0
    ensures forall p :: p in r ==> p in ReceivedMap(s, staff)
  {
    DropNonPositive(ServerRaw(s, staff))
  }

  // ---------------------------------------------------------------------------
  // The localStorage inventory is the positive part of the holding
  // ---------------------------------------------------------------------------

  /**
   * With unique header ids, the double loop "headers of `staff`, then their
   * lines" counts a line exactly when `find` on its batch id lands on a
   * header of `staff`.
   */
  lemma {:induction false} HeaderMatchCount(bs: seq<Batch>, l: BatchLine, staff: int, p: int)
    requires UniqueBatchIds(bs)
    ensures SumOf(bs, FixSecond(LineTerm(staff, p), l))
         == Contribution(OwnedBy(bs, staff), LineKey(), LineAdd(), p)(l)
    decreases |bs|
  {
    if |bs| > 0 {
      var f := FixSecond(LineTerm(staff, p), l);
      if bs[0].id == l.batchId {
        forall i | 0 <= i < |bs[1..]| ensures f(bs[1..][i]) == 0 {
          assert bs[1..][i] == bs[i + 1];
        }
        SumZero(bs[1..], f);
      } else {
        HeaderMatchCount(bs[1..], l, staff, p);
      }
    }
  }

  /** The line-driven pass over a batch table sums to the header-driven `BatchedQty`. */
  lemma BatchedQtyByLines(bs: seq<Batch>, ls: seq<BatchLine>, staff: int, p: int)
    requires UniqueBatchIds(bs)
    ensures SumOf(ls, Contribution(OwnedBy(bs, staff), LineKey(), LineAdd(), p)) == BatchedQty(bs, ls, staff, p)
  {
    SumSwap(bs, ls, LineTerm(staff, p));
    forall j | 0 <= j < |ls|
      ensures ColumnTotals(LineTerm(staff, p), bs)(ls[j]) == Contribution(OwnedBy(bs, staff), LineKey(), LineAdd(), p)(ls[j])
    {
      HeaderMatchCount(bs, ls[j], staff, p);
    }
    SumCongruent(ls, ColumnTotals(LineTerm(staff, p), bs), Contribution(OwnedBy(bs, staff), LineKey(), LineAdd(), p));
  }

  /** Entry `p` of the running map before clean-up equals the holding of `p`. */
  lemma LocalRawIsHolding(s: State, staff: int, p: int)
    requires UniqueBatchIds(s.transfers) && UniqueBatchIds(s.returnBatches)
    ensures Get(LocalRaw(s, staff), p) == Holding(s, staff, p)
  {
    var m1 := ReceivedMap(s, staff);
    var m2 := Tally(m1, s.returnItems, OwnedBy(s.returnBatches, staff), LineKey(), LineSub());
    TallyValue(map[], s.transferItems, OwnedBy(s.transfers, staff), LineKey(), LineAdd(), p);
    TallyValue(m1, s.returnItems, OwnedBy(s.returnBatches, staff), LineKey(), LineSub(), p);
    TallyValue(m2, s.userTxs, LocalTxTouch(staff), TxKey(), LocalTxDelta(), p);
    BatchedQtyByLines(s.transfers, s.transferItems, staff, p);
    BatchedQtyByLines(s.returnBatches, s.returnItems, staff, p);
    SumNegate(s.returnItems, Contribution(OwnedBy(s.returnBatches, staff), LineKey(), LineAdd(), p),
              Contribution(OwnedBy(s.returnBatches, staff), LineKey(), LineSub(), p));
    var sold := TxTerm(staff, p, TRANSFER);
    var back := TxTerm(staff, p, JOB_RETURN);
    var c := Contribution(LocalTxTouch(staff), TxKey(), LocalTxDelta(), p);
    var negSold := FixFirst((a: int, u: UserTx) => a * sold(u), -1);
    SumNegate(s.userTxs, sold, negSold);
    SumAdd(s.userTxs, negSold, back, c);
  }

  /**
   * When transfer ids and return ids are unique, the localStorage inventory
   * holds exactly the products with a positive holding, each mapped to that
   * holding.
   */
  lemma LocalInventoryIsPositiveHolding(s: State, staff: int)
    requires UniqueBatchIds(s.transfers) && UniqueBatchIds(s.returnBatches)
    ensures forall p :: p in LocalInventory(s, staff) <==> Holding(s, staff, p) > 0
    ensures forall p :: p in LocalInventory(s, staff) ==> LocalInventory(s, staff)[p] == Holding(s, staff, p)
  {
    forall p ensures Get(LocalRaw(s, staff), p) == Holding(s, staff, p) {
      LocalRawIsHolding(s, staff, p);
    }
  }

  // ---------------------------------------------------------------------------
  // Where the two folds agree and where they do not
  // ---------------------------------------------------------------------------

  /**
   * Relation between the guarded map `g` and the unguarded map `u` while
   * only non-positive deltas are applied: an entry either agrees, or is
   * stuck at 0 in `g` while `u` has gone to 0 or below; a key missing from
   * `g` has 0 or less in `u`.
   */
  ghost predicate Tracks(g: map<int, int>, u: map<int, int>) {
    && (forall k :: k in g ==> g[k] == Get(u, k) || (g[k] == 0 && Get(u, k) <= 0))
    && (forall k :: k !in g ==> Get(u, k) <= 0)
  }

  lemma {:induction false} GuardedTracksUnguarded<T>(g: map<int, int>, u: map<int, int>, rows: seq<T>,
                                                     touchG: T -> bool, touchU: T -> bool, key: T -> int,
                                                     deltaG: T -> int, deltaU: T -> int)
    requires Tracks(g, u)
    requires forall i :: 0 <= i < |rows| ==> touchG(rows[i]) == touchU(rows[i])
    requires forall i :: 0 <= i < |rows| && touchG(rows[i]) ==> deltaG(rows[i]) == deltaU(rows[i]) <= 0
    ensures Tracks(TallyGuarded(g, rows, touchG, key, deltaG), Tally(u, rows, touchU, key, deltaU))
    decreases |rows|
  {
    if |rows| > 0 {
      var x := rows[0];
      var g1 := if touchG(x) && key(x) in g && g[key(x)] != 0 then g[key(x) := g[key(x)] + deltaG(x)] else g;
      var u1 := if touchU(x) then u[key(x) := Get(u, key(x)) + deltaU(x)] else u;
      assert Tracks(g1, u1);
      GuardedTracksUnguarded(g1, u1, rows[1..], touchG, touchU, key, deltaG, deltaU);
    }
  }

  lemma TracksAgreeOnPositive(g: map<int, int>, u: map<int, int>)
    requires Tracks(g, u)
    ensures DropNonPositive(g) == DropNonPositive(u)
  {
    var a := DropNonPositive(g);
    var b := DropNonPositive(u);
    forall k ensures k in a <==> k in b {
      if Get(u, k) > 0 {
        assert k in g;
      }
    }
    forall k | k in a ensures a[k] == b[k] {
    }
    assert a.Keys == b.Keys;
  }

  /**
   * The two inventories coincide when `staff` has no job returns and every
   * return line and sale of `staff` has a non-negative quantity: the guard
   * then only skips subtractions from an entry that already reached 0.
   */
  lemma InventoriesAgree(s: State, staff: int)
    requires forall i :: 0 <= i < |s.userTxs| && s.userTxs[i].userId == staff ==> s.userTxs[i].txType != JOB_RETURN
    requires forall i :: 0 <= i < |s.userTxs| && SaleTouch(staff)(s.userTxs[i]) ==> s.userTxs[i].quantity >= 0
    requires forall i :: 0 <= i < |s.returnItems| && OwnedBy(s.returnBatches, staff)(s.returnItems[i]) ==> s.returnItems[i].qty >= 0
    ensures ServerInventory(s, staff) == LocalInventory(s, staff)
  {
    var m1 := ReceivedMap(s, staff);
    GuardedTracksUnguarded(m1, m1, s.returnItems, OwnedBy(s.returnBatches, staff), OwnedBy(s.returnBatches, staff),
                           LineKey(), LineSub(), LineSub());
    var g2 := TallyGuarded(m1, s.returnItems, OwnedBy(s.returnBatches, staff), LineKey(), LineSub());
    var u2 := Tally(m1, s.returnItems, OwnedBy(s.returnBatches, staff), LineKey(), LineSub());
    GuardedTracksUnguarded(g2, u2, s.userTxs, SaleTouch(staff), LocalTxTouch(staff), TxKey(), SaleDelta(), LocalTxDelta());
    TracksAgreeOnPositive(ServerRaw(s, staff), LocalRaw(s, staff));
  }

  /** A state with one product transferred to staff 7: 5 units of product 1. */
  function OneTransfer(): State {
    State([], [], [Batch(1, 7)], [BatchLine(1, 1, 1, 5)], [], [], [])
  }

  /** A job return is counted by the localStorage backend and ignored by the mock server. */
  lemma JobReturnIgnoredByServer()
    ensures var s := OneTransfer().(userTxs := [UserTx(7, 1, 3, JOB_RETURN, Some("Site"))]);
      LocalInventory(s, 7) == map[1 := 8] && ServerInventory(s, 7) == map[1 := 5]
  {
    var s := OneTransfer().(userTxs := [UserTx(7, 1, 3, JOB_RETURN, Some("Site"))]);
    assert ReceivedMap(s, 7) == map[1 := 5];
    assert s.userTxs[1..] == [];
    assert Tally(map[1 := 5], s.returnItems, OwnedBy(s.returnBatches, 7), LineKey(), LineSub()) == map[1 := 5];
    assert TallyGuarded(map[1 := 5], s.returnItems, OwnedBy(s.returnBatches, 7), LineKey(), LineSub()) == map[1 := 5];
    assert Tally(map[1 := 5], s.userTxs, LocalTxTouch(7), TxKey(), LocalTxDelta()) == map[1 := 8];
    assert TallyGuarded(map[1 := 5], s.userTxs, SaleTouch(7), TxKey(), SaleDelta()) == map[1 := 5];
  }

  /**
   * Once an entry reaches exactly 0 the mock server skips later lines for
   * it, so a negative-quantity return (which nothing rejects) is lost.
   */
  lemma ZeroEntryStopsServerUpdates()
    ensures var s := OneTransfer().(returnBatches := [Batch(1, 7), Batch(2, 7)],
                                    returnItems := [BatchLine(1, 1, 1, 5), BatchLine(2, 2, 1, -4)]);
      LocalInventory(s, 7) == map[1 := 4] && ServerInventory(s, 7) == map[]
  {
    var s := OneTransfer().(returnBatches := [Batch(1, 7), Batch(2, 7)],
                            returnItems := [BatchLine(1, 1, 1, 5), BatchLine(2, 2, 1, -4)]);
    assert ReceivedMap(s, 7) == map[1 := 5];
    assert LocalRaw(s, 7) == map[1 := 4];
    assert ServerRaw(s, 7) == map[1 := 0];
  }

  // ---------------------------------------------------------------------------
  // Staff dashboard figures (`getUserStats` / `GET /api/user-stats`)
  // ---------------------------------------------------------------------------

  /** A set is either empty or has an element. */
  lemma SomeKey(keys: set<int>)
    ensures keys == {} || exists k :: k in keys
  {
    if forall k :: k !in keys {
      assert keys == {};
    }
  }

  /** Sum of the values of a map (`Object.values(inventory).reduce((a, b) => a + b, 0)`). */
  ghost function MapTotal(m: map<int, int>): int
    decreases m.Keys
  {
    if m.Keys == {} then 0
    else
      SomeKey(m.Keys);
      var k :| k in m.Keys;
      m[k] + MapTotal(m - {k})
  }

  /** For a map of positive values, the total is at least every value, and 0 exactly when the map is empty. */
  lemma {:induction false} MapTotalOfPositive(m: map<int, int>)
    requires forall k :: k in m ==> m[k] > 0
    ensures MapTotal(m) >= 0
    ensures MapTotal(m) == 0 <==> |m| == 0
    ensures forall k :: k in m ==> m[k] <= MapTotal(m)
    decreases m.Keys
  {
    if m.Keys != {} {
      SomeKey(m.Keys);
      var k :| k in m.Keys && MapTotal(m) == m[k] + MapTotal(m - {k});
      var rest := m - {k};
      MapTotalOfPositive(rest);
      forall j | j in m ensures m[j] <= MapTotal(m) {
        if j != k {
          assert j in rest && rest[j] == m[j];
        }
      }
    } else {
      assert |m| == |m.Keys|;
    }
  }

  datatype UserStats = UserStats(productsTaken: int, pendingReturns: int, balanceToReturn: int)

  /** The staff dashboard: both figures are the total of the inventory. */
  ghost function GetUserStats(inv: map<int, int>): (r: UserStats)
    requires forall k :: k in inv ==> inv[k] > 0
    ensures r.productsTaken == r.balanceToReturn && r.pendingReturns == 0
    ensures r.productsTaken >= 0 && (r.productsTaken == 0 <==> |inv| == 0)
    ensures forall k :: k in inv ==> inv[k] <= r.productsTaken
  {
    MapTotalOfPositive(inv);
    UserStats(MapTotal(inv), 0, MapTotal(inv))
  }

  /** With unique ids, the localStorage staff dashboard is non-zero exactly when some holding is positive. */
  lemma LocalUserStatsPositive(s: State, staff: int)
    requires UniqueBatchIds(s.transfers) && UniqueBatchIds(s.returnBatches)
    ensures GetUserStats(LocalInventory(s, staff)).productsTaken > 0 <==> exists p :: Holding(s, staff, p) > 0
  {
    var inv := LocalInventory(s, staff);
    LocalInventoryIsPositiveHolding(s, staff);
    if exists p :: Holding(s, staff, p) > 0 {
      var p :| Holding(s, staff, p) > 0;
      assert p in inv;
    } else {
      forall p ensures p !in inv.Keys {
        assert Holding(s, staff, p) <= 0;
      }
      assert inv.Keys == {};
      assert |inv| == |inv.Keys| == 0;
    }
  }
}
