/**
 * The stock ledger shared by both in-process backends (the localStorage
 * backend and the Express mock server): the seven tables, the per-pair
 * holding fold, the commit steps both backends perform after validation,
 * the product catalogue helpers, and the dashboard/report aggregates.
 *
 * Quantities are unbounded integers: the source never rejects zero or
 * negative quantities, so neither does the model.  `parseInt` on ids is the
 * identity on `int`.
 */
module Ledger {
  import opened Outcomes
  import opened Sums

  /** User-transaction types, as the strings the source stores. */
  const TRANSFER := "TRANSFER"
  const JOB_RETURN := "JOB_RETURN"
  const RETURN := "RETURN"
  const USED := "USED"

  /** Threshold of the dashboard's low-stock count and the default low-stock report. */
  const LOW_STOCK_THRESHOLD := 10

  /** A catalogue entry; `stockQty` is the materialised warehouse count. */
  datatype Product = Product(id: int, name: string, barcode: string, sellingPrice: int, stockQty: int)

  /** An account; `token` is absent until the first login or signup. */
  datatype User = User(id: int, name: string, mobile: string, password: string, role: string, token: Option<string>)

  /**
   * Header of a transfer (admin to staff) or of a return (staff to
   * warehouse): both tables store `{id, staff_id, created_at}`.
   */
  datatype Batch = Batch(id: int, staffId: int)

  /** A `transfer_items` or `return_items` row; `batchId` is `transfer_id` or `return_id`. */
  datatype BatchLine = BatchLine(id: int, batchId: int, productId: int, qty: int)

  /** A `user_transactions` row (its random fractional id is not modelled). */
  datatype UserTx = UserTx(userId: int, productId: int, quantity: int, txType: string, customerName: Option<string>)

  /** A requested line item `{productId, qty}`. */
  datatype Item = Item(productId: int, qty: int)

  datatype State = State(
    users: seq<User>,
    products: seq<Product>,
    transfers: seq<Batch>,
    transferItems: seq<BatchLine>,
    returnBatches: seq<Batch>,
    returnItems: seq<BatchLine>,
    userTxs: seq<UserTx>)

  function Max0(x: int): (r: int)
    ensures r >= 0 && r >= x
    ensures x >= 0 ==> r == x
  {
    if x < 0 then 0 else x
  }

  // ---------------------------------------------------------------------------
  // Lookups
  // ---------------------------------------------------------------------------

  /** `products.findIndex(p => p.id === id)`: the first match, or -1. */
  function IndexOfProduct(ps: seq<Product>, id: int): (r: int)
    ensures -1 <= r < |ps|
    ensures r == -1 <==> forall i :: 0 <= i < |ps| ==> ps[i].id != id
    ensures r >= 0 ==> ps[r].id == id && forall j :: 0 <= j < r ==> ps[j].id != id
    decreases |ps|
  {
    if |ps| == 0 then -1
    else if ps[0].id == id then 0
    else
      var k := IndexOfProduct(ps[1..], id);
      if k == -1 then -1 else k + 1
  }

  /** `products.find(p => p.id === id)`. */
  function FindProduct(ps: seq<Product>, id: int): Option<Product> {
    var i := IndexOfProduct(ps, id);
    if i == -1 then None else Some(ps[i])
  }

  /** `products.find(p => p.id === id)?.name`: the name of the first product with that id, if any. */
  function ProductName(ps: seq<Product>, id: int): (r: Option<string>)
    ensures r.None? <==> forall i :: 0 <= i < |ps| ==> ps[i].id != id
    ensures r.Some? ==> exists i :: 0 <= i < |ps| && ps[i].id == id && ps[i].name == r.value
                          && forall j :: 0 <= j < i ==> ps[j].id != id
  {
    var p := FindProduct(ps, id);
    if p.Some? then Some(p.value.name) else None
  }

  /** `batches.find(b => b.id === id)`. */
  function FindBatch(bs: seq<Batch>, id: int): (r: Option<Batch>)
    ensures r.None? <==> forall i :: 0 <= i < |bs| ==> bs[i].id != id
    ensures r.Some? ==> r.value.id == id && r.value in bs
    decreases |bs|
  {
    if |bs| == 0 then None
    else if bs[0].id == id then Some(bs[0])
    else FindBatch(bs[1..], id)
  }

  /** Every requested product exists in the catalogue. */
  predicate AllPresent(ps: seq<Product>, items: seq<Item>) {
    forall i :: 0 <= i < |items| ==> IndexOfProduct(ps, items[i].productId) >= 0
  }

  /** The line names a product of the catalogue. */
  function IsPresent(ps: seq<Product>): Item -> bool {
    (it: Item) => IndexOfProduct(ps, it.productId) >= 0
  }

  /** `p => p.id !== id`, the predicate that deletes a product. */
  function KeepsOtherIds(id: int): Product -> bool {
    (p: Product) => p.id != id
  }

  /** An absent type, the empty string and `TRANSFER` all mean a sale that is checked against the holding. */
  predicate IsOutbound(txType: Option<string>) {
    !Truthy(txType) || txType.value == TRANSFER
  }

  predicate UniqueBatchIds(bs: seq<Batch>) {
    forall i, j :: 0 <= i < j < |bs| ==> bs[i].id != bs[j].id
  }

  predicate UniqueProductIds(ps: seq<Product>) {
    forall i, j :: 0 <= i < j < |ps| ==> ps[i].id != ps[j].id
  }

  // ---------------------------------------------------------------------------
  // The holding fold (getStaffStockForProduct of the localStorage backend)
  // ---------------------------------------------------------------------------

  /**
   * Contribution of line `l` under header `b` to `(staff, p)`: the source
   * keeps the headers of `staff`, takes the lines whose batch id is the
   * header's id, keeps product `p`, and sums `qty`.
   */
  function LineTerm(staff: int, p: int): (Batch, BatchLine) -> int {
    (b: Batch, l: BatchLine) => if b.staffId == staff && l.batchId == b.id && l.productId == p then l.qty else 0
  }

  /** Quantity of `p` on the lines of `staff`'s batches. */
  function BatchedQty(bs: seq<Batch>, ls: seq<BatchLine>, staff: int, p: int): int {
    SumOf(bs, RowTotals(LineTerm(staff, p), ls))
  }

  function TxTerm(staff: int, p: int, txType: string): UserTx -> int {
    (u: UserTx) => if u.userId == staff && u.productId == p && u.txType == txType then u.quantity else 0
  }

  /** Quantity of `p` in `staff`'s user transactions of the given type. */
  function TxQty(txs: seq<UserTx>, staff: int, p: int, txType: string): int {
    SumOf(txs, TxTerm(staff, p, txType))
  }

  /**
   * On-hand quantity of product `p` held by `staff`: received through
   * transfers, minus returned to the warehouse, minus sold (`TRANSFER` user
   * transactions), plus job returns.  `RETURN` user transactions are not
   * counted: the return lines already are.
   */
  function Holding(s: State, staff: int, p: int): int {
    BatchedQty(s.transfers, s.transferItems, staff, p)
    - BatchedQty(s.returnBatches, s.returnItems, staff, p)
    - TxQty(s.userTxs, staff, p, TRANSFER)
    + TxQty(s.userTxs, staff, p, JOB_RETURN)
  }

  // ---------------------------------------------------------------------------
  // Well-formed tables: ids are `length + 1` at insertion time
  // ---------------------------------------------------------------------------

  predicate SequentialIds(bs: seq<Batch>) {
    forall i :: 0 <= i < |bs| ==> bs[i].id == i + 1
  }

  /** Line ids are sequential and every line points at an existing header. */
  predicate LinesWellFormed(ls: seq<BatchLine>, headers: int) {
    forall i :: 0 <= i < |ls| ==> ls[i].id == i + 1 && 1 <= ls[i].batchId <= headers
  }

  /** The shape every table has when it was built only by the ledger operations. */
  predicate WellFormed(s: State) {
    && SequentialIds(s.transfers)
    && LinesWellFormed(s.transferItems, |s.transfers|)
    && SequentialIds(s.returnBatches)
    && LinesWellFormed(s.returnItems, |s.returnBatches|)
  }

  lemma SequentialIdsAreUnique(bs: seq<Batch>)
    requires SequentialIds(bs)
    ensures UniqueBatchIds(bs)
  {
  }

  /** Quantity of `p` on a run of lines. */
  function LineQtyFor(p: int): BatchLine -> int {
    (l: BatchLine) => if l.productId == p then l.qty else 0
  }

  /**
   * Appending a new header with id `|bs| + 1` and lines pointing at it adds
   * exactly the new lines' quantity of `p` to the header's staff member and
   * nothing to anyone else.
   */
  lemma {:induction false} BatchedQtyAfterAppend(bs: seq<Batch>, ls: seq<BatchLine>, to: int, nl: seq<BatchLine>, staff: int, p: int)
    requires SequentialIds(bs) && LinesWellFormed(ls, |bs|)
    requires forall i :: 0 <= i < |nl| ==> nl[i].batchId == |bs| + 1
    ensures BatchedQty(bs + [Batch(|bs| + 1, to)], ls + nl, staff, p)
         == BatchedQty(bs, ls, staff, p) + (if to == staff then SumOf(nl, LineQtyFor(p)) else 0)
  {
    var f := LineTerm(staff, p);
    var nb := Batch(|bs| + 1, to);
    SumAppend(bs, [nb], RowTotals(f, ls + nl));
    forall i | 0 <= i < |bs|
      ensures RowTotals(f, ls + nl)(bs[i]) == RowTotals(f, ls)(bs[i])
    {
      SumAppend(ls, nl, FixFirst(f, bs[i]));
      forall j | 0 <= j < |nl|
        ensures FixFirst(f, bs[i])(nl[j]) == 0
      {
      }
      SumZero(nl, FixFirst(f, bs[i]));
    }
    SumCongruent(bs, RowTotals(f, ls + nl), RowTotals(f, ls));
    SumAppend(ls, nl, FixFirst(f, nb));
    forall j | 0 <= j < |ls|
      ensures FixFirst(f, nb)(ls[j]) == 0
    {
    }
    SumZero(ls, FixFirst(f, nb));
    if to == staff {
      SumCongruent(nl, FixFirst(f, nb), LineQtyFor(p));
    } else {
      SumZero(nl, FixFirst(f, nb));
    }
  }

  // ---------------------------------------------------------------------------
  // Commit steps shared by both backends
  // ---------------------------------------------------------------------------

  /**
   * Changes the warehouse count of the first product with id `pid` by
   * `delta`; with `floorAtZero` the new count is `Math.max(0, old + delta)`.
   * A missing product leaves the catalogue unchanged.
   */
  function AdjustStock(ps: seq<Product>, pid: int, delta: int, floorAtZero: bool): (r: seq<Product>)
    ensures |r| == |ps|
    ensures forall i :: 0 <= i < |ps| ==>
      r[i].id == ps[i].id && r[i].name == ps[i].name && r[i].barcode == ps[i].barcode && r[i].sellingPrice == ps[i].sellingPrice
    ensures forall i :: 0 <= i < |ps| && i != IndexOfProduct(ps, pid) ==> r[i] == ps[i]
    ensures IndexOfProduct(ps, pid) >= 0 ==>
      var k := IndexOfProduct(ps, pid);
      r[k].stockQty == (if floorAtZero then Max0(ps[k].stockQty + delta) else ps[k].stockQty + delta)
  {
    var k := IndexOfProduct(ps, pid);
    if k == -1 then ps
    else
      var q := ps[k].stockQty + delta;
      ps[k := ps[k].(stockQty := if floorAtZero then Max0(q) else q)]
  }

  /** Only stock counts change, so every id lookup answers as before. */
  lemma {:induction false} AdjustStockKeepsIndex(ps: seq<Product>, pid: int, delta: int, floorAtZero: bool, id: int)
    ensures IndexOfProduct(AdjustStock(ps, pid, delta, floorAtZero), id) == IndexOfProduct(ps, id)
  {
  }

  /**
   * Applies every line's stock movement in order: a transfer withdraws
   * (`Math.max(0, stock - qty)`), a return deposits (`stock + qty`).
   */
  function MoveStock(ps: seq<Product>, items: seq<Item>, withdraw: bool): (r: seq<Product>)
    ensures |r| == |ps|
    ensures forall i :: 0 <= i < |ps| ==> r[i].id == ps[i].id
    ensures forall i :: 0 <= i < |ps| && (forall j :: 0 <= j < |items| ==> items[j].productId != ps[i].id) ==> r[i] == ps[i]
    decreases |items|
  {
    if |items| == 0 then ps
    else
      var q := items[0].qty;
      MoveStock(AdjustStock(ps, items[0].productId, if withdraw then -q else q, withdraw), items[1..], withdraw)
  }

  lemma {:induction false} MoveStockKeepsIndex(ps: seq<Product>, items: seq<Item>, withdraw: bool, id: int)
    ensures IndexOfProduct(MoveStock(ps, items, withdraw), id) == IndexOfProduct(ps, id)
    decreases |items|
  {
    if |items| > 0 {
      var q := items[0].qty;
      var ps1 := AdjustStock(ps, items[0].productId, if withdraw then -q else q, withdraw);
      AdjustStockKeepsIndex(ps, items[0].productId, if withdraw then -q else q, withdraw, id);
      MoveStockKeepsIndex(ps1, items[1..], withdraw, id);
    }
  }

  /** The catalogue's total count moves by the change on the one product adjusted, if it exists. */
  lemma AdjustStockTotal(ps: seq<Product>, pid: int, delta: int, floorAtZero: bool)
    ensures IndexOfProduct(ps, pid) == -1 ==> SumOf(AdjustStock(ps, pid, delta, floorAtZero), StockOf()) == SumOf(ps, StockOf())
    ensures IndexOfProduct(ps, pid) >= 0 && (!floorAtZero || ps[IndexOfProduct(ps, pid)].stockQty + delta >= 0) ==>
      SumOf(AdjustStock(ps, pid, delta, floorAtZero), StockOf()) == SumOf(ps, StockOf()) + delta
  {
    var k := IndexOfProduct(ps, pid);
    if k >= 0 {
      var q := ps[k].stockQty + delta;
      SumUpdate(ps, k, ps[k].(stockQty := if floorAtZero then Max0(q) else q), StockOf());
    }
  }

  /** Requested quantity of the lines whose product exists. */
  function PresentQty(ps: seq<Product>): Item -> int {
    Masked(IsPresent(ps), ItemQty())
  }

  lemma {:induction false} MoveStockDepositSum(ps: seq<Product>, items: seq<Item>)
    ensures SumOf(MoveStock(ps, items, false), StockOf()) == SumOf(ps, StockOf()) + SumOf(items, PresentQty(ps))
    decreases |items|
  {
    if |items| > 0 {
      var ps1 := AdjustStock(ps, items[0].productId, items[0].qty, false);
      AdjustStockTotal(ps, items[0].productId, items[0].qty, false);
      MoveStockDepositSum(ps1, items[1..]);
      forall i | 0 <= i < |items[1..]| ensures PresentQty(ps1)(items[1..][i]) == PresentQty(ps)(items[1..][i]) {
        AdjustStockKeepsIndex(ps, items[0].productId, items[0].qty, false, items[1..][i].productId);
      }
      SumCongruent(items[1..], PresentQty(ps1), PresentQty(ps));
    }
  }

  /**
   * A deposit (return) raises the catalogue's total count by the quantity of
   * the lines whose product exists; the others are skipped.
   */
  lemma MoveStockDepositTotal(ps: seq<Product>, items: seq<Item>)
    ensures SumOf(MoveStock(ps, items, false), StockOf()) == SumOf(ps, StockOf()) + SumOf(Filter(items, IsPresent(ps)), ItemQty())
  {
    MoveStockDepositSum(ps, items);
    SumFilter(items, IsPresent(ps), ItemQty());
  }

  /**
   * The lines written for a batch: one per requested item whose product
   * exists, numbered from `nextId` in request order.
   */
  function BatchLinesFor(ps: seq<Product>, items: seq<Item>, batchId: int, nextId: int): (r: seq<BatchLine>)
    ensures |r| <= |items|
    ensures forall i :: 0 <= i < |r| ==> r[i].batchId == batchId && r[i].id == nextId + i
    ensures AllPresent(ps, items) ==>
      |r| == |items| && forall i :: 0 <= i < |items| ==> r[i].productId == items[i].productId && r[i].qty == items[i].qty
    decreases |items|
  {
    if |items| == 0 then []
    else if IndexOfProduct(ps, items[0].productId) >= 0 then
      [BatchLine(nextId, batchId, items[0].productId, items[0].qty)] + BatchLinesFor(ps, items[1..], batchId, nextId + 1)
    else BatchLinesFor(ps, items[1..], batchId, nextId)
  }

  /** Quantity of `p` requested across the items. */
  function ItemQtyFor(p: int): Item -> int {
    (it: Item) => if it.productId == p then it.qty else 0
  }

  /** Total quantity requested. */
  function ItemQty(): Item -> int {
    (it: Item) => it.qty
  }

  /** When every product exists, the written lines carry exactly the requested quantity of each product. */
  lemma {:induction false} BatchLinesQty(ps: seq<Product>, items: seq<Item>, batchId: int, nextId: int, p: int)
    requires AllPresent(ps, items)
    ensures SumOf(BatchLinesFor(ps, items, batchId, nextId), LineQtyFor(p)) == SumOf(items, ItemQtyFor(p))
    decreases |items|
  {
    if |items| > 0 {
      BatchLinesQty(ps, items[1..], batchId, nextId + 1, p);
      var r := BatchLinesFor(ps, items, batchId, nextId);
      assert r[1..] == BatchLinesFor(ps, items[1..], batchId, nextId + 1);
    }
  }

  /**
   * Whatever the catalogue, a line's contribution to `p` is the requested
   * quantity of `p` when `p` exists, and nothing when it does not: lines for
   * unknown products are skipped, and no line names a product that is absent.
   */
  lemma {:induction false} BatchLinesQtyPresent(ps: seq<Product>, items: seq<Item>, batchId: int, nextId: int, p: int)
    ensures SumOf(BatchLinesFor(ps, items, batchId, nextId), LineQtyFor(p))
         == (if IndexOfProduct(ps, p) >= 0 then SumOf(items, ItemQtyFor(p)) else 0)
    decreases |items|
  {
    if |items| > 0 {
      var present := IndexOfProduct(ps, items[0].productId) >= 0;
      var next := if present then nextId + 1 else nextId;
      BatchLinesQtyPresent(ps, items[1..], batchId, next, p);
      var r := BatchLinesFor(ps, items, batchId, nextId);
      if present {
        assert r[1..] == BatchLinesFor(ps, items[1..], batchId, next);
      }
    }
  }

  /** The product and quantity of each line, as request items. */
  function LineItems(ls: seq<BatchLine>): (r: seq<Item>)
    ensures |r| == |ls|
    ensures forall i :: 0 <= i < |ls| ==> r[i] == Item(ls[i].productId, ls[i].qty)
  {
    seq(|ls|, i requires 0 <= i < |ls| => Item(ls[i].productId, ls[i].qty))
  }

  /** The lines written for a batch carry exactly the requested items whose product exists, in request order. */
  lemma {:induction false} BatchLinesOfPresent(ps: seq<Product>, items: seq<Item>, batchId: int, nextId: int)
    ensures LineItems(BatchLinesFor(ps, items, batchId, nextId)) == Filter(items, IsPresent(ps))
    decreases |items|
  {
    if |items| > 0 {
      var present := IndexOfProduct(ps, items[0].productId) >= 0;
      var next := if present then nextId + 1 else nextId;
      BatchLinesOfPresent(ps, items[1..], batchId, next);
      var r := BatchLinesFor(ps, items, batchId, nextId);
      if present {
        assert r[1..] == BatchLinesFor(ps, items[1..], batchId, next);
        assert LineItems(r) == [items[0]] + LineItems(r[1..]);
      }
    }
  }

  /** The `RETURN` row a return writes for one line. */
  function ReturnRows(staff: int, items: seq<Item>): (r: seq<UserTx>)
    ensures |r| == |items|
    ensures forall i :: 0 <= i < |items| ==> r[i] == UserTx(staff, items[i].productId, items[i].qty, RETURN, None)
  {
    seq(|items|, i requires 0 <= i < |items| => UserTx(staff, items[i].productId, items[i].qty, RETURN, None))
  }

  /** A return writes one `RETURN` row per requested item whose product exists, in request order. */
  lemma {:induction false} ReturnTxsOfPresent(ps: seq<Product>, items: seq<Item>, staff: int)
    ensures ReturnTxsFor(ps, items, staff) == ReturnRows(staff, Filter(items, IsPresent(ps)))
    decreases |items|
  {
    if |items| > 0 {
      ReturnTxsOfPresent(ps, items[1..], staff);
      if IndexOfProduct(ps, items[0].productId) >= 0 {
        var kept := Filter(items[1..], IsPresent(ps));
        assert ReturnRows(staff, [items[0]] + kept) == [UserTx(staff, items[0].productId, items[0].qty, RETURN, None)] + ReturnRows(staff, kept);
      }
    }
  }

  /** The `RETURN` user transactions a return writes: one per item whose product exists. */
  function ReturnTxsFor(ps: seq<Product>, items: seq<Item>, staff: int): (r: seq<UserTx>)
    ensures |r| <= |items|
    ensures forall i :: 0 <= i < |r| ==> r[i].txType == RETURN && r[i].userId == staff && r[i].customerName.None?
    decreases |items|
  {
    if |items| == 0 then []
    else if IndexOfProduct(ps, items[0].productId) >= 0 then
      [UserTx(staff, items[0].productId, items[0].qty, RETURN, None)] + ReturnTxsFor(ps, items[1..], staff)
    else ReturnTxsFor(ps, items[1..], staff)
  }

  /** Transactions of a type other than `TRANSFER` and `JOB_RETURN` never move a holding. */
  lemma {:induction false} OtherTxsDoNotCount(txs: seq<UserTx>, staff: int, p: int, t: string)
    requires forall i :: 0 <= i < |txs| ==> txs[i].txType != t
    ensures TxQty(txs, staff, p, t) == 0
  {
    SumZero(txs, TxTerm(staff, p, t));
  }

  // ---------------------------------------------------------------------------
  // Catalogue
  // ---------------------------------------------------------------------------

  /** Largest product id (`Math.max(...products.map(p => p.id))`). */
  function MaxProductId(ps: seq<Product>): (r: int)
    requires |ps| > 0
    ensures forall i :: 0 <= i < |ps| ==> ps[i].id <= r
    ensures exists i :: 0 <= i < |ps| && ps[i].id == r
    decreases |ps|
  {
    if |ps| == 1 then ps[0].id
    else
      var m := MaxProductId(ps[1..]);
      if ps[0].id >= m then ps[0].id else m
  }

  /** Id of a new product: one more than the largest id, or 1 for an empty catalogue. */
  function NextProductId(ps: seq<Product>): (r: int)
    ensures forall i :: 0 <= i < |ps| ==> ps[i].id < r
    ensures |ps| == 0 ==> r == 1
    ensures |ps| > 0 ==> exists i :: 0 <= i < |ps| && ps[i].id == r - 1
  {
    if |ps| == 0 then 1 else MaxProductId(ps) + 1
  }

  /**
   * The fields a product form submits; `stock`/`stockQty` absent or empty is
   * `None`, and so is an `id` the body does not carry.
   */
  datatype ProductInput = ProductInput(id: Option<int>, name: string, barcode: string, sellingPrice: int, stock: Option<int>, stockQty: Option<int>)

  /** `stock || stock_qty || 0`: the first non-zero of the two, else 0. */
  function InitialStock(input: ProductInput): (r: int)
    ensures r != 0 ==> Some(r) == input.stock || Some(r) == input.stockQty
    ensures input.stock.Some? && input.stock.value != 0 ==> r == input.stock.value
    ensures (input.stock.None? || input.stock.value == 0) && input.stockQty.Some? ==> r == input.stockQty.value
  {
    if input.stock.Some? && input.stock.value != 0 then input.stock.value
    else if input.stockQty.Some? && input.stockQty.value != 0 then input.stockQty.value
    else 0
  }

  /**
   * Appends `{id: next, ...input, stock_qty: ...}`; both backends create
   * products this way.  The spread comes after the fresh id, so an `id` in the
   * submitted body replaces it.
   */
  function AddProduct(ps: seq<Product>, input: ProductInput): (r: seq<Product>)
    ensures |r| == |ps| + 1 && r[..|ps|] == ps
    ensures input.id.Some? ==> r[|ps|].id == input.id.value
    ensures input.id.None? ==> r[|ps|].id == NextProductId(ps) && forall i :: 0 <= i < |ps| ==> ps[i].id != r[|ps|].id
    ensures r[|ps|].stockQty == InitialStock(input)
    ensures input.id.None? && UniqueProductIds(ps) ==> UniqueProductIds(r)
    ensures UniqueProductIds(r) <==> UniqueProductIds(ps) && forall i :: 0 <= i < |ps| ==> ps[i].id != r[|ps|].id
  {
    var id := if input.id.Some? then input.id.value else NextProductId(ps);
    ps + [Product(id, input.name, input.barcode, input.sellingPrice, InitialStock(input))]
  }

  /** A body that carries the id of an existing product creates a second product with that id. */
  lemma SubmittedIdDuplicates(ps: seq<Product>, input: ProductInput, k: int)
    requires 0 <= k < |ps| && input.id == Some(ps[k].id)
    ensures !UniqueProductIds(AddProduct(ps, input))
    ensures AddProduct(ps, input)[k].id == AddProduct(ps, input)[|ps|].id
  {
    var r := AddProduct(ps, input);
    assert r[k] == ps[k];
  }

  /** A partial update `{...product, ...updates}`: present fields override. */
  datatype ProductPatch = ProductPatch(id: Option<int>, name: Option<string>, barcode: Option<string>, sellingPrice: Option<int>, stockQty: Option<int>)

  function Merge(p: Product, u: ProductPatch): (r: Product)
    ensures u.id.None? ==> r.id == p.id
    ensures u.stockQty.None? ==> r.stockQty == p.stockQty
    ensures u.stockQty.Some? ==> r.stockQty == u.stockQty.value
  {
    Product(
      if u.id.Some? then u.id.value else p.id,
      if u.name.Some? then u.name.value else p.name,
      if u.barcode.Some? then u.barcode.value else p.barcode,
      if u.sellingPrice.Some? then u.sellingPrice.value else p.sellingPrice,
      if u.stockQty.Some? then u.stockQty.value else p.stockQty)
  }

  /**
   * `findIndex`, then merge the patch into that entry; `None` when the id is
   * absent (both backends report "Not found").
   */
  function UpdateProduct(ps: seq<Product>, id: int, u: ProductPatch): (r: Option<seq<Product>>)
    ensures r.None? <==> forall i :: 0 <= i < |ps| ==> ps[i].id != id
    ensures r.Some? ==> |r.value| == |ps|
    ensures r.Some? ==>
      exists k :: 0 <= k < |ps| && ps[k].id == id && r.value[k] == Merge(ps[k], u)
        && (forall j :: 0 <= j < k ==> ps[j].id != id)
        && (forall j :: 0 <= j < |ps| && j != k ==> r.value[j] == ps[j])
  {
    var k := IndexOfProduct(ps, id);
    if k == -1 then None else Some(ps[k := Merge(ps[k], u)])
  }

  // ---------------------------------------------------------------------------
  // Dashboard and reports
  // ---------------------------------------------------------------------------

  function StockOf(): Product -> int {
    (p: Product) => p.stockQty
  }

  function ValueOf(): Product -> int {
    (p: Product) => p.stockQty * p.sellingPrice
  }

  function IsLowStock(threshold: int): Product -> bool {
    (p: Product) => p.stockQty < threshold
  }

  datatype Stats = Stats(totalProducts: int, totalStock: int, lowStockCount: int, stockValue: int, pendingReturns: int, recentTransactions: int)

  /** The products whose warehouse count is below `threshold`, in catalogue order. */
  function LowStock(ps: seq<Product>, threshold: int): (r: seq<Product>)
    ensures forall p :: p in r <==> p in ps && p.stockQty < threshold
    ensures |r| == SumOf(ps, Indicator(IsLowStock(threshold)))
    ensures |r| == |KeptIndices(ps, IsLowStock(threshold))|
    ensures forall i :: 0 <= i < |r| ==> r[i] == ps[KeptIndices(ps, IsLowStock(threshold))[i]]
  {
    LowStockMembership(ps, threshold);
    FilterCount(ps, IsLowStock(threshold));
    FilterAtKeptIndices(ps, IsLowStock(threshold));
    Filter(ps, IsLowStock(threshold))
  }

  lemma LowStockMembership(ps: seq<Product>, threshold: int)
    ensures forall p :: p in Filter(ps, IsLowStock(threshold)) <==> p in ps && p.stockQty < threshold
  {
    forall p ensures p in Filter(ps, IsLowStock(threshold)) <==> p in ps && p.stockQty < threshold {
      FilterMembership(ps, IsLowStock(threshold), p);
    }
  }

  /** The admin dashboard figures (`getStats` and `GET /api/stats` compute the same). */
  function GetStats(s: State): (r: Stats)
    ensures r.totalProducts == |s.products|
    ensures r.lowStockCount == SumOf(s.products, Indicator(IsLowStock(LOW_STOCK_THRESHOLD)))
    ensures 0 <= r.lowStockCount <= r.totalProducts
    ensures r.lowStockCount == 0 <==> forall i :: 0 <= i < |s.products| ==> s.products[i].stockQty >= LOW_STOCK_THRESHOLD
    ensures (forall i :: 0 <= i < |s.products| ==> s.products[i].stockQty >= 0) ==> r.totalStock >= 0
    ensures (forall i :: 0 <= i < |s.products| ==> s.products[i].stockQty >= 0 && s.products[i].sellingPrice >= 0)
      ==> r.stockValue >= 0
    ensures r.pendingReturns == 0 && r.recentTransactions == |s.transfers| + |s.returnBatches|
  {
    var low := LowStock(s.products, LOW_STOCK_THRESHOLD);
    StatsFacts(s.products);
    Stats(|s.products|, SumOf(s.products, StockOf()), |low|, SumOf(s.products, ValueOf()),
          0, |s.transfers| + |s.returnBatches|)
  }

  /**
   * The dashboard's figures over a catalogue: the low-stock count is the
   * number of products below the threshold (counted with repetition), it is
   * zero exactly when none is, and the stock total and stock value are
   * nonnegative for nonnegative counts and prices.
   */
  lemma StatsFacts(ps: seq<Product>)
    ensures |LowStock(ps, LOW_STOCK_THRESHOLD)| == SumOf(ps, Indicator(IsLowStock(LOW_STOCK_THRESHOLD)))
    ensures |LowStock(ps, LOW_STOCK_THRESHOLD)| == 0 <==> forall i :: 0 <= i < |ps| ==> ps[i].stockQty >= LOW_STOCK_THRESHOLD
    ensures (forall i :: 0 <= i < |ps| ==> ps[i].stockQty >= 0) ==> SumOf(ps, StockOf()) >= 0
    ensures (forall i :: 0 <= i < |ps| ==> ps[i].stockQty >= 0 && ps[i].sellingPrice >= 0) ==> SumOf(ps, ValueOf()) >= 0
  {
    FilterCount(ps, IsLowStock(LOW_STOCK_THRESHOLD));
    NoLowStockIff(ps);
    if forall i :: 0 <= i < |ps| ==> ps[i].stockQty >= 0 {
      SumNonnegative(ps, StockOf());
    }
    if forall i :: 0 <= i < |ps| ==> ps[i].stockQty >= 0 && ps[i].sellingPrice >= 0 {
      forall i | 0 <= i < |ps| ensures 0 <= ValueOf()(ps[i]) {
        NonnegativeProduct(ps[i].stockQty, ps[i].sellingPrice);
      }
      SumNonnegative(ps, ValueOf());
    }
  }

  lemma NonnegativeProduct(a: int, b: int)
    requires a >= 0 && b >= 0
    ensures a * b >= 0
  {
  }

  lemma NoLowStockIff(ps: seq<Product>)
    ensures |LowStock(ps, LOW_STOCK_THRESHOLD)| == 0 <==> forall i :: 0 <= i < |ps| ==> ps[i].stockQty >= LOW_STOCK_THRESHOLD
  {
    var low := LowStock(ps, LOW_STOCK_THRESHOLD);
    if |low| > 0 {
      assert low[0] in low;
    } else {
      forall i | 0 <= i < |ps| ensures ps[i].stockQty >= LOW_STOCK_THRESHOLD {
        assert ps[i] in ps;
      }
    }
  }

  /** One row of the stock report. */
  datatype StockRow = StockRow(productId: int, productName: string, barcode: string, stockQty: int,
                               distributed: int, returned: int, inWarehouse: int)

  /** Quantity of `p` ever transferred out (`distributed`) or returned, across all staff. */
  function LinesQty(ls: seq<BatchLine>, p: int): int {
    SumOf(ls, LineQtyFor(p))
  }

  /** The stock report: one row per product, in catalogue order. */
  function StockReport(s: State): (r: seq<StockRow>)
    ensures |r| == |s.products|
    ensures forall i :: 0 <= i < |r| ==>
      && r[i].productId == s.products[i].id
      && r[i].stockQty == s.products[i].stockQty
      && r[i].inWarehouse == r[i].stockQty
  {
    seq(|s.products|, i requires 0 <= i < |s.products| =>
      var p := s.products[i];
      StockRow(p.id, p.name, p.barcode, p.stockQty,
               LinesQty(s.transferItems, p.id), LinesQty(s.returnItems, p.id), p.stockQty))
  }

  function OfProduct(p: int): BatchLine -> bool {
    (l: BatchLine) => l.productId == p
  }

  function LineQty(): BatchLine -> int {
    (l: BatchLine) => l.qty
  }

  /**
   * The report's columns as the source computes them: `distributed` and
   * `returned` are the quantities of the transfer and return lines of that
   * product, filtered then summed.
   */
  lemma StockReportColumns(s: State, i: int)
    requires 0 <= i < |s.products|
    ensures StockReport(s)[i].distributed == SumOf(Filter(s.transferItems, OfProduct(s.products[i].id)), LineQty())
    ensures StockReport(s)[i].returned == SumOf(Filter(s.returnItems, OfProduct(s.products[i].id)), LineQty())
  {
    var p := s.products[i].id;
    SumFilter(s.transferItems, OfProduct(p), LineQty());
    SumCongruent(s.transferItems, Masked(OfProduct(p), LineQty()), LineQtyFor(p));
    SumFilter(s.returnItems, OfProduct(p), LineQty());
    SumCongruent(s.returnItems, Masked(OfProduct(p), LineQty()), LineQtyFor(p));
  }
}
