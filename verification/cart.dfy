/**
 * The cart of the Issue Stock and Return Stock pages: a list of product
 * lines with unique ids and quantities of at least 1, the helpers that edit
 * it, and the submit guards that turn it into a request payload.  A cart
 * line keeps only the product id and quantity; the other product fields the
 * page copies into a line are display-only.
 */
module Cart {
  import opened Outcomes
  import opened Sums
  import opened Ledger
  import opened Movements
  import Api

  datatype Line = Line(id: int, qty: int)

  predicate UniqueIds(c: seq<Line>) {
    forall i, j :: 0 <= i < j < |c| ==> c[i].id != c[j].id
  }

  /** The cart invariant: one line per product, each with a quantity of at least 1. */
  predicate ValidCart(c: seq<Line>) {
    UniqueIds(c) && forall i :: 0 <= i < |c| ==> c[i].qty >= 1
  }

  function Ids(c: seq<Line>): set<int> {
    set l | l in c :: l.id
  }

  function QtyFor(id: int): Line -> int {
    (l: Line) => if l.id == id then l.qty else 0
  }

  function LineQty(): Line -> int {
    (l: Line) => l.qty
  }

  /** The quantity of product `id` the cart holds, over all its lines. */
  function QtyOf(c: seq<Line>, id: int): int {
    SumOf(c, QtyFor(id))
  }

  /** The index of the line for `id`, or -1. */
  function IndexOf(c: seq<Line>, id: int): (k: int)
    ensures -1 <= k < |c|
    ensures k == -1 <==> id !in Ids(c)
    ensures k >= 0 ==> c[k].id == id
    decreases |c|
  {
    if |c| == 0 then -1
    else if c[0].id == id then 0
    else
      var k := IndexOf(c[1..], id);
      assert Ids(c) == {c[0].id} + Ids(c[1..]) by {
        assert c == [c[0]] + c[1..];
      }
      if k == -1 then -1 else k + 1
  }

  /** A product with no line contributes nothing. */
  lemma QtyOfAbsent(c: seq<Line>, id: int)
    requires id !in Ids(c)
    ensures QtyOf(c, id) == 0
  {
    forall i | 0 <= i < |c| ensures QtyFor(id)(c[i]) == 0 {
      assert c[i] in c;
    }
    SumZero(c, QtyFor(id));
  }

  /** With unique ids, the quantity of a product is the quantity on its one line. */
  lemma {:induction false} QtyOfUnique(c: seq<Line>, k: int)
    requires UniqueIds(c) && 0 <= k < |c|
    ensures QtyOf(c, c[k].id) == c[k].qty
    decreases |c|
  {
    var id := c[k].id;
    if k == 0 {
      forall i | 0 <= i < |c[1..]| ensures QtyFor(id)(c[1..][i]) == 0 {
        assert c[1..][i] == c[i + 1];
      }
      SumZero(c[1..], QtyFor(id));
    } else {
      assert c[1..][k - 1] == c[k];
      QtyOfUnique(c[1..], k - 1);
    }
  }

  // ---------------------------------------------------------------------------
  // Editing the cart
  // ---------------------------------------------------------------------------

  /** `prev.map(i => i.id === id ? { ...i, qty: f(i.qty) } : i)`. */
  function Adjust(c: seq<Line>, id: int, f: int -> int): (r: seq<Line>)
    ensures |r| == |c|
    ensures forall i :: 0 <= i < |c| ==> r[i].id == c[i].id
    ensures forall i :: 0 <= i < |c| ==> r[i].qty == (if c[i].id == id then f(c[i].qty) else c[i].qty)
  {
    seq(|c|, i requires 0 <= i < |c| => if c[i].id == id then Line(id, f(c[i].qty)) else c[i])
  }

  /**
   * Adjusting one product's line rewrites that product's quantity by `f`,
   * leaves every other product's quantity and the set of ids alone, and
   * keeps the ids unique.
   */
  lemma AdjustCounts(c: seq<Line>, id: int, f: int -> int)
    requires UniqueIds(c)
    ensures var r := Adjust(c, id, f);
      && UniqueIds(r)
      && Ids(r) == Ids(c)
      && QtyOf(r, id) == (if id in Ids(c) then f(QtyOf(c, id)) else 0)
      && (forall x :: x != id ==> QtyOf(r, x) == QtyOf(c, x))
  {
    var r := Adjust(c, id, f);
    assert Ids(r) == Ids(c) by {
      forall x | x in Ids(c) ensures x in Ids(r) {
        var l :| l in c && l.id == x;
        var i :| 0 <= i < |c| && c[i] == l;
        assert r[i] in r;
      }
      forall x | x in Ids(r) ensures x in Ids(c) {
        var l :| l in r && l.id == x;
        var i :| 0 <= i < |r| && r[i] == l;
        assert c[i] in c;
      }
    }
    var k := IndexOf(c, id);
    if k >= 0 {
      QtyOfUnique(c, k);
      QtyOfUnique(r, k);
    } else {
      QtyOfAbsent(r, id);
    }
    forall x | x != id ensures QtyOf(r, x) == QtyOf(c, x) {
      SumCongruent(c, QtyFor(x), (l: Line) => QtyFor(x)(l));
      forall i | 0 <= i < |c| ensures QtyFor(x)(r[i]) == QtyFor(x)(c[i]) { }
      AdjustSum(c, r, x);
    }
  }

  lemma {:induction false} AdjustSum(c: seq<Line>, r: seq<Line>, x: int)
    requires |r| == |c|
    requires forall i :: 0 <= i < |c| ==> QtyFor(x)(r[i]) == QtyFor(x)(c[i])
    ensures QtyOf(r, x) == QtyOf(c, x)
    decreases |c|
  {
    if |c| > 0 {
      AdjustSum(c[1..], r[1..], x);
    }
  }

  /** `addItem`: one more of an existing line, or a new line with quantity 1 at the end. */
  function AddItem(c: seq<Line>, id: int): (r: seq<Line>)
    ensures id in Ids(c) ==> |r| == |c|
    ensures id !in Ids(c) ==> r == c + [Line(id, 1)]
    ensures Ids(r) == Ids(c) + {id}
  {
    if IndexOf(c, id) >= 0 then
      var r := Adjust(c, id, (q: int) => q + 1);
      assert Ids(r) == Ids(c) by {
        forall x | x in Ids(c) ensures x in Ids(r) {
          var l :| l in c && l.id == x;
          var i :| 0 <= i < |c| && c[i] == l;
          assert r[i] in r;
        }
      }
      r
    else c + [Line(id, 1)]
  }

  /**
   * `addItem` keeps the cart valid, adds exactly one unit of the product and
   * leaves every other product as it was.
   */
  lemma AddItemSpec(c: seq<Line>, id: int)
    requires ValidCart(c)
    ensures var r := AddItem(c, id);
      && ValidCart(r)
      && QtyOf(r, id) == QtyOf(c, id) + 1
      && (forall x :: x != id ==> QtyOf(r, x) == QtyOf(c, x))
      && TotalQty(r) == TotalQty(c) + 1
  {
    var r := AddItem(c, id);
    if IndexOf(c, id) >= 0 {
      AdjustCounts(c, id, (q: int) => q + 1);
      AdjustTotal(c, IndexOf(c, id), (q: int) => q + 1);
    } else {
      QtyOfAbsent(c, id);
      forall i | 0 <= i < |c| ensures c[i].id != id {
        assert c[i] in c;
      }
      forall x ensures QtyOf(r, x) == QtyOf(c, x) + QtyFor(x)(Line(id, 1)) {
        SumAppend(c, [Line(id, 1)], QtyFor(x));
      }
      SumAppend(c, [Line(id, 1)], LineQty());
    }
  }

  /** Rewriting the one line of a product changes the total by the change on that line. */
  lemma {:induction false} AdjustTotal(c: seq<Line>, k: int, f: int -> int)
    requires UniqueIds(c) && 0 <= k < |c|
    ensures TotalQty(Adjust(c, c[k].id, f)) == TotalQty(c) - c[k].qty + f(c[k].qty)
    decreases |c|
  {
    var id := c[k].id;
    var r := Adjust(c, id, f);
    if k == 0 {
      assert r[1..] == c[1..] by {
        forall i | 0 <= i < |c| - 1 ensures r[1..][i] == c[1..][i] {
          assert c[i + 1].id != id;
        }
      }
    } else {
      assert c[1..][k - 1] == c[k];
      AdjustTotal(c[1..], k - 1, f);
      assert Adjust(c[1..], id, f) == r[1..];
      assert c[0].id != id;
    }
  }

  function AtLeastOne(q: int): (r: int)
    ensures r >= 1 && r >= q
    ensures q >= 1 ==> r == q
  {
    if q < 1 then 1 else q
  }

  /** `updateQty`: the matching line's quantity becomes `max(1, qty + delta)`. */
  function UpdateQty(c: seq<Line>, id: int, delta: int): (r: seq<Line>)
    ensures |r| == |c|
  {
    Adjust(c, id, (q: int) => AtLeastOne(q + delta))
  }

  /** `updateQty` keeps the cart valid and moves only the named product, never below 1. */
  lemma UpdateQtySpec(c: seq<Line>, id: int, delta: int)
    requires ValidCart(c)
    ensures var r := UpdateQty(c, id, delta);
      && ValidCart(r)
      && Ids(r) == Ids(c)
      && (id in Ids(c) ==> QtyOf(r, id) == AtLeastOne(QtyOf(c, id) + delta))
      && (forall x :: x != id ==> QtyOf(r, x) == QtyOf(c, x))
  {
    var r := UpdateQty(c, id, delta);
    AdjustCounts(c, id, (q: int) => AtLeastOne(q + delta));
    forall i | 0 <= i < |r| ensures r[i].qty >= 1 {
      if c[i].id == id {
        assert r[i].qty == AtLeastOne(c[i].qty + delta);
      }
    }
  }

  /**
   * The quantity box: `parseInt(value) || 1`, then `max(1, ·)`.  `parsed` is
   * the result of `parseInt`, `None` for `NaN`.
   */
  function ClampInput(parsed: Option<int>): (r: int)
    ensures r >= 1
    ensures parsed.Some? && parsed.value >= 1 ==> r == parsed.value
    ensures parsed.None? || parsed.value < 1 ==> r == 1
  {
    var v := if parsed.None? || parsed.value == 0 then 1 else parsed.value;
    AtLeastOne(v)
  }

  function SetQty(c: seq<Line>, id: int, parsed: Option<int>): (r: seq<Line>)
    ensures |r| == |c|
  {
    Adjust(c, id, (q: int) => ClampInput(parsed))
  }

  /** Typing into the quantity box keeps the cart valid and sets only that product. */
  lemma SetQtySpec(c: seq<Line>, id: int, parsed: Option<int>)
    requires ValidCart(c)
    ensures var r := SetQty(c, id, parsed);
      && ValidCart(r)
      && Ids(r) == Ids(c)
      && (id in Ids(c) ==> QtyOf(r, id) == ClampInput(parsed))
      && (forall x :: x != id ==> QtyOf(r, x) == QtyOf(c, x))
  {
    var r := SetQty(c, id, parsed);
    AdjustCounts(c, id, (q: int) => ClampInput(parsed));
    forall i | 0 <= i < |r| ensures r[i].qty >= 1 {
      if c[i].id == id {
        assert r[i].qty == ClampInput(parsed);
      }
    }
  }

  function OtherThan(id: int): Line -> bool {
    (l: Line) => l.id != id
  }

  /** `removeItem`: the lines of other products, in their order. */
  function RemoveItem(c: seq<Line>, id: int): (r: seq<Line>)
    ensures forall l :: l in r <==> l in c && l.id != id
  {
    forall l ensures l in Filter(c, OtherThan(id)) <==> l in c && OtherThan(id)(l) {
      FilterMembership(c, OtherThan(id), l);
    }
    Filter(c, OtherThan(id))
  }

  /**
   * `removeItem` keeps the cart valid, drops the product entirely, leaves
   * the other products' quantities alone and lowers the total by what the
   * product had.
   */
  lemma RemoveItemSpec(c: seq<Line>, id: int)
    requires ValidCart(c)
    ensures var r := RemoveItem(c, id);
      && ValidCart(r)
      && Ids(r) == Ids(c) - {id}
      && QtyOf(r, id) == 0
      && (forall x :: x != id ==> QtyOf(r, x) == QtyOf(c, x))
      && TotalQty(r) == TotalQty(c) - QtyOf(c, id)
      && (id !in Ids(c) ==> r == c)
      && (forall k :: 0 <= k < |c| && c[k].id == id ==> r == c[..k] + c[k + 1..])
  {
    var r := RemoveItem(c, id);
    RemoveItemOrder(c, id);
    FilterUnique(c, OtherThan(id));
    forall x ensures QtyOf(r, x) == SumOf(c, Masked(OtherThan(id), QtyFor(x))) {
      SumFilter(c, OtherThan(id), QtyFor(x));
    }
    forall x | x != id ensures QtyOf(r, x) == QtyOf(c, x) {
      SumCongruent(c, Masked(OtherThan(id), QtyFor(x)), QtyFor(x));
    }
    SumZero(c, Masked(OtherThan(id), QtyFor(id)));
    SumFilter(c, OtherThan(id), LineQty());
    SumAdd(c, Masked(OtherThan(id), LineQty()), QtyFor(id), LineQty());
  }

  /** Removing a product keeps the other lines in their order: nothing when it has no line, else just its line is cut out. */
  lemma RemoveItemOrder(c: seq<Line>, id: int)
    requires UniqueIds(c)
    ensures id !in Ids(c) ==> RemoveItem(c, id) == c
    ensures forall k :: 0 <= k < |c| && c[k].id == id ==> RemoveItem(c, id) == c[..k] + c[k + 1..]
  {
    var keep := OtherThan(id);
    if id !in Ids(c) {
      forall i | 0 <= i < |c| ensures keep(c[i]) {
        assert c[i] in c;
      }
      FilterAllKept(c, keep);
    }
    forall k | 0 <= k < |c| && c[k].id == id
      ensures RemoveItem(c, id) == c[..k] + c[k + 1..]
    {
      var before, after := c[..k], c[k + 1..];
      forall i | 0 <= i < |before| ensures keep(before[i]) {
        assert before[i] == c[i];
      }
      forall i | 0 <= i < |after| ensures keep(after[i]) {
        assert after[i] == c[k + 1 + i];
      }
      assert c == before + [c[k]] + after;
      FilterDropsOne(before, c[k], after, keep);
    }
  }

  /** A filtered cart keeps its lines valid and in order. */
  lemma {:induction false} FilterUnique(c: seq<Line>, keep: Line -> bool)
    requires ValidCart(c)
    ensures ValidCart(Filter(c, keep))
    decreases |c|
  {
    if |c| > 0 {
      FilterUnique(c[1..], keep);
      if keep(c[0]) {
        var rest := Filter(c[1..], keep);
        forall i | 0 <= i < |rest| ensures rest[i].id != c[0].id {
          FilterMembership(c[1..], keep, rest[i]);
          var j :| 0 <= j < |c[1..]| && c[1..][j] == rest[i];
          assert c[j + 1] == rest[i];
        }
        assert Filter(c, keep) == [c[0]] + rest;
      }
    }
  }

  // ---------------------------------------------------------------------------
  // Totals and payload
  // ---------------------------------------------------------------------------

  function TotalQty(c: seq<Line>): int {
    SumOf(c, LineQty())
  }

  /** "Total Unique Items" and "Total Quantity": in a valid cart the second is at least the first. */
  lemma {:induction false} TotalsOrdered(c: seq<Line>)
    requires ValidCart(c)
    ensures TotalQty(c) >= |c|
    decreases |c|
  {
    if |c| > 0 {
      TotalsOrdered(c[1..]);
    }
  }

  /** `items.map(i => ({ productId: i.id, qty: i.qty }))`. */
  function Payload(c: seq<Line>): (r: seq<Item>)
    ensures |r| == |c|
    ensures forall i :: 0 <= i < |c| ==> r[i] == Item(c[i].id, c[i].qty)
  {
    seq(|c|, i requires 0 <= i < |c| => Item(c[i].id, c[i].qty))
  }

  lemma {:induction false} PayloadQty(c: seq<Line>, id: int)
    ensures SumOf(Payload(c), ItemQtyFor(id)) == QtyOf(c, id)
    decreases |c|
  {
    if |c| > 0 {
      PayloadQty(c[1..], id);
      assert Payload(c)[1..] == Payload(c[1..]);
    }
  }

  /** A payload built from a valid cart names each product once, with a quantity of at least 1. */
  lemma PayloadIsDistinct(c: seq<Line>)
    requires ValidCart(c)
    ensures DistinctItems(Payload(c))
    ensures forall i :: 0 <= i < |c| ==> Payload(c)[i].qty >= 1
  {
  }

  /**
   * The body the Issue Stock page hands to `createTransfer` for an admin,
   * `{toUserId, items}`.  `createUserTransaction` reads `user_id`, which this
   * body does not carry, so the chosen recipient reaches no row.
   */
  function TransferBody(toUserId: int, c: seq<Line>): (r: Api.Request)
    ensures r.userId.None? && r.items == Some(Payload(c)) && r.customerName.None?
  {
    Api.Request(None, Some(Payload(c)), 0, 0, None)
  }

  /** The body the Return Stock page hands to `createReturn`: `{items}`. */
  function ReturnBody(c: seq<Line>): (r: Api.Request)
    ensures r.userId.None? && r.items == Some(Payload(c)) && r.customerName.None?
  {
    Api.Request(None, Some(Payload(c)), 0, 0, None)
  }

  /** The new stock RPCs of a run, as a sequence. */
  function NewEffects(db: Api.Db, run: Api.Run): seq<Api.StockEffect>
    requires |db.effects| <= |run.db.effects|
  {
    run.db.effects[|db.effects|..]
  }

  /**
   * An admin's transfer of a valid cart through the Supabase service layer,
   * every insert accepted: one `TRANSFER` row per line, in cart order, each
   * recorded under the signed-in user whatever recipient was picked, and
   * decrement requests that add up to the cart's quantity of every product.
   */
  lemma CartTransferIsExact(toUserId: int, c: seq<Line>, db: Api.Db, currentUser: string, now: string, answers: seq<bool>)
    requires ValidCart(c) && |answers| == |c|
    requires forall i :: 0 <= i < |answers| ==> answers[i]
    ensures var run := Api.RunSequentially(db, currentUser, Api.Expand(TransferBody(toUserId, c), TRANSFER), now, answers);
      && !run.failed && run.committed == |c|
      && (forall k :: 0 <= k < |c| ==> run.db.rows[|db.rows| + k] == Api.Row(currentUser, c[k].id, TRANSFER, c[k].qty, None, now))
      && (forall p :: SumOf(NewEffects(db, run), Api.DecrementedQty(p)) == QtyOf(c, p))
      && (forall p :: SumOf(NewEffects(db, run), Api.IncrementedQty(p)) == 0)
  {
    var ps := Api.Expand(TransferBody(toUserId, c), TRANSFER);
    var run := Api.RunSequentially(db, currentUser, ps, now, answers);
    Api.RunRows(db, currentUser, ps, now, answers);
    var effects := NewEffects(db, run);
    assert |effects| == |c|;
    forall k | 0 <= k < |c| ensures effects[k] == Api.Decrement(c[k].id, c[k].qty) {
      assert effects[k] == run.db.effects[|db.effects| + k];
    }
    forall p ensures SumOf(effects, Api.DecrementedQty(p)) == QtyOf(c, p) {
      SumPointwise(effects, Api.DecrementedQty(p), c, QtyFor(p));
    }
    forall p ensures SumOf(effects, Api.IncrementedQty(p)) == 0 {
      SumZero(effects, Api.IncrementedQty(p));
    }
  }

  /**
   * A staff member's return of a valid cart through the Supabase service
   * layer, every insert accepted: one `RETURN` row per line under the
   * signed-in user, and increment requests that add up to the cart's
   * quantity of every product.
   */
  lemma CartReturnIsExact(c: seq<Line>, db: Api.Db, currentUser: string, now: string, answers: seq<bool>)
    requires ValidCart(c) && |answers| == |c|
    requires forall i :: 0 <= i < |answers| ==> answers[i]
    ensures var run := Api.RunSequentially(db, currentUser, Api.Expand(ReturnBody(c), RETURN), now, answers);
      && !run.failed && run.committed == |c|
      && (forall k :: 0 <= k < |c| ==> run.db.rows[|db.rows| + k] == Api.Row(currentUser, c[k].id, RETURN, c[k].qty, None, now))
      && (forall p :: SumOf(NewEffects(db, run), Api.IncrementedQty(p)) == QtyOf(c, p))
      && (forall p :: SumOf(NewEffects(db, run), Api.DecrementedQty(p)) == 0)
  {
    var ps := Api.Expand(ReturnBody(c), RETURN);
    var run := Api.RunSequentially(db, currentUser, ps, now, answers);
    Api.RunRows(db, currentUser, ps, now, answers);
    var effects := NewEffects(db, run);
    assert |effects| == |c|;
    forall k | 0 <= k < |c| ensures effects[k] == Api.Increment(c[k].id, c[k].qty) {
      assert effects[k] == run.db.effects[|db.effects| + k];
    }
    forall p ensures SumOf(effects, Api.IncrementedQty(p)) == QtyOf(c, p) {
      SumPointwise(effects, Api.IncrementedQty(p), c, QtyFor(p));
    }
    forall p ensures SumOf(effects, Api.DecrementedQty(p)) == 0 {
      SumZero(effects, Api.DecrementedQty(p));
    }
  }

  // ---------------------------------------------------------------------------
  // Submitting
  // ---------------------------------------------------------------------------

  datatype SubmitError = SelectRecipient | AddItems | AddItemsToReturn

  /** The request a submit sends. */
  datatype Request =
    | AdminTransfer(toUserId: int, items: seq<Item>)
    | TakeStock(items: seq<Item>)
    | UserTransactions(items: seq<Item>, customerName: string, txType: string)
    | ReturnStock(items: seq<Item>)

  /**
   * The Issue Stock page's submit: an admin must pick a recipient and the
   * cart must not be empty; an admin transfers to the recipient, a staff
   * member's `TRANSFER` takes stock, and any other type is recorded as user
   * transactions for the customer, `Self` when none is typed.
   */
  function TransferSubmit(isAdmin: bool, recipient: Option<int>, c: seq<Line>, txType: string, customerName: string): (r: Result<Request, SubmitError>)
    ensures r == Err(SelectRecipient) <==> isAdmin && recipient.None?
    ensures r == Err(AddItems) <==> !(isAdmin && recipient.None?) && |c| == 0
    ensures r.Ok? ==> r.value.items == Payload(c)
    ensures r.Ok? ==> (r.value.AdminTransfer? <==> isAdmin)
    ensures r.Ok? && r.value.AdminTransfer? ==> r.value.toUserId == recipient.value
    ensures r.Ok? && !isAdmin ==> (r.value.TakeStock? <==> txType == TRANSFER)
    ensures r.Ok? && r.value.UserTransactions? ==>
      r.value.txType == txType && r.value.customerName == (if customerName == "" then "Self" else customerName)
  {
    if isAdmin && recipient.None? then Err(SelectRecipient)
    else if |c| == 0 then Err(AddItems)
    else if isAdmin then Ok(AdminTransfer(recipient.value, Payload(c)))
    else if txType == TRANSFER then Ok(TakeStock(Payload(c)))
    else Ok(UserTransactions(Payload(c), if customerName == "" then "Self" else customerName, txType))
  }

  /** The signed-in user as the session layer describes it. */
  datatype SessionUser = SessionUser(id: string, role: string)

  /** What an `async` function hands back before it is awaited. */
  datatype Promise<T> = Promise(resolved: T)

  /** `currentUser?.role` read off a promise: a promise has no `role` property. */
  function RoleOfPromise(p: Promise<Option<SessionUser>>): Option<string> {
    None
  }

  /**
   * The Issue Stock page's `isAdmin` as written: `getCurrentUser` is
   * `async`, so the page tests the role of a promise.
   */
  predicate IsAdminAsWritten(currentUser: Promise<Option<SessionUser>>) {
    RoleOfPromise(currentUser) == Some("ADMIN")
  }

  /** `isAdmin` with the user awaited first. */
  predicate IsAdmin(user: Option<SessionUser>) {
    user.Some? && user.value.role == "ADMIN"
  }

  /**
   * As written the page never takes the admin branch: for every user,
   * including an admin, a submit is never a transfer to a recipient, and an
   * admin's `TRANSFER` with a recipient picked is sent as a take-stock request.
   */
  lemma AdminBranchUnreachableAsWritten(user: Option<SessionUser>, recipient: Option<int>, c: seq<Line>, txType: string, customerName: string)
    ensures !IsAdminAsWritten(Promise(user))
    ensures var r := TransferSubmit(IsAdminAsWritten(Promise(user)), recipient, c, txType, customerName);
      r.Ok? ==> !r.value.AdminTransfer?
    ensures IsAdmin(user) && recipient.Some? && |c| > 0 && txType == TRANSFER ==>
      TransferSubmit(IsAdminAsWritten(Promise(user)), recipient, c, txType, customerName) == Ok(TakeStock(Payload(c)))
  {
  }

  /** With the user awaited, an admin with a recipient and a non-empty cart sends a transfer to that recipient. */
  lemma AdminTransfersWhenAwaited(user: Option<SessionUser>, recipient: Option<int>, c: seq<Line>, txType: string, customerName: string)
    requires IsAdmin(user) && recipient.Some? && |c| > 0
    ensures TransferSubmit(IsAdmin(user), recipient, c, txType, customerName) == Ok(AdminTransfer(recipient.value, Payload(c)))
  {
  }

  /** The Return Stock page's submit: anything but an empty cart is sent as a return of its lines. */
  function ReturnSubmit(c: seq<Line>): (r: Result<Request, SubmitError>)
    ensures r.Err? <==> |c| == 0
    ensures r.Err? ==> r.error == AddItemsToReturn
    ensures r.Ok? ==> r == Ok(ReturnStock(Payload(c)))
  {
    if |c| == 0 then Err(AddItemsToReturn) else Ok(ReturnStock(Payload(c)))
  }

  /** The Issue Stock form; a successful submit clears cart, recipient and customer. */
  datatype Form = Form(items: seq<Line>, recipient: Option<int>, customerName: string, txType: string)

  function Settle(f: Form, succeeded: bool): (r: Form)
    ensures succeeded ==> r.items == [] && r.recipient.None? && r.customerName == "" && r.txType == f.txType
    ensures !succeeded ==> r == f
  {
    if succeeded then Form([], None, "", f.txType) else f
  }

  // ---------------------------------------------------------------------------
  // Manual entry
  // ---------------------------------------------------------------------------

  /** The characters `String.prototype.trim` removes, restricted to ASCII. */
  predicate IsSpace(ch: char) {
    ch == ' ' || ch == '\t' || ch == '\n' || ch == '\r' || ch == '\U{B}' || ch == '\U{C}'
  }

  /** `!s.trim()`: nothing but white space. */
  predicate IsBlank(s: string) {
    forall i :: 0 <= i < |s| ==> IsSpace(s[i])
  }

  /** `toLowerCase` on ASCII letters. */
  function Lower(s: string): (r: string)
    ensures |r| == |s|
    ensures forall i :: 0 <= i < |s| ==> r[i] == (if 'A' <= s[i] <= 'Z' then (s[i] as int + 32) as char else s[i])
  {
    seq(|s|, i requires 0 <= i < |s| => if 'A' <= s[i] <= 'Z' then (s[i] as int + 32) as char else s[i])
  }

  /** `t` occurs in `s` starting at `i`. */
  predicate OccursAt(s: string, t: string, i: int) {
    0 <= i && i + |t| <= |s| && s[i..i + |t|] == t
  }

  /** `s.includes(t)`. */
  predicate Contains(s: string, t: string) {
    exists i :: 0 <= i <= |s| && OccursAt(s, t, i)
  }

  /** The manual-entry match: equal barcode, or a name containing the input regardless of ASCII case. */
  predicate Matches(p: Product, input: string) {
    p.barcode == input || Contains(Lower(p.name), Lower(input))
  }

  /** `products.find(...)`: the first match, or -1. */
  function FirstMatch(ps: seq<Product>, input: string): (k: int)
    ensures -1 <= k < |ps|
    ensures k == -1 <==> forall j :: 0 <= j < |ps| ==> !Matches(ps[j], input)
    ensures k >= 0 ==> Matches(ps[k], input) && forall j :: 0 <= j < k ==> !Matches(ps[j], input)
    decreases |ps|
  {
    if |ps| == 0 then -1
    else if Matches(ps[0], input) then 0
    else
      var k := FirstMatch(ps[1..], input);
      if k == -1 then -1 else k + 1
  }

  datatype ManualOutcome = Ignored | Added(cart: seq<Line>) | NotFoundAlert

  /**
   * `handleManualAdd`: blank input does nothing; otherwise the first
   * matching product is added to the cart (and the box cleared), or the
   * page alerts that nothing matched.
   */
  function ManualAdd(ps: seq<Product>, c: seq<Line>, input: string): (r: ManualOutcome)
    ensures r.Ignored? <==> IsBlank(input)
    ensures r.NotFoundAlert? <==> !IsBlank(input) && forall j :: 0 <= j < |ps| ==> !Matches(ps[j], input)
    ensures r.Added? ==>
      exists k :: 0 <= k < |ps| && Matches(ps[k], input)
        && (forall j :: 0 <= j < k ==> !Matches(ps[j], input))
        && r.cart == AddItem(c, ps[k].id)
  {
    if IsBlank(input) then Ignored
    else
      var k := FirstMatch(ps, input);
      if k == -1 then NotFoundAlert else Added(AddItem(c, ps[k].id))
  }

  /** A manual add keeps the cart valid and adds one unit of a single product. */
  lemma ManualAddKeepsValid(ps: seq<Product>, c: seq<Line>, input: string)
    requires ValidCart(c)
    ensures ManualAdd(ps, c, input).Added? ==>
      ValidCart(ManualAdd(ps, c, input).cart) && TotalQty(ManualAdd(ps, c, input).cart) == TotalQty(c) + 1
  {
    if ManualAdd(ps, c, input).Added? {
      AddItemSpec(c, ps[FirstMatch(ps, input)].id);
    }
  }
}
