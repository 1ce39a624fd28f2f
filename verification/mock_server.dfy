/**
 * The Express mock server: the handler bodies of the stock endpoints, the
 * product endpoints, signup validation, the dashboard and the reports, each
 * a function from the in-memory tables to a result whose error carries the
 * HTTP status the handler sends.
 *
 * Two of its helpers differ from what they evidently mean to do, so the
 * handlers take a `Variant`: `AsWritten` follows the code line by line,
 * `Corrected` uses the ledger holding of `Ledger.Holding` and refuses a
 * request without a token.
 */
module MockServer {
  import opened Outcomes
  import opened Sums
  import opened Ledger
  import opened Movements
  import Inventory

  datatype Variant = AsWritten | Corrected

  datatype Error =
    | Unauthorized
    | RecipientNotFound
    | ProductNotFound(productId: int)
    | InsufficientStock(productName: string, available: int, requested: int)
    | InsufficientHolding(heldName: Option<string>, have: int, wanted: int)
    | CannotReturn(returning: int, returnName: string, availableToReturn: int)
    | NotFound
    | MissingCredentials
    | UserExists

  /** The HTTP status each error is sent with. */
  function Status(e: Error): (code: int)
    ensures code in {400, 401, 404, 409}
    ensures code == 401 <==> e.Unauthorized?
    ensures code == 409 <==> e.UserExists?
  {
    match e
    case Unauthorized => 401
    case RecipientNotFound => 404
    case ProductNotFound(_) => 404
    case NotFound => 404
    case UserExists => 409
    case _ => 400
  }

  // ---------------------------------------------------------------------------
  // The staff-stock helper as written
  // ---------------------------------------------------------------------------

  /**
   * `t.toUserId` on a stored transfer and `r.userId` on a stored return: the
   * server stores `{id, staff_id, created_at}`, so both reads are `undefined`.
   */
  function StaffFieldAsStored(b: Batch): Option<int> {
    None
  }

  /** `t.items` / `r.items` on a stored record: absent as well. */
  function ItemsAsStored(b: Batch): seq<Item> {
    []
  }

  function StaffFieldIs(staff: int): Batch -> bool {
    (b: Batch) => StaffFieldAsStored(b) == Some(staff)
  }

  function ItemsQtyOf(p: int): Batch -> int {
    (b: Batch) => SumOf(ItemsAsStored(b), ItemQtyFor(p))
  }

  /**
   * The server's `getStaffStockForProduct`: received and returned quantities
   * are read through the record fields above; sold and job-returned
   * quantities through `user_transactions`, as in the ledger.
   */
  function StaffStockAsWritten(s: State, staff: int, p: int): int {
    SumOf(Filter(s.transfers, StaffFieldIs(staff)), ItemsQtyOf(p))
    - SumOf(Filter(s.returnBatches, StaffFieldIs(staff)), ItemsQtyOf(p))
    - TxQty(s.userTxs, staff, p, TRANSFER)
    + TxQty(s.userTxs, staff, p, JOB_RETURN)
  }

  /** No stored header matches, so the helper is job returns minus sales, whatever was transferred or returned. */
  lemma StaffStockAsWrittenIgnoresBatches(s: State, staff: int, p: int)
    ensures StaffStockAsWritten(s, staff, p) == TxQty(s.userTxs, staff, p, JOB_RETURN) - TxQty(s.userTxs, staff, p, TRANSFER)
    ensures StaffStockAsWritten(s, staff, p)
         == Holding(s, staff, p) - BatchedQty(s.transfers, s.transferItems, staff, p) + BatchedQty(s.returnBatches, s.returnItems, staff, p)
  {
    NothingMatches(s.transfers, staff);
    NothingMatches(s.returnBatches, staff);
  }

  lemma {:induction false} NothingMatches(bs: seq<Batch>, staff: int)
    ensures Filter(bs, StaffFieldIs(staff)) == []
    decreases |bs|
  {
    if |bs| > 0 {
      NothingMatches(bs[1..], staff);
    }
  }

  /** The holding the handlers check against. */
  function StaffStock(v: Variant, s: State, staff: int, p: int): int {
    match v
    case AsWritten => StaffStockAsWritten(s, staff, p)
    case Corrected => Holding(s, staff, p)
  }

  // ---------------------------------------------------------------------------
  // Tokens
  // ---------------------------------------------------------------------------

  /**
   * `users.find(u => u.token === token)` with the token taken from the
   * `Authorization` header (`None` when the header is missing): a missing
   * header equals the missing token of a user who never logged in.
   */
  function FindByToken(users: seq<User>, token: Option<string>): (r: Option<User>)
    ensures r.None? <==> forall i :: 0 <= i < |users| ==> users[i].token != token
    ensures r.Some? ==> r.value in users && r.value.token == token
    decreases |users|
  {
    if |users| == 0 then None
    else if users[0].token == token then Some(users[0])
    else FindByToken(users[1..], token)
  }

  /** The lookup with a missing header refused before any comparison. */
  function FindByTokenStrict(users: seq<User>, token: Option<string>): (r: Option<User>)
    ensures r.Some? ==> token.Some? && r.value in users && r.value.token == token
    ensures token.Some? ==> r == FindByToken(users, token)
  {
    if token.None? then None else FindByToken(users, token)
  }

  function Authenticate(v: Variant, users: seq<User>, token: Option<string>): Option<User> {
    match v
    case AsWritten => FindByToken(users, token)
    case Corrected => FindByTokenStrict(users, token)
  }

  /** The server's initial user table: one admin, created without a token. */
  function SeedUsers(): seq<User> {
    [User(1, "Admin User", "admin", "admin", "ADMIN", None)]
  }

  /** As written, a request without an `Authorization` header is served as the seeded admin. */
  lemma MissingHeaderActsAsSeedAdmin()
    ensures FindByToken(SeedUsers(), None) == Some(SeedUsers()[0])
    ensures FindByTokenStrict(SeedUsers(), None) == None
  {
  }

  /** More generally, the as-written lookup lets a missing header in whenever some account has no token yet. */
  lemma MissingHeaderMatchesTokenless(users: seq<User>)
    ensures FindByToken(users, None).Some? <==> exists i :: 0 <= i < |users| && users[i].token.None?
    ensures FindByTokenStrict(users, None).None?
  {
  }

  // ---------------------------------------------------------------------------
  // POST /api/transfers
  // ---------------------------------------------------------------------------

  function TransferCheck(ps: seq<Product>): Item -> Option<Error> {
    (it: Item) =>
      var k := IndexOfProduct(ps, it.productId);
      if k == -1 then Some(ProductNotFound(it.productId))
      else if it.qty > ps[k].stockQty then Some(InsufficientStock(ps[k].name, ps[k].stockQty, it.qty))
      else None
  }

  /**
   * POST `/api/transfers`: the recipient must exist (404), then every line
   * must name an existing product (404) whose count covers the line (400);
   * only then is the transfer committed.  The sender's token is looked up
   * but never checked.
   */
  function PostTransfers(s: State, toUserId: int, items: seq<Item>): (r: Result<(State, int), Error>)
    ensures r.Err? && r.error == RecipientNotFound <==> forall i :: 0 <= i < |s.users| ==> s.users[i].id != toUserId
    ensures r.Ok? <==>
      (exists i :: 0 <= i < |s.users| && s.users[i].id == toUserId)
      && forall i :: 0 <= i < |items| ==> Withdrawable(s.products, items[i])
    ensures r.Err? && r.error != RecipientNotFound ==>
      exists i :: 0 <= i < |items| && !Withdrawable(s.products, items[i])
        && (forall j :: 0 <= j < i ==> Withdrawable(s.products, items[j]))
        && r.error == (if IndexOfProduct(s.products, items[i].productId) == -1 then ProductNotFound(items[i].productId)
                       else var p := s.products[IndexOfProduct(s.products, items[i].productId)];
                         InsufficientStock(p.name, p.stockQty, items[i].qty))
    ensures r.Ok? ==> r.value.1 == |s.transfers| + 1 && r.value.0.transfers == s.transfers + [Batch(r.value.1, toUserId)]
  {
    if forall i :: 0 <= i < |s.users| ==> s.users[i].id != toUserId then Err(RecipientNotFound)
    else
      var failure := FirstFailure(items, TransferCheck(s.products));
      if failure.Some? then Err(failure.value)
      else Ok((CommitTransfer(s, toUserId, items), |s.transfers| + 1))
  }

  // ---------------------------------------------------------------------------
  // POST /api/user-transactions
  // ---------------------------------------------------------------------------

  /** The sale check of one line: refused when it exceeds the staff stock. */
  function HoldingRefusal(v: Variant, s: State, user: int, it: Item): Option<Error> {
    var have := StaffStock(v, s, user, it.productId);
    if it.qty > have then Some(InsufficientHolding(ProductName(s.products, it.productId), have, it.qty))
    else None
  }

  function HoldingCheck(v: Variant, s: State, user: int): Item -> Option<Error> {
    (it: Item) => HoldingRefusal(v, s, user, it)
  }

  /** A refused sale reports the first line beyond the staff stock. */
  lemma HoldingRefusalIsFirst(v: Variant, s: State, user: int, items: seq<Item>)
    requires FirstFailure(items, HoldingCheck(v, s, user)).Some?
    ensures exists i :: (0 <= i < |items| && items[i].qty > StaffStock(v, s, user, items[i].productId)
                           && (forall j :: 0 <= j < i ==> items[j].qty <= StaffStock(v, s, user, items[j].productId))
                           && FirstFailure(items, HoldingCheck(v, s, user)).value
                              == InsufficientHolding(ProductName(s.products, items[i].productId),
                                                     StaffStock(v, s, user, items[i].productId), items[i].qty))
  {
    var check := HoldingCheck(v, s, user);
    var i :| 0 <= i < |items| && check(items[i]) == FirstFailure(items, check) && forall j :: 0 <= j < i ==> check(items[j]).None?;
    HoldingRefusalAt(v, s, user, items, i);
  }

  /** The facts about the line `FirstFailure` stopped at, for a given index. */
  lemma HoldingRefusalAt(v: Variant, s: State, user: int, items: seq<Item>, i: int)
    requires 0 <= i < |items| && FirstFailure(items, HoldingCheck(v, s, user)).Some?
    requires HoldingCheck(v, s, user)(items[i]) == FirstFailure(items, HoldingCheck(v, s, user))
    requires forall j :: 0 <= j < i ==> HoldingCheck(v, s, user)(items[j]).None?
    ensures items[i].qty > StaffStock(v, s, user, items[i].productId)
    ensures forall j :: 0 <= j < i ==> items[j].qty <= StaffStock(v, s, user, items[j].productId)
    ensures FirstFailure(items, HoldingCheck(v, s, user)).value == InsufficientHolding(ProductName(s.products, items[i].productId), StaffStock(v, s, user, items[i].productId), items[i].qty)
  {
    var check := HoldingCheck(v, s, user);
    assert check(items[i]) == HoldingRefusal(v, s, user, items[i]);
    forall j | 0 <= j < i ensures items[j].qty <= StaffStock(v, s, user, items[j].productId) {
      assert check(items[j]) == HoldingRefusal(v, s, user, items[j]);
    }
  }

  /**
   * POST `/api/user-transactions`: 401 without a matching token; a sale
   * checks each line against the staff-stock helper (400); any other type is
   * not checked.  One row per line is appended.
   */
  function PostUserTransactions(v: Variant, s: State, token: Option<string>, items: seq<Item>,
                                customerName: Option<string>, txType: Option<string>): (r: Result<State, Error>)
    ensures r.Err? && r.error == Unauthorized <==> Authenticate(v, s.users, token).None?
    ensures r.Ok? <==>
      && Authenticate(v, s.users, token).Some?
      && (IsOutbound(txType) ==>
            forall i :: 0 <= i < |items| ==> items[i].qty <= StaffStock(v, s, Authenticate(v, s.users, token).value.id, items[i].productId))
    ensures r.Err? && r.error != Unauthorized ==>
      && Authenticate(v, s.users, token).Some? && IsOutbound(txType)
      && var user := Authenticate(v, s.users, token).value.id;
         exists i :: 0 <= i < |items| && items[i].qty > StaffStock(v, s, user, items[i].productId)
           && (forall j :: 0 <= j < i ==> items[j].qty <= StaffStock(v, s, user, items[j].productId))
           && r.error == InsufficientHolding(ProductName(s.products, items[i].productId), StaffStock(v, s, user, items[i].productId), items[i].qty)
    ensures r.Ok? ==> r.value.products == s.products && |r.value.userTxs| == |s.userTxs| + |items|
  {
    var user := Authenticate(v, s.users, token);
    if user.None? then Err(Unauthorized)
    else
      var failure := if IsOutbound(txType) then FirstFailure(items, HoldingCheck(v, s, user.value.id)) else None;
      if failure.Some? then HoldingRefusalIsFirst(v, s, user.value.id, items); Err(failure.value)
      else Ok(s.(userTxs := s.userTxs + SaleRows(user.value.id, items, OrElse(txType, TRANSFER), OrElse(customerName, "Customer"))))
  }

  // ---------------------------------------------------------------------------
  // POST /api/returns
  // ---------------------------------------------------------------------------

  /** The return check of one line: refused when it exceeds the staff stock. */
  function ReturnRefusal(v: Variant, s: State, user: int, it: Item): Option<Error> {
    var have := StaffStock(v, s, user, it.productId);
    if it.qty > have then Some(CannotReturn(it.qty, OrElse(ProductName(s.products, it.productId), "this product"), have))
    else None
  }

  function ReturnCheck(v: Variant, s: State, user: int): Item -> Option<Error> {
    (it: Item) => ReturnRefusal(v, s, user, it)
  }

  /** A refused return reports the first line beyond the staff stock. */
  lemma ReturnRefusalIsFirst(v: Variant, s: State, user: int, items: seq<Item>)
    requires FirstFailure(items, ReturnCheck(v, s, user)).Some?
    ensures exists i :: (0 <= i < |items| && items[i].qty > StaffStock(v, s, user, items[i].productId)
                           && (forall j :: 0 <= j < i ==> items[j].qty <= StaffStock(v, s, user, items[j].productId))
                           && FirstFailure(items, ReturnCheck(v, s, user)).value
                              == CannotReturn(items[i].qty, OrElse(ProductName(s.products, items[i].productId), "this product"),
                                              StaffStock(v, s, user, items[i].productId)))
  {
    var check := ReturnCheck(v, s, user);
    var i :| 0 <= i < |items| && check(items[i]) == FirstFailure(items, check) && forall j :: 0 <= j < i ==> check(items[j]).None?;
    ReturnRefusalAt(v, s, user, items, i);
  }

  /** The facts about the line `FirstFailure` stopped at, for a given index. */
  lemma ReturnRefusalAt(v: Variant, s: State, user: int, items: seq<Item>, i: int)
    requires 0 <= i < |items| && FirstFailure(items, ReturnCheck(v, s, user)).Some?
    requires ReturnCheck(v, s, user)(items[i]) == FirstFailure(items, ReturnCheck(v, s, user))
    requires forall j :: 0 <= j < i ==> ReturnCheck(v, s, user)(items[j]).None?
    ensures items[i].qty > StaffStock(v, s, user, items[i].productId)
    ensures forall j :: 0 <= j < i ==> items[j].qty <= StaffStock(v, s, user, items[j].productId)
    ensures FirstFailure(items, ReturnCheck(v, s, user)).value == CannotReturn(items[i].qty, OrElse(ProductName(s.products, items[i].productId), "this product"), StaffStock(v, s, user, items[i].productId))
  {
    var check := ReturnCheck(v, s, user);
    assert check(items[i]) == ReturnRefusal(v, s, user, items[i]);
    forall j | 0 <= j < i ensures items[j].qty <= StaffStock(v, s, user, items[j].productId) {
      assert check(items[j]) == ReturnRefusal(v, s, user, items[j]);
    }
  }

  /**
   * POST `/api/returns`: 401 without a matching token, 400 when a line
   * exceeds the staff-stock helper; otherwise a return header is pushed and
   * each line whose product exists is applied; lines for unknown products are
   * skipped.
   */
  function PostReturns(v: Variant, s: State, token: Option<string>, items: seq<Item>): (r: Result<(State, int), Error>)
    ensures r.Err? && r.error == Unauthorized <==> Authenticate(v, s.users, token).None?
    ensures r.Ok? <==>
      && Authenticate(v, s.users, token).Some?
      && forall i :: 0 <= i < |items| ==> items[i].qty <= StaffStock(v, s, Authenticate(v, s.users, token).value.id, items[i].productId)
    ensures r.Err? && r.error != Unauthorized ==>
      && Authenticate(v, s.users, token).Some?
      && var user := Authenticate(v, s.users, token).value.id;
         exists i :: 0 <= i < |items| && items[i].qty > StaffStock(v, s, user, items[i].productId)
           && (forall j :: 0 <= j < i ==> items[j].qty <= StaffStock(v, s, user, items[j].productId))
           && r.error == CannotReturn(items[i].qty, OrElse(ProductName(s.products, items[i].productId), "this product"),
                                      StaffStock(v, s, user, items[i].productId))
    ensures r.Ok? ==> r.value.1 == |s.returnBatches| + 1
    ensures r.Ok? ==> r.value.0 == CommitReturn(s, Authenticate(v, s.users, token).value.id, items)
  {
    var user := Authenticate(v, s.users, token);
    if user.None? then Err(Unauthorized)
    else
      var failure := FirstFailure(items, ReturnCheck(v, s, user.value.id));
      if failure.Some? then ReturnRefusalIsFirst(v, s, user.value.id, items); Err(failure.value)
      else Ok((CommitReturn(s, user.value.id, items), |s.returnBatches| + 1))
  }

  /**
   * The rows an accepted return writes, for any request: a header for the
   * user, then one return line and one `RETURN` row per line whose product
   * exists, in request order.  Lines for unknown products leave no trace.
   */
  lemma PostReturnsCommit(v: Variant, s: State, token: Option<string>, items: seq<Item>)
    requires WellFormed(s) && PostReturns(v, s, token, items).Ok?
    ensures var user := Authenticate(v, s.users, token).value.id;
      var s' := PostReturns(v, s, token, items).value.0;
      var kept := Filter(items, IsPresent(s.products));
      && s'.returnBatches == s.returnBatches + [Batch(|s.returnBatches| + 1, user)]
      && s'.returnItems[..|s.returnItems|] == s.returnItems
      && LineItems(s'.returnItems[|s.returnItems|..]) == kept
      && s'.userTxs == s.userTxs + ReturnRows(user, kept)
  {
    CommitReturnTables(s, Authenticate(v, s.users, token).value.id, items);
  }

  /**
   * What an accepted return does to the ledger: the user's holding of every
   * existing product drops by the quantity returned, and, with unique
   * product ids, every count rises by it.
   */
  lemma PostReturnsEffects(v: Variant, s: State, token: Option<string>, items: seq<Item>, staff: int, p: int)
    requires WellFormed(s) && PostReturns(v, s, token, items).Ok?
    ensures var user := Authenticate(v, s.users, token).value.id;
      var s' := PostReturns(v, s, token, items).value.0;
      && Holding(s', staff, p)
         == Holding(s, staff, p) - (if staff == user && IndexOfProduct(s.products, p) >= 0 then SumOf(items, ItemQtyFor(p)) else 0)
      && (UniqueProductIds(s.products) ==> forall k :: 0 <= k < |s.products| ==>
            s'.products[k].stockQty == s.products[k].stockQty + SumOf(items, ItemQtyFor(s.products[k].id)))
  {
    var user := Authenticate(v, s.users, token).value.id;
    CommitReturnHolding(s, user, items, staff, p);
    if UniqueProductIds(s.products) {
      MoveStockDeposit(s.products, items);
    }
  }

  // ---------------------------------------------------------------------------
  // Product endpoints
  // ---------------------------------------------------------------------------

  // PUT `/api/products/:id` is the catalogue merge `Ledger.UpdateProduct`,
  // answering 404 (`NotFound`) where it gives `None`.

  /** DELETE `/api/products/:id`: splice out the first match and return it, or 404. */
  function DeleteProduct(ps: seq<Product>, id: int): (r: Result<(seq<Product>, Product), Error>)
    ensures r.Err? <==> forall i :: 0 <= i < |ps| ==> ps[i].id != id
    ensures r.Err? ==> r.error == NotFound
    ensures r.Ok? ==>
      && |r.value.0| == |ps| - 1
      && r.value.1.id == id
      && exists k :: 0 <= k < |ps| && ps[k] == r.value.1 && r.value.0 == ps[..k] + ps[k + 1..]
           && forall j :: 0 <= j < k ==> ps[j].id != id
  {
    var k := IndexOfProduct(ps, id);
    if k == -1 then Err(NotFound) else Ok((ps[..k] + ps[k + 1..], ps[k]))
  }

  /** With unique ids, removing the one match is the same as filtering out the id, as the localStorage backend does. */
  lemma DeleteIsFilterWhenUnique(ps: seq<Product>, id: int)
    requires UniqueProductIds(ps)
    requires DeleteProduct(ps, id).Ok?
    ensures DeleteProduct(ps, id).value.0 == Filter(ps, KeepsOtherIds(id))
  {
    var k := IndexOfProduct(ps, id);
    var keep := KeepsOtherIds(id);
    var before, after := ps[..k], ps[k + 1..];
    forall i | 0 <= i < |before| ensures keep(before[i]) {
      assert before[i] == ps[i];
    }
    forall i | 0 <= i < |after| ensures keep(after[i]) {
      assert after[i] == ps[k + 1 + i];
    }
    assert ps == before + [ps[k]] + after;
    FilterDropsOne(before, ps[k], after, keep);
  }

  // ---------------------------------------------------------------------------
  // Signup
  // ---------------------------------------------------------------------------

  predicate UniqueMobiles(users: seq<User>) {
    forall i, j :: 0 <= i < j < |users| ==> users[i].mobile != users[j].mobile
  }

  /**
   * POST `/api/signup`: a missing or empty mobile or password is a 400, a
   * mobile already registered a 409; otherwise the user is appended with id
   * `users.length + 1`, role defaulting to `USER`, and the issued token.
   */
  function Signup(users: seq<User>, name: string, mobile: Option<string>, password: Option<string>,
                  role: Option<string>, token: string): (r: Result<seq<User>, Error>)
    ensures r.Err? && r.error == MissingCredentials <==> !Truthy(mobile) || !Truthy(password)
    ensures r.Err? && r.error == UserExists <==>
      Truthy(mobile) && Truthy(password) && exists i :: 0 <= i < |users| && users[i].mobile == mobile.value
    ensures r.Ok? ==>
      && |r.value| == |users| + 1 && r.value[..|users|] == users
      && r.value[|users|].id == |users| + 1 && r.value[|users|].name == name
      && r.value[|users|].mobile == mobile.value && r.value[|users|].password == password.value
      && r.value[|users|].token == Some(token)
      && r.value[|users|].role == (if Truthy(role) then role.value else "USER")
    ensures r.Ok? ==> (UniqueMobiles(users) ==> UniqueMobiles(r.value))
  {
    if !Truthy(mobile) || !Truthy(password) then Err(MissingCredentials)
    else if exists i :: 0 <= i < |users| && users[i].mobile == mobile.value then Err(UserExists)
    else Ok(users + [User(|users| + 1, name, mobile.value, password.value, OrElse(role, "USER"), Some(token))])
  }

  /** Signing up twice with the same mobile is refused the second time. */
  lemma SignupTwice(users: seq<User>, name: string, mobile: Option<string>, password: Option<string>,
                    role: Option<string>, token: string, name2: string, password2: Option<string>, role2: Option<string>, token2: string)
    requires Signup(users, name, mobile, password, role, token).Ok? && Truthy(password2)
    ensures Signup(Signup(users, name, mobile, password, role, token).value, name2, mobile, password2, role2, token2) == Err(UserExists)
  {
    var users' := Signup(users, name, mobile, password, role, token).value;
    assert users'[|users|].mobile == mobile.value;
  }

  /** The issued token logs the new user in on the next request, under either lookup, when tokens are unique. */
  lemma SignupTokenAuthenticates(users: seq<User>, name: string, mobile: Option<string>, password: Option<string>,
                                 role: Option<string>, token: string, v: Variant)
    requires Signup(users, name, mobile, password, role, token).Ok?
    requires forall i :: 0 <= i < |users| ==> users[i].token != Some(token)
    ensures var users' := Signup(users, name, mobile, password, role, token).value;
      Authenticate(v, users', Some(token)) == Some(users'[|users|])
  {
    var users' := Signup(users, name, mobile, password, role, token).value;
    FindByTokenAppend(users, users'[|users|], Some(token));
    assert users' == users + [users'[|users|]];
  }

  lemma {:induction false} FindByTokenAppend(users: seq<User>, u: User, token: Option<string>)
    requires forall i :: 0 <= i < |users| ==> users[i].token != token
    requires u.token == token
    ensures FindByToken(users + [u], token) == Some(u)
    decreases |users|
  {
    if |users| > 0 {
      FindByTokenAppend(users[1..], u, token);
      assert (users + [u])[1..] == users[1..] + [u];
    }
  }

  // ---------------------------------------------------------------------------
  // Dashboard and reports
  // ---------------------------------------------------------------------------

  /** GET `/api/user-stats`: 401 without a matching token, else the total of the server's inventory. */
  ghost function UserStats(v: Variant, s: State, token: Option<string>): (r: Result<Inventory.UserStats, Error>)
    ensures r.Err? <==> Authenticate(v, s.users, token).None?
    ensures r.Ok? ==> r.value.productsTaken == r.value.balanceToReturn && r.value.productsTaken >= 0
    ensures r.Ok? ==> (r.value.productsTaken == 0 <==> |Inventory.ServerInventory(s, Authenticate(v, s.users, token).value.id)| == 0)
  {
    var user := Authenticate(v, s.users, token);
    if user.None? then Err(Unauthorized)
    else Ok(Inventory.GetUserStats(Inventory.ServerInventory(s, user.value.id)))
  }

  /** `parseInt(req.query.threshold) || 10`: an absent, unparsable or zero threshold means 10. */
  function LowStockThreshold(query: Option<int>): (t: int)
    ensures t != 0
    ensures query.Some? && query.value != 0 ==> t == query.value
    ensures query.None? || query.value == 0 ==> t == LOW_STOCK_THRESHOLD
  {
    if query.Some? && query.value != 0 then query.value else LOW_STOCK_THRESHOLD
  }

  /** GET `/api/reports/low-stock`: the products below the threshold, in catalogue order. */
  function LowStockReport(ps: seq<Product>, query: Option<int>): (r: seq<Product>)
    ensures forall p :: p in r <==> p in ps && p.stockQty < LowStockThreshold(query)
    ensures |r| == SumOf(ps, Indicator(IsLowStock(LowStockThreshold(query))))
    ensures |r| == |KeptIndices(ps, IsLowStock(LowStockThreshold(query)))|
    ensures forall i :: 0 <= i < |r| ==> r[i] == ps[KeptIndices(ps, IsLowStock(LowStockThreshold(query)))[i]]
  {
    LowStock(ps, LowStockThreshold(query))
  }
}
