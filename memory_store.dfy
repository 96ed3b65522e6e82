/**
 * The in-memory store engine (memory.go): one finite map per kind of record,
 * updated in place. Each method is one step under the store's mutex, so the
 * model is sequential. Identifiers and timestamps come in as parameters.
 */
module MemoryStore {
  import opened Models
  import opened Collections
  import opened Sorting
  import Text

  /** Every map of the store, as one value. */
  datatype MemState = MemState(
    users: map<string, User>,
    byEmail: map<string, string>,
    emailVerifications: map<string, Token>,
    passwordResets: map<string, Token>,
    products: map<string, Product>,
    carts: map<string, Cart>,
    orders: map<string, Order>,
    reviews: map<string, Review>)

  /**
   * Users are keyed by id and indexed by email one-to-one; tokens, orders and
   * reviews are keyed by their own id; each cart belongs to its key's user and
   * holds one positive line per product.
   */
  predicate Consistent(s: MemState)
  {
    (forall id :: id in s.users ==>
      s.users[id].id == id && s.users[id].email in s.byEmail && s.byEmail[s.users[id].email] == id)
    && (forall e :: e in s.byEmail ==> s.byEmail[e] in s.users && s.users[s.byEmail[e]].email == e)
    && (forall t :: t in s.emailVerifications ==> s.emailVerifications[t].token == t)
    && (forall t :: t in s.passwordResets ==> s.passwordResets[t].token == t)
    && CartsWellFormed(s.carts)
    && (forall id :: id in s.orders ==> s.orders[id].id == id)
    && (forall id :: id in s.reviews ==> s.reviews[id].id == id)
  }

  /** Each cart belongs to its key's user and holds one positive line per product. */
  predicate CartsWellFormed(carts: map<string, Cart>)
  {
    forall u :: u in carts ==>
      carts[u].userId == u && UniqueLines(carts[u].items) && PositiveLines(carts[u].items)
  }

  /** The user's cart, or the empty cart GetCart reports for a user without one. */
  function CartOf(carts: map<string, Cart>, userId: string): Cart
  {
    if userId in carts then carts[userId] else Cart(userId, [])
  }

  // ----- cart lines -----

  /** "Add or update": the first line for `pid` grows by `qty`, or a line is appended. */
  function AddLine(items: seq<CartItem>, pid: string, qty: int): seq<CartItem>
  {
    var k := LineIndex(items, pid);
    if k < |items| then items[k := CartItem(pid, items[k].quantity + qty)]
    else items + [CartItem(pid, qty)]
  }

  /** The first line for `pid` is deleted when it holds at most `qty`, otherwise reduced by `qty`. */
  function RemoveLine(items: seq<CartItem>, pid: string, qty: int): seq<CartItem>
  {
    var k := LineIndex(items, pid);
    if k == |items| then items
    else if items[k].quantity <= qty then items[..k] + items[k + 1..]
    else items[k := CartItem(pid, items[k].quantity - qty)]
  }

  /** Adding a positive quantity keeps one positive line per product. */
  lemma AddLineWellFormed(items: seq<CartItem>, pid: string, qty: int)
    requires UniqueLines(items) && PositiveLines(items) && qty > 0
    ensures UniqueLines(AddLine(items, pid, qty)) && PositiveLines(AddLine(items, pid, qty))
  {
  }

  /** Removing keeps one positive line per product. */
  lemma RemoveLineWellFormed(items: seq<CartItem>, pid: string, qty: int)
    requires UniqueLines(items) && PositiveLines(items)
    ensures UniqueLines(RemoveLine(items, pid, qty)) && PositiveLines(RemoveLine(items, pid, qty))
  {
    var k := LineIndex(items, pid);
    var r := RemoveLine(items, pid, qty);
    if k < |items| && items[k].quantity <= qty {
      assert forall j :: 0 <= j < k ==> r[j] == items[j];
      assert forall j :: k <= j < |r| ==> r[j] == items[j + 1];
    }
  }

  /**
   * Adding keeps one positive line per product, raises the product's quantity
   * by `qty` and leaves every other product's quantity alone.
   */
  lemma AddLineEffect(items: seq<CartItem>, pid: string, qty: int)
    requires UniqueLines(items) && PositiveLines(items) && qty > 0
    ensures var r := AddLine(items, pid, qty);
      UniqueLines(r) && PositiveLines(r)
      && LineQty(r, pid) == LineQty(items, pid) + qty
      && (forall other :: other != pid ==> LineQty(r, other) == LineQty(items, other))
      && |r| == if HasLine(items, pid) then |items| else |items| + 1
  {
    var r := AddLine(items, pid, qty);
    var k := LineIndex(items, pid);
    if k < |items| {
      LineQtyAt(r, k);
      forall other | other != pid
        ensures LineQty(r, other) == LineQty(items, other)
      {
        var j := LineIndex(items, other);
        if j < |items| {
          LineQtyAt(items, j);
          LineQtyAt(r, j);
        } else {
          LineQtyAbsent(r, other);
        }
      }
    } else {
      LineQtySnoc(items, CartItem(pid, qty), pid);
      forall other | other != pid
        ensures LineQty(r, other) == LineQty(items, other)
      {
        LineQtySnoc(items, CartItem(pid, qty), other);
      }
    }
  }

  /** A product without a line has quantity 0. */
  lemma LineQtyAbsent(items: seq<CartItem>, pid: string)
    requires LineIndex(items, pid) == |items|
    ensures LineQty(items, pid) == 0 && !HasLine(items, pid)
  {
  }

  /**
   * Removing keeps one positive line per product; the product's line goes
   * away when it held at most `qty` and otherwise shrinks by `qty`; other
   * products keep their quantities.
   */
  lemma RemoveLineEffect(items: seq<CartItem>, pid: string, qty: int)
    requires UniqueLines(items) && PositiveLines(items) && qty > 0 && HasLine(items, pid)
    ensures var r := RemoveLine(items, pid, qty);
      UniqueLines(r) && PositiveLines(r)
      && (LineQty(items, pid) <= qty ==> !HasLine(r, pid))
      && (LineQty(items, pid) > qty ==> LineQty(r, pid) == LineQty(items, pid) - qty)
      && (forall other :: other != pid ==> LineQty(r, other) == LineQty(items, other))
  {
    RemoveLineWellFormed(items, pid, qty);
    var k := LineIndex(items, pid);
    LineIndexFinds(items, pid);
    if items[k].quantity <= qty {
      RemoveLineDeletes(items, pid, qty);
    } else {
      RemoveLineShrinks(items, pid, qty);
    }
  }

  /** Removing at least the line's quantity deletes the line and leaves the other quantities. */
  lemma RemoveLineDeletes(items: seq<CartItem>, pid: string, qty: int)
    requires UniqueLines(items) && LineIndex(items, pid) < |items|
    requires items[LineIndex(items, pid)].quantity <= qty
    ensures var r := RemoveLine(items, pid, qty);
      !HasLine(r, pid) && forall other :: other != pid ==> LineQty(r, other) == LineQty(items, other)
  {
    var k := LineIndex(items, pid);
    RemoveAtGone(items, k);
    forall other | other != pid
      ensures LineQty(items[..k] + items[k + 1..], other) == LineQty(items, other)
    {
      RemoveAtOthers(items, k, other);
    }
  }

  /** Without its line at `k`, a cart with unique lines has no line for that product. */
  lemma RemoveAtGone(items: seq<CartItem>, k: nat)
    requires UniqueLines(items) && k < |items|
    ensures !HasLine(items[..k] + items[k + 1..], items[k].productId)
  {
    var r := items[..k] + items[k + 1..];
    assert forall j :: 0 <= j < |r| ==> r[j] == if j < k then items[j] else items[j + 1];
    assert forall j :: 0 <= j < |r| ==> r[j].productId != items[k].productId;
  }

  /** Deleting the line at `k` leaves the quantity of every other product. */
  lemma RemoveAtOthers(items: seq<CartItem>, k: nat, other: string)
    requires k < |items| && items[k].productId != other
    ensures LineQty(items[..k] + items[k + 1..], other) == LineQty(items, other)
  {
    var r := items[..k] + items[k + 1..];
    assert forall j :: 0 <= j < |r| ==> r[j] == if j < k then items[j] else items[j + 1];
    var j := LineIndex(items, other);
    if j < k {
      LineIndexIs(r, other, j);
    } else if j < |items| {
      LineIndexIs(r, other, j - 1);
    } else {
      LineIndexNone(r, other);
    }
  }

  /** Removing less than the line's quantity shrinks that line and leaves the other quantities. */
  lemma RemoveLineShrinks(items: seq<CartItem>, pid: string, qty: int)
    requires UniqueLines(items) && LineIndex(items, pid) < |items|
    requires items[LineIndex(items, pid)].quantity > qty
    ensures var r := RemoveLine(items, pid, qty);
      LineQty(r, pid) == LineQty(items, pid) - qty
      && forall other :: other != pid ==> LineQty(r, other) == LineQty(items, other)
  {
    var r := RemoveLine(items, pid, qty);
    var k := LineIndex(items, pid);
    LineQtyAt(r, k);
    forall other | other != pid
      ensures LineQty(r, other) == LineQty(items, other)
    {
      var j := LineIndex(items, other);
      if j < |items| {
        LineQtyAt(items, j);
        LineQtyAt(r, j);
      } else {
        LineQtyAbsent(r, other);
      }
    }
  }

  /** After adding, the product has a line. */
  lemma AddLineFinds(items: seq<CartItem>, pid: string, qty: int)
    ensures LineIndex(AddLine(items, pid, qty), pid) < |AddLine(items, pid, qty)|
  {
    var k := LineIndex(items, pid);
    if k == |items| {
      LineIndexIs(AddLine(items, pid, qty), pid, k);
    }
  }

  /** Removing exactly what was just added gives back the cart as it was. */
  lemma RemoveUndoesAdd(items: seq<CartItem>, pid: string, qty: int)
    requires PositiveLines(items) && qty > 0
    ensures RemoveLine(AddLine(items, pid, qty), pid, qty) == items
  {
    var k := LineIndex(items, pid);
    var a := AddLine(items, pid, qty);
    if k < |items| {
      LineIndexIs(a, pid, k);
    } else {
      LineIndexIs(a, pid, |items|);
      assert a[..|items|] == items;
    }
  }

  // ----- stock decrement at order creation -----

  /**
   * The products after CreateOrder's decrement loop over `items`: each line in
   * turn takes its quantity off its product if the product exists and has
   * that much stock, and is skipped otherwise.
   */
  function Decremented(ps: map<string, Product>, items: seq<CartItem>): map<string, Product>
    decreases |items|
  {
    if items == [] then ps
    else
      var before := Decremented(ps, items[..|items| - 1]);
      var it := items[|items| - 1];
      if it.productId in before && before[it.productId].stock >= it.quantity
      then before[it.productId := before[it.productId].(stock := before[it.productId].stock - it.quantity)]
      else before
  }

  /**
   * The decrement touches nothing but stock and never takes a non-negative
   * stock below zero.
   */
  lemma {:induction false} DecrementedKeepsStockNonNegative(ps: map<string, Product>, items: seq<CartItem>)
    ensures var r := Decremented(ps, items);
      r.Keys == ps.Keys
      && (forall pid :: pid in ps ==> r[pid] == ps[pid].(stock := r[pid].stock))
      && (forall pid :: pid in ps && ps[pid].stock >= 0 ==> r[pid].stock >= 0)
    decreases |items|
  {
    if items != [] {
      DecrementedKeepsStockNonNegative(ps, items[..|items| - 1]);
    }
  }

  /** Every line of `items` names a stocked product with at least its quantity. */
  predicate Covered(ps: map<string, Product>, items: seq<CartItem>)
  {
    forall i :: 0 <= i < |items| ==>
      items[i].productId in ps && ps[items[i].productId].stock >= items[i].quantity
  }

  /**
   * When no product appears on two lines and every line is covered, each
   * product's stock drops by exactly its line's quantity.
   */
  lemma {:induction false} DecrementedExact(ps: map<string, Product>, items: seq<CartItem>)
    requires UniqueLines(items) && Covered(ps, items)
    ensures var r := Decremented(ps, items);
      forall pid :: pid in ps ==> pid in r && r[pid].stock == ps[pid].stock - LineQty(items, pid)
    decreases |items|
  {
    if items != [] {
      var n := |items| - 1;
      var prefix := items[..n];
      var it := items[n];
      PrefixLines(ps, items);
      DecrementedExact(ps, prefix);
      LineQtyAbsent(prefix, it.productId);
      var before := Decremented(ps, prefix);
      assert it.productId in before && before[it.productId].stock >= it.quantity by {
        assert it.productId in ps && ps[it.productId].stock >= it.quantity;
      }
      DecrementedLast(ps, items);
      DecrementStepExact(ps, prefix, it, before);
      SplitLast(items);
    }
  }

  /** Taking the last line's quantity off its product extends the exact account by that line. */
  lemma DecrementStepExact(ps: map<string, Product>, prefix: seq<CartItem>, it: CartItem,
                           before: map<string, Product>)
    requires forall pid :: pid in ps ==> pid in before && before[pid].stock == ps[pid].stock - LineQty(prefix, pid)
    requires !HasLine(prefix, it.productId) && it.productId in before
    ensures var after := before[it.productId := before[it.productId].(stock := before[it.productId].stock - it.quantity)];
      forall pid :: pid in ps ==> pid in after && after[pid].stock == ps[pid].stock - LineQty(prefix + [it], pid)
  {
    var after := before[it.productId := before[it.productId].(stock := before[it.productId].stock - it.quantity)];
    forall pid | pid in ps
      ensures after[pid].stock == ps[pid].stock - LineQty(prefix + [it], pid)
    {
      LineQtySnoc(prefix, it, pid);
    }
  }

  /** One more step of the decrement, when the last line's product is there with enough stock. */
  lemma DecrementedLast(ps: map<string, Product>, items: seq<CartItem>)
    requires items != []
    requires var before := Decremented(ps, items[..|items| - 1]);
      var it := items[|items| - 1];
      it.productId in before && before[it.productId].stock >= it.quantity
    ensures var before := Decremented(ps, items[..|items| - 1]);
      var it := items[|items| - 1];
      Decremented(ps, items) == before[it.productId := before[it.productId].(stock := before[it.productId].stock - it.quantity)]
  {
  }

  /** Dropping the last line keeps the other lines unique and covered, and frees the last product. */
  lemma PrefixLines(ps: map<string, Product>, items: seq<CartItem>)
    requires UniqueLines(items) && Covered(ps, items) && items != []
    ensures var prefix := items[..|items| - 1];
      UniqueLines(prefix) && Covered(ps, prefix)
      && LineIndex(prefix, items[|items| - 1].productId) == |prefix|
  {
    var prefix := items[..|items| - 1];
    LineIndexNone(prefix, items[|items| - 1].productId);
  }

  /** Replacing the carts by well-formed ones keeps the store consistent. */
  lemma CartsReplaced(s: MemState, carts: map<string, Cart>)
    requires Consistent(s) && CartsWellFormed(carts)
    ensures Consistent(s.(carts := carts))
  {
  }

  /** Replacing one user's cart by a well-formed one keeps the store consistent. */
  lemma CartUpdateConsistent(s: MemState, userId: string, items: seq<CartItem>)
    requires Consistent(s) && UniqueLines(items) && PositiveLines(items)
    ensures Consistent(s.(carts := s.carts[userId := Cart(userId, items)]))
  {
  }

  /** AddToCart's first loop: the quantity on the first line for `pid`, or 0. */
  method CurrentQuantity(items: seq<CartItem>, pid: string) returns (q: int)
    ensures q == LineQty(items, pid)
  {
    q := 0;
    var i := 0;
    while i < |items|
      invariant 0 <= i <= |items|
      invariant forall j :: 0 <= j < i ==> items[j].productId != pid
    {
      if items[i].productId == pid {
        LineIndexIs(items, pid, i);
        q := items[i].quantity;
        return;
      }
      i := i + 1;
    }
    LineIndexNone(items, pid);
  }

  /** AddToCart's second loop: bump the first line for `pid`, or append one. */
  method AddOrUpdate(items: seq<CartItem>, pid: string, qty: int) returns (r: seq<CartItem>)
    ensures r == AddLine(items, pid, qty)
  {
    var i := 0;
    while i < |items|
      invariant 0 <= i <= |items|
      invariant forall j :: 0 <= j < i ==> items[j].productId != pid
    {
      if items[i].productId == pid {
        LineIndexIs(items, pid, i);
        return items[i := CartItem(pid, items[i].quantity + qty)];
      }
      i := i + 1;
    }
    LineIndexNone(items, pid);
    return items + [CartItem(pid, qty)];
  }

  /** RemoveFromCart's loop: the index of the first line for `pid`, or |items|. */
  method FindLine(items: seq<CartItem>, pid: string) returns (i: int)
    ensures i == LineIndex(items, pid)
  {
    i := 0;
    while i < |items|
      invariant 0 <= i <= |items|
      invariant forall j :: 0 <= j < i ==> items[j].productId != pid
    {
      if items[i].productId == pid {
        LineIndexIs(items, pid, i);
        return;
      }
      i := i + 1;
    }
    LineIndexNone(items, pid);
  }

  // ----- cart operations on the map of carts -----

  /** What a cart operation returns, and the carts after it. */
  datatype CartStep = CartStep(r: Outcome, carts: map<string, Cart>)

  /**
   * AddToCart: a non-positive quantity is refused before anything else.
   * Otherwise the user's cart is created if missing, even when the product
   * then turns out to be unknown or short of stock; the product's stock must
   * cover what the cart already holds plus `qty`.
   */
  function AddToCartStep(carts: map<string, Cart>, products: map<string, Product>,
                         userId: string, productId: string, qty: int): CartStep
  {
    if qty <= 0 then CartStep(Fail(ErrQuantity), carts)
    else
      var c := CartOf(carts, userId);
      if productId !in products then CartStep(Fail(ErrProductNotFound), carts[userId := c])
      else if products[productId].stock < LineQty(c.items, productId) + qty
      then CartStep(Fail(ErrInsufficientStock), carts[userId := c])
      else CartStep(Pass, carts[userId := Cart(userId, AddLine(c.items, productId, qty))])
  }

  /**
   * RemoveFromCart: a non-positive quantity is refused first, then a user
   * without a cart; the product's line goes away when it holds at most `qty`
   * and otherwise shrinks by `qty`; a product without a line is an error.
   */
  function RemoveFromCartStep(carts: map<string, Cart>, userId: string, productId: string, qty: int): CartStep
  {
    if qty <= 0 then CartStep(Fail(ErrQuantity), carts)
    else if userId !in carts then CartStep(Fail(ErrCartNotFound), carts)
    else if LineIndex(carts[userId].items, productId) == |carts[userId].items|
    then CartStep(Fail(ErrNotInCart), carts)
    else CartStep(Pass, carts[userId := Cart(userId, RemoveLine(carts[userId].items, productId, qty))])
  }

  /**
   * AddToCart succeeds exactly when the quantity is positive, the product
   * exists and its stock covers the cart's quantity plus `qty`; then the
   * product's quantity grows by `qty` and stays within stock, and nothing else
   * in any cart changes. A failure leaves every cart's lines as they were. A
   * non-positive quantity changes nothing at all; past that check a missing
   * cart is created empty, and stays even when the call then fails.
   */
  lemma AddToCartEffect(carts: map<string, Cart>, products: map<string, Product>,
                        userId: string, productId: string, qty: int)
    requires CartsWellFormed(carts)
    ensures var st := AddToCartStep(carts, products, userId, productId, qty);
      var before := CartOf(carts, userId).items;
      var after := CartOf(st.carts, userId).items;
      CartsWellFormed(st.carts)
      && (st.r == Pass <==> qty > 0 && productId in products
                            && LineQty(before, productId) + qty <= products[productId].stock)
      && (st.r.Fail? ==> after == before)
      && (st.r == Pass ==> LineQty(after, productId) == LineQty(before, productId) + qty
                           && LineQty(after, productId) <= products[productId].stock)
      && (forall other :: other != productId ==> LineQty(after, other) == LineQty(before, other))
      && (forall u :: u != userId ==> CartOf(st.carts, u) == CartOf(carts, u))
      && (qty <= 0 ==> st.carts == carts)
      && (qty > 0 ==> st.carts.Keys == carts.Keys + {userId})
      && (qty > 0 && st.r.Fail? ==> st.carts == carts[userId := CartOf(carts, userId)])
  {
    var before := CartOf(carts, userId).items;
    if qty > 0 && productId in products && LineQty(before, productId) + qty <= products[productId].stock {
      AddLineEffect(before, productId, qty);
    }
  }

  /**
   * RemoveFromCart succeeds exactly when the quantity is positive and the
   * user's cart has a line for the product; the line then goes away when it
   * held at most `qty` and otherwise shrinks by `qty`. Nothing else in any
   * cart changes, and a failure changes nothing at all.
   */
  lemma RemoveFromCartEffect(carts: map<string, Cart>, userId: string, productId: string, qty: int)
    requires CartsWellFormed(carts)
    ensures var st := RemoveFromCartStep(carts, userId, productId, qty);
      var before := CartOf(carts, userId).items;
      var after := CartOf(st.carts, userId).items;
      CartsWellFormed(st.carts)
      && (st.r == Pass <==> qty > 0 && userId in carts && HasLine(before, productId))
      && (st.r.Fail? ==> st.carts == carts)
      && (st.r == Pass && LineQty(before, productId) <= qty ==> !HasLine(after, productId))
      && (st.r == Pass && LineQty(before, productId) > qty ==>
            LineQty(after, productId) == LineQty(before, productId) - qty)
      && (forall other :: other != productId ==> LineQty(after, other) == LineQty(before, other))
      && (forall u :: u != userId ==> CartOf(st.carts, u) == CartOf(carts, u))
  {
    var before := CartOf(carts, userId).items;
    LineIndexFinds(before, productId);
    if qty > 0 && userId in carts && HasLine(before, productId) {
      RemoveLineEffect(before, productId, qty);
    }
  }

  /**
   * Removing the quantity just added gives the user's cart back as it was
   * (created empty if it was missing).
   */
  lemma RemoveUndoesAddToCart(carts: map<string, Cart>, products: map<string, Product>,
                              userId: string, productId: string, qty: int)
    requires CartsWellFormed(carts)
    requires AddToCartStep(carts, products, userId, productId, qty).r == Pass
    ensures var added := AddToCartStep(carts, products, userId, productId, qty).carts;
      RemoveFromCartStep(added, userId, productId, qty) == CartStep(Pass, carts[userId := CartOf(carts, userId)])
  {
    var before := CartOf(carts, userId).items;
    var grown := AddLine(before, productId, qty);
    var added := carts[userId := Cart(userId, grown)];
    assert AddToCartStep(carts, products, userId, productId, qty).carts == added;
    AddLineFinds(before, productId, qty);
    RemoveUndoesAdd(before, productId, qty);
    assert RemoveFromCartStep(added, userId, productId, qty) == CartStep(Pass, added[userId := Cart(userId, before)]);
    assert added[userId := Cart(userId, before)] == carts[userId := CartOf(carts, userId)];
  }

  // ----- the store -----

  class InMemoryStore {
    var users: map<string, User>
    /** email -> id of the user registered with it */
    var byEmail: map<string, string>
    var emailVerifications: map<string, Token>
    var passwordResets: map<string, Token>
    var products: map<string, Product>
    var carts: map<string, Cart>
    var orders: map<string, Order>
    var reviews: map<string, Review>

    function State(): MemState
      reads this
    {
      MemState(users, byEmail, emailVerifications, passwordResets, products, carts, orders, reviews)
    }

    ghost predicate Valid()
      reads this
    {
      Consistent(State())
    }

    constructor ()
      ensures Valid()
      ensures State() == MemState(map[], map[], map[], map[], map[], map[], map[], map[])
    {
      users, byEmail := map[], map[];
      emailVerifications, passwordResets := map[], map[];
      products, carts, orders, reviews := map[], map[], map[], map[];
    }

    // ----- users -----

    /** A taken email is refused; empty role and provider default to "user" and "email". */
    method CreateUser(fullName: string, phone: string, email: string, passwordHash: string,
                      role: string, provider: string, googleId: string, emailVerified: bool,
                      id: string, now: Time) returns (r: Result<User>)
      requires Valid() && id !in users
      modifies this
      ensures Valid()
      ensures email in old(byEmail) ==> r == Err(ErrEmailTaken) && State() == old(State())
      ensures email !in old(byEmail) ==>
        r == Ok(User(id, fullName, phone, email, passwordHash,
                     if role == "" then "user" else role,
                     if provider == "" then "email" else provider,
                     googleId, emailVerified, now))
        && State() == old(State()).(users := old(users)[id := r.value],
                                    byEmail := old(byEmail)[email := id])
    {
      if email in byEmail {
        return Err(ErrEmailTaken);
      }
      var role' := if role == "" then "user" else role;
      var provider' := if provider == "" then "email" else provider;
      var u := User(id, fullName, phone, email, passwordHash, role', provider', googleId, emailVerified, now);
      users := users[id := u];
      byEmail := byEmail[email := id];
      return Ok(u);
    }

    method GetUserByEmail(email: string) returns (r: Result<User>)
      requires Valid()
      ensures email in byEmail ==> r.Ok? && r.value in users.Values && r.value.email == email
      ensures email !in byEmail ==> r == Err(ErrUserNotFound)
    {
      if email !in byEmail {
        return Err(ErrUserNotFound);
      }
      return Ok(users[byEmail[email]]);
    }

    method GetUserByID(id: string) returns (r: Result<User>)
      requires Valid()
      ensures id in users ==> r == Ok(users[id]) && r.value.id == id
      ensures id !in users ==> r == Err(ErrUserNotFound)
    {
      if id !in users {
        return Err(ErrUserNotFound);
      }
      return Ok(users[id]);
    }

    /** Seeding an already registered email is a silent no-op. */
    method SeedAdminUser(email: string, passwordHash: string, id: string, now: Time) returns (r: Outcome)
      requires Valid() && id !in users
      modifies this
      ensures Valid() && r == Pass
      ensures email in old(byEmail) ==> State() == old(State())
      ensures email !in old(byEmail) ==>
        State() == old(State()).(
          users := old(users)[id := User(id, "Administrator", "", email, passwordHash, "admin", "email", "", true, now)],
          byEmail := old(byEmail)[email := id])
    {
      if email in byEmail {
        return Pass;
      }
      var u := User(id, "Administrator", "", email, passwordHash, "admin", "email", "", true, now);
      users := users[id := u];
      byEmail := byEmail[email := id];
      return Pass;
    }

    method UpdateUserPassword(userId: string, passwordHash: string) returns (r: Outcome)
      requires Valid()
      modifies this
      ensures Valid()
      ensures userId !in old(users) ==> r == Fail(ErrUserNotFound) && State() == old(State())
      ensures userId in old(users) ==> (r == Pass
        && State() == old(State()).(users := old(users)[userId := old(users)[userId].(password := passwordHash)]))
    {
      if userId !in users {
        return Fail(ErrUserNotFound);
      }
      users := users[userId := users[userId].(password := passwordHash)];
      return Pass;
    }

    /** Marking an already verified user again succeeds. */
    method MarkEmailVerified(userId: string) returns (r: Outcome)
      requires Valid()
      modifies this
      ensures Valid()
      ensures userId !in old(users) ==> r == Fail(ErrUserNotFound) && State() == old(State())
      ensures userId in old(users) ==> (r == Pass
        && State() == old(State()).(users := old(users)[userId := old(users)[userId].(emailVerified := true)]))
    {
      if userId !in users {
        return Fail(ErrUserNotFound);
      }
      users := users[userId := users[userId].(emailVerified := true)];
      return Pass;
    }

    // ----- email verification and password reset tokens -----

    method CreateEmailVerification(userId: string, token: string, expiresAt: Time) returns (r: Outcome)
      requires Valid()
      modifies this
      ensures Valid() && r == Pass
      ensures State() == old(State()).(emailVerifications :=
        old(emailVerifications)[token := Token(token, userId, expiresAt)])
    {
      emailVerifications := emailVerifications[token := Token(token, userId, expiresAt)];
      return Pass;
    }

    method GetEmailVerification(token: string) returns (r: Result<Token>)
      requires Valid()
      ensures token in emailVerifications ==> r == Ok(emailVerifications[token]) && r.value.token == token
      ensures token !in emailVerifications ==> r == Err(ErrVerificationNotFound)
    {
      if token !in emailVerifications {
        return Err(ErrVerificationNotFound);
      }
      return Ok(emailVerifications[token]);
    }

    /**
     * The user's token with the latest expiry; among tokens with equal expiry
     * the walk keeps the first one it meets.
     */
    method GetLatestEmailVerificationByUser(userId: string) returns (r: Result<Token>)
      ensures r.Err? <==> forall t :: t in emailVerifications ==> emailVerifications[t].userId != userId
      ensures r.Err? ==> r == Err(ErrVerificationNotFound)
      ensures r.Ok? ==> (r.value in emailVerifications.Values && r.value.userId == userId
        && forall t :: t in emailVerifications && emailVerifications[t].userId == userId ==>
             emailVerifications[t].expiresAt <= r.value.expiresAt)
    {
      var latest: Option<Token> := None;
      var remaining := emailVerifications.Keys;
      while remaining != {}
        invariant remaining <= emailVerifications.Keys
        invariant latest.None? <==>
          forall t :: t in emailVerifications && t !in remaining ==> emailVerifications[t].userId != userId
        invariant latest.Some? ==> (latest.value in emailVerifications.Values && latest.value.userId == userId
          && forall t :: t in emailVerifications && t !in remaining && emailVerifications[t].userId == userId ==>
               emailVerifications[t].expiresAt <= latest.value.expiresAt)
        decreases remaining
      {
        var t :| t in remaining;
        var v := emailVerifications[t];
        if v.userId == userId {
          if latest.None? || v.expiresAt > latest.value.expiresAt {
            latest := Some(v);
          }
        }
        remaining := remaining - {t};
      }
      if latest.None? {
        return Err(ErrVerificationNotFound);
      }
      return Ok(latest.value);
    }

    method DeleteEmailVerification(token: string) returns (r: Outcome)
      requires Valid()
      modifies this
      ensures Valid() && r == Pass
      ensures State() == old(State()).(emailVerifications := old(emailVerifications) - {token})
    {
      emailVerifications := emailVerifications - {token};
      return Pass;
    }

    method CreatePasswordReset(userId: string, token: string, expiresAt: Time) returns (r: Outcome)
      requires Valid()
      modifies this
      ensures Valid() && r == Pass
      ensures State() == old(State()).(passwordResets :=
        old(passwordResets)[token := Token(token, userId, expiresAt)])
    {
      passwordResets := passwordResets[token := Token(token, userId, expiresAt)];
      return Pass;
    }

    method GetPasswordReset(token: string) returns (r: Result<Token>)
      requires Valid()
      ensures token in passwordResets ==> r == Ok(passwordResets[token]) && r.value.token == token
      ensures token !in passwordResets ==> r == Err(ErrResetNotFound)
    {
      if token !in passwordResets {
        return Err(ErrResetNotFound);
      }
      return Ok(passwordResets[token]);
    }

    method DeletePasswordReset(token: string) returns (r: Outcome)
      requires Valid()
      modifies this
      ensures Valid() && r == Pass
      ensures State() == old(State()).(passwordResets := old(passwordResets) - {token})
    {
      passwordResets := passwordResets - {token};
      return Pass;
    }

    // ----- products -----

    /** The store assigns the id and stamps both timestamps. */
    method CreateProduct(p: Product, id: string, now: Time) returns (r: Result<Product>)
      requires Valid()
      modifies this
      ensures Valid()
      ensures r == Ok(p.(id := id, createdAt := now, updatedAt := now))
      ensures State() == old(State()).(products := old(products)[id := r.value])
    {
      var p' := p.(id := id, createdAt := now, updatedAt := now);
      products := products[id := p'];
      return Ok(p');
    }

    /**
     * The patch edits the stored record itself: a failing patch's edits stay,
     * and only a successful one gets the update time.
     */
    method UpdateProduct(id: string, patch: Product -> Patched, now: Time) returns (r: Result<Product>)
      requires Valid()
      modifies this
      ensures Valid()
      ensures id !in old(products) ==> r == Err(ErrProductNotFound) && State() == old(State())
      ensures id in old(products) ==>
        var res := patch(old(products)[id]);
        if res.err.Some? then
          r == Err(res.err.value)
          && State() == old(State()).(products := old(products)[id := res.product])
        else
          r == Ok(res.product.(updatedAt := now))
          && State() == old(State()).(products := old(products)[id := r.value])
    {
      if id !in products {
        return Err(ErrProductNotFound);
      }
      var res := patch(products[id]);
      products := products[id := res.product];
      if res.err.Some? {
        return Err(res.err.value);
      }
      var p := res.product.(updatedAt := now);
      products := products[id := p];
      return Ok(p);
    }

    /** Cart lines naming the product are left in place. */
    method DeleteProduct(id: string) returns (r: Outcome)
      requires Valid()
      modifies this
      ensures Valid()
      ensures id !in old(products) ==> r == Fail(ErrProductNotFound) && State() == old(State())
      ensures id in old(products) ==> r == Pass && State() == old(State()).(products := old(products) - {id})
    {
      if id !in products {
        return Fail(ErrProductNotFound);
      }
      products := products - {id};
      return Pass;
    }

    method GetProduct(id: string) returns (r: Result<Product>)
      ensures id in products ==> r == Ok(products[id])
      ensures id !in products ==> r == Err(ErrProductNotFound)
    {
      if id !in products {
        return Err(ErrProductNotFound);
      }
      return Ok(products[id]);
    }

    /** Every product when the query is "", else those matching it (see MatchesQuery). */
    method ListProducts(query: string) returns (r: seq<Product>, ghost ks: seq<string>)
      ensures Listing(products, (p: Product) => MatchesQuery(p, query), r, ks)
      ensures query == "" ==> forall id :: id in products ==> id in ks
    {
      r, ks := Collect(products, (p: Product) => MatchesQuery(p, query));
    }

    // ----- carts -----

    method GetOrCreateCart(userId: string) returns (c: Cart)
      requires Valid()
      modifies this
      ensures Valid()
      ensures c == CartOf(old(carts), userId)
      ensures State() == old(State()).(carts := old(carts)[userId := c])
    {
      if userId !in carts {
        carts := carts[userId := Cart(userId, [])];
      }
      return carts[userId];
    }

    /** See AddToCartStep. */
    method AddToCart(userId: string, productId: string, qty: int) returns (r: Outcome)
      requires Valid()
      modifies this
      ensures Valid()
      ensures State() == old(State()).(carts := carts)
      ensures CartStep(r, carts) == AddToCartStep(old(carts), products, userId, productId, qty)
    {
      if qty <= 0 {
        r := Fail(ErrQuantity);
      } else {
        if userId !in carts {
          carts := carts[userId := Cart(userId, [])];
        }
        var c := carts[userId];
        if productId !in products {
          r := Fail(ErrProductNotFound);
        } else {
          var p := products[productId];
          var currentQty := CurrentQuantity(c.items, productId);
          if p.stock < currentQty + qty {
            r := Fail(ErrInsufficientStock);
          } else {
            var items := AddOrUpdate(c.items, productId, qty);
            assert carts[userId := Cart(userId, items)] == old(carts)[userId := Cart(userId, items)];
            carts := carts[userId := Cart(userId, items)];
            r := Pass;
          }
        }
      }
      AddToCartEffect(old(carts), products, userId, productId, qty);
      CartsReplaced(old(State()), carts);
    }

    /** See RemoveFromCartStep. */
    method RemoveFromCart(userId: string, productId: string, qty: int) returns (r: Outcome)
      requires Valid()
      modifies this
      ensures Valid()
      ensures State() == old(State()).(carts := carts)
      ensures CartStep(r, carts) == RemoveFromCartStep(old(carts), userId, productId, qty)
    {
      if qty <= 0 {
        r := Fail(ErrQuantity);
      } else if userId !in carts {
        r := Fail(ErrCartNotFound);
      } else {
        var c := carts[userId];
        var i := FindLine(c.items, productId);
        if i < |c.items| {
          var items := if c.items[i].quantity <= qty then c.items[..i] + c.items[i + 1..]
                       else c.items[i := CartItem(productId, c.items[i].quantity - qty)];
          assert items == RemoveLine(c.items, productId, qty);
          carts := carts[userId := Cart(userId, items)];
          r := Pass;
        } else {
          r := Fail(ErrNotInCart);
        }
      }
      RemoveFromCartEffect(old(carts), userId, productId, qty);
      CartsReplaced(old(State()), carts);
    }

    /** Deleting an absent cart is a no-op, so clearing twice is clearing once. */
    method ClearCart(userId: string)
      requires Valid()
      modifies this
      ensures Valid()
      ensures State() == old(State()).(carts := old(carts) - {userId})
    {
      carts := carts - {userId};
    }

    /** A copy of the user's lines; a user without a cart gets an empty one and none is stored. */
    method GetCart(userId: string) returns (r: Result<Cart>)
      requires Valid()
      ensures r == Ok(CartOf(carts, userId))
      ensures r.value.userId == userId
      ensures UniqueLines(r.value.items) && PositiveLines(r.value.items)
    {
      if userId !in carts {
        return Ok(Cart(userId, []));
      }
      var c := carts[userId];
      return Ok(Cart(userId, c.items));
    }

    // ----- orders -----

    /**
     * The order is stored first; then each line takes its quantity off a
     * product that exists and has enough stock, and is skipped otherwise.
     * There is no failure path.
     */
    method CreateOrder(userId: string, items: seq<CartItem>, amount: int, status: string,
                       paymentRef: string, id: string, now: Time) returns (r: Result<Order>)
      requires Valid() && id !in orders
      modifies this
      ensures Valid()
      ensures r == Ok(Order(id, userId, items, amount, status, paymentRef, now))
      ensures State() == old(State()).(orders := old(orders)[id := r.value],
                                       products := Decremented(old(products), items))
    {
      var o := Order(id, userId, items, amount, status, paymentRef, now);
      orders := orders[id := o];
      var i := 0;
      while i < |items|
        invariant 0 <= i <= |items|
        invariant State() == old(State()).(orders := old(orders)[id := o],
                                           products := Decremented(old(products), items[..i]))
      {
        var it := items[i];
        if it.productId in products {
          var p := products[it.productId];
          if p.stock >= it.quantity {
            products := products[it.productId := p.(stock := p.stock - it.quantity)];
          }
        }
        assert items[..i + 1][..i] == items[..i];
        i := i + 1;
      }
      assert items[..|items|] == items;
      return Ok(o);
    }

    method ListOrdersByUser(userId: string) returns (r: seq<Order>, ghost ks: seq<string>)
      ensures Listing(orders, (o: Order) => o.userId == userId, r, ks)
    {
      r, ks := Collect(orders, (o: Order) => o.userId == userId);
    }

    method ListOrders() returns (r: seq<Order>, ghost ks: seq<string>)
      ensures Listing(orders, (o: Order) => true, r, ks)
      ensures |r| == |orders|
    {
      r, ks := Collect(orders, (o: Order) => true);
      assert (set k | k in ks) == orders.Keys;
      DistinctCard(ks);
    }

    /** Setting the status it already has succeeds again. */
    method UpdateOrderStatus(orderId: string, status: string) returns (r: Outcome)
      requires Valid()
      modifies this
      ensures Valid()
      ensures orderId !in old(orders) ==> r == Fail(ErrOrderNotFound) && State() == old(State())
      ensures orderId in old(orders) ==> (r == Pass
        && State() == old(State()).(orders := old(orders)[orderId := old(orders)[orderId].(status := status)]))
    {
      if orderId !in orders {
        return Fail(ErrOrderNotFound);
      }
      orders := orders[orderId := orders[orderId].(status := status)];
      return Pass;
    }

    method UpdateOrderPaymentRef(orderId: string, paymentRef: string) returns (r: Outcome)
      requires Valid()
      modifies this
      ensures Valid()
      ensures orderId !in old(orders) ==> r == Fail(ErrOrderNotFound) && State() == old(State())
      ensures orderId in old(orders) ==> (r == Pass
        && State() == old(State()).(orders := old(orders)[orderId := old(orders)[orderId].(paymentRef := paymentRef)]))
    {
      if orderId !in orders {
        return Fail(ErrOrderNotFound);
      }
      orders := orders[orderId := orders[orderId].(paymentRef := paymentRef)];
      return Pass;
    }

    // ----- reviews -----

    method CreateReview(userId: string, userName: string, userPhoto: string, rating: int,
                        comment: string, id: string, now: Time) returns (r: Result<Review>)
      requires Valid() && id !in reviews
      modifies this
      ensures Valid()
      ensures (rating < 1 || rating > 5) ==> r == Err(ErrRating) && State() == old(State())
      ensures 1 <= rating <= 5 ==>
        r == Ok(Review(id, userId, userName, userPhoto, rating, comment, now))
        && State() == old(State()).(reviews := old(reviews)[id := r.value])
    {
      if rating < 1 || rating > 5 {
        return Err(ErrRating);
      }
      var rv := Review(id, userId, userName, userPhoto, rating, comment, now);
      reviews := reviews[id := rv];
      return Ok(rv);
    }

    /**
     * All reviews, newest first, cut to the first `limit` only when `limit` is
     * positive. `listed` is the walk's order and `all` the sorted whole.
     */
    method ListReviews(limit: int) returns (r: seq<Review>, ghost all: seq<Review>,
                                            ghost listed: seq<Review>, ghost ks: seq<string>)
      ensures Listing(reviews, (rv: Review) => true, listed, ks)
      ensures multiset(all) == multiset(listed)
      ensures NonIncreasing(all, (rv: Review) => rv.createdAt)
      ensures r == if limit > 0 && |all| > limit then all[..limit] else all
    {
      var vs;
      vs, ks := Collect(reviews, (rv: Review) => true);
      listed := vs;
      var a := new Review[|vs|](i requires 0 <= i < |vs| => vs[i]);
      assert a[..] == vs;
      ExchangeSortDesc(a, (rv: Review) => rv.createdAt);
      all := a[..];
      r := a[..];
      if limit > 0 && |r| > limit {
        r := r[..limit];
      }
    }

    /** The number of the user's reviews. */
    method GetUserReviewCount(userId: string) returns (n: int)
      ensures n == |set k | k in reviews && reviews[k].userId == userId|
    {
      n := 0;
      var remaining := reviews.Keys;
      ghost var counted: set<string> := {};
      while remaining != {}
        invariant remaining <= reviews.Keys
        invariant counted == set k | k in reviews && k !in remaining && reviews[k].userId == userId
        invariant n == |counted|
        decreases remaining
      {
        var k :| k in remaining;
        if reviews[k].userId == userId {
          counted := counted + {k};
          n := n + 1;
        }
        remaining := remaining - {k};
      }
      assert counted == set k | k in reviews && reviews[k].userId == userId;
    }
  }

  /**
   * The in-memory search: an empty query keeps everything; otherwise the
   * ASCII-folded query must occur in the folded name, description, SKU or
   * category (containsFold).
   */
  predicate MatchesQuery(p: Product, query: string)
  {
    query == ""
    || Text.IsSubstring(Text.Lower(query), Text.Lower(p.name))
    || Text.IsSubstring(Text.Lower(query), Text.Lower(p.description))
    || Text.IsSubstring(Text.Lower(query), Text.Lower(p.sku))
    || Text.IsSubstring(Text.Lower(query), Text.Lower(p.category))
  }

  /** A sequence of distinct keys has as many elements as its set. */
  lemma {:induction false} DistinctCard<K>(ks: seq<K>)
    requires Distinct(ks)
    ensures |set k | k in ks| == |ks|
  {
    if ks != [] {
      var rest := ks[1..];
      assert Distinct(rest);
      DistinctCard(rest);
      assert (set k | k in ks) == (set k | k in rest) + {ks[0]};
      assert ks[0] !in rest;
    }
  }
}
