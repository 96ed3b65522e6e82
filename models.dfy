/**
 * Records shared by both store engines and by the request handlers:
 * products, carts, orders, reviews, users and the two kinds of one-time
 * tokens, together with the error-carrying result types the Go code
 * expresses as `(value, error)` pairs.
 *
 * Timestamps are integers (nanoseconds since the epoch); the clock and the
 * identifier generator of the original program are inputs of the model.
 */
module Models {

  datatype Option<T> = None | Some(value: T)

  /** A Go `(T, error)` return: either a value or the error's text. */
  datatype Result<T> = Ok(value: T) | Err(msg: string)

  /** A Go `error` return with no value. */
  datatype Outcome = Pass | Fail(msg: string)

  type Time = int

  datatype Product = Product(
    id: string,
    name: string,
    description: string,
    category: string,
    priceCents: int,
    sku: string,
    stock: int,
    thumbnail: string,
    createdAt: Time,
    updatedAt: Time)

  /** One line of a cart, and also one line of an order as the stores report it. */
  datatype CartItem = CartItem(productId: string, quantity: int)

  datatype Cart = Cart(userId: string, items: seq<CartItem>)

  datatype Order = Order(
    id: string,
    userId: string,
    items: seq<CartItem>,
    amount: int,
    status: string,
    paymentRef: string,
    createdAt: Time)

  datatype Review = Review(
    id: string,
    userId: string,
    userName: string,
    userPhoto: string,
    rating: int,
    comment: string,
    createdAt: Time)

  datatype User = User(
    id: string,
    fullName: string,
    phone: string,
    email: string,
    password: string,
    role: string,
    authProvider: string,
    googleId: string,
    emailVerified: bool,
    createdAt: Time)

  /** Both `EmailVerification` and `PasswordReset` have this shape. */
  datatype Token = Token(token: string, userId: string, expiresAt: Time)

  // Error texts the stores return.
  const ErrEmailTaken := "email already registered"
  const ErrUserNotFound := "user not found"
  const ErrVerificationNotFound := "verification token not found"
  const ErrResetNotFound := "reset token not found"
  const ErrProductNotFound := "product not found"
  const ErrQuantity := "quantity must be positive"
  const ErrInsufficientStock := "insufficient stock"
  const ErrCartNotFound := "cart not found"
  const ErrNotInCart := "item not in cart"
  const ErrOrderNotFound := "order not found"
  const ErrRating := "rating must be between 1 and 5"

  /**
   * What a product-update closure did to the record it was handed: the record
   * as it left it, and the error it returned, if any.
   */
  datatype Patched = Patched(product: Product, err: Option<string>)

  /** The index of the first line for `pid`, or |items| when there is none. */
  function LineIndex(items: seq<CartItem>, pid: string): (k: nat)
    ensures k <= |items|
    ensures k < |items| ==> items[k].productId == pid
    ensures forall j :: 0 <= j < k ==> items[j].productId != pid
  {
    if items == [] then 0
    else if items[0].productId == pid then 0
    else 1 + LineIndex(items[1..], pid)
  }

  /** The quantity of the first line for `pid`, or 0 when the cart has none. */
  function LineQty(items: seq<CartItem>, pid: string): int
  {
    var k := LineIndex(items, pid);
    if k < |items| then items[k].quantity else 0
  }

  predicate HasLine(items: seq<CartItem>, pid: string)
  {
    exists i :: 0 <= i < |items| && items[i].productId == pid
  }

  /** No product occurs on two lines. */
  predicate UniqueLines(items: seq<CartItem>)
  {
    forall i, j :: 0 <= i < j < |items| ==> items[i].productId != items[j].productId
  }

  predicate PositiveLines(items: seq<CartItem>)
  {
    forall i :: 0 <= i < |items| ==> items[i].quantity > 0
  }

  /** The first line for `pid` is at `k`. */
  lemma LineIndexIs(items: seq<CartItem>, pid: string, k: nat)
    requires k < |items| && items[k].productId == pid
    requires forall j :: 0 <= j < k ==> items[j].productId != pid
    ensures LineIndex(items, pid) == k
  {
  }

  /** No line names `pid`. */
  lemma LineIndexNone(items: seq<CartItem>, pid: string)
    requires forall j :: 0 <= j < |items| ==> items[j].productId != pid
    ensures LineIndex(items, pid) == |items| && LineQty(items, pid) == 0
  {
  }

  /** A product has a line exactly when the first-line search stops inside the cart. */
  lemma LineIndexFinds(items: seq<CartItem>, pid: string)
    ensures HasLine(items, pid) <==> LineIndex(items, pid) < |items|
  {
  }

  /** In a cart without repeated products, every line is the first line for its product. */
  lemma LineQtyAt(items: seq<CartItem>, k: nat)
    requires k < |items| && UniqueLines(items)
    ensures LineIndex(items, items[k].productId) == k
    ensures LineQty(items, items[k].productId) == items[k].quantity
  {
  }

  /** Appending a line leaves the other products' quantities alone. */
  lemma LineQtySnoc(items: seq<CartItem>, it: CartItem, pid: string)
    requires !HasLine(items, it.productId)
    ensures LineQty(items + [it], pid) ==
      if pid == it.productId then it.quantity else LineQty(items, pid)
  {
    var xs := items + [it];
    assert forall j :: 0 <= j < |items| ==> xs[j] == items[j];
    assert xs[|items|] == it;
  }

  /** The quantity search looks at the first line, then at the rest. */
  lemma LineQtyCons(items: seq<CartItem>, pid: string)
    requires items != []
    ensures LineQty(items, pid) ==
      if items[0].productId == pid then items[0].quantity else LineQty(items[1..], pid)
  {
  }

  /** A product has a line exactly when it is on the first line or on one of the rest. */
  lemma HasLineCons(items: seq<CartItem>, pid: string)
    requires items != []
    ensures HasLine(items, pid) <==> items[0].productId == pid || HasLine(items[1..], pid)
  {
    if HasLine(items[1..], pid) {
      var i :| 0 <= i < |items[1..]| && items[1..][i].productId == pid;
      assert items[i + 1].productId == pid;
    }
  }

  /** A non-empty sequence is its prefix followed by its last element. */
  lemma SplitLast<T>(s: seq<T>)
    requires s != []
    ensures s == s[..|s| - 1] + [s[|s| - 1]]
  {
  }
}
