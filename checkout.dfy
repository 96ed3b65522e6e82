/**
 * The checkout handler (checkout.go) over the in-memory engine: price the
 * cart, create a pending order, take payment, record the payment reference,
 * clear the cart; and the payment-notification callback that maps the
 * gateway's transaction status onto an order status.
 *
 * The payment gateway is an input: what the Snap call and the direct charge
 * answered is passed in, so every outcome of the gateway is covered.
 */
module Checkout {
  import opened Models
  import opened Collections
  import opened MemoryStore
  import Strconv

  const ErrBadBody := "Payment method required"
  const ErrEmptyCart := "Keranjang kosong"

  function InvalidProduct(pid: string): string
  {
    "Invalid product in cart: " + pid
  }

  function NoStock(p: Product): string
  {
    "Stock tidak cukup untuk " + p.name + " (tersedia: " + Strconv.Decimal(p.stock) + ")"
  }

  /** The JSON body of a checkout or order-list answer. */
  datatype OrderResp = OrderResp(
    orderId: string,
    status: string,
    amount: int,
    paymentRef: string,
    paymentUrl: string,
    redirectUrl: string,
    items: seq<CartItem>,
    createdAt: Time)

  datatype Reply = Refused(code: int, error: string) | Accepted(resp: OrderResp)

  // ----- pricing -----

  /** What is wrong with one cart line, checked product first and stock second. */
  function LineProblem(ps: map<string, Product>, it: CartItem): Option<string>
  {
    if it.productId !in ps then Some(InvalidProduct(it.productId))
    else if ps[it.productId].stock < it.quantity then Some(NoStock(ps[it.productId]))
    else None
  }

  /**
   * The pricing loop: the first line with a problem stops it with that
   * problem; otherwise the amount is the sum of quantity times unit price.
   */
  function Quote(ps: map<string, Product>, items: seq<CartItem>): Result<int>
  {
    if items == [] then Ok(0)
    else if LineProblem(ps, items[0]).Some? then Err(LineProblem(ps, items[0]).value)
    else
      match Quote(ps, items[1..])
      case Ok(rest) => Ok(items[0].quantity * ps[items[0].productId].priceCents + rest)
      case Err(m) => Err(m)
  }

  /** A quote that already has `amount` counted. */
  function Shifted(amount: int, q: Result<int>): Result<int>
  {
    match q
    case Ok(a) => Ok(amount + a)
    case Err(m) => Err(m)
  }

  /** Pricing succeeds exactly when every line names a product with enough stock. */
  lemma {:induction false} QuoteOkIffCovered(ps: map<string, Product>, items: seq<CartItem>)
    ensures Quote(ps, items).Ok? <==> Covered(ps, items)
  {
    if items != [] {
      QuoteOkIffCovered(ps, items[1..]);
      if Covered(ps, items) {
        assert forall i :: 0 <= i < |items| - 1 ==> items[1..][i] == items[i + 1];
      }
      if LineProblem(ps, items[0]).None? && Covered(ps, items[1..]) {
        forall i | 0 <= i < |items|
          ensures items[i].productId in ps && ps[items[i].productId].stock >= items[i].quantity
        {
          if i > 0 {
            assert items[i] == items[1..][i - 1];
          }
        }
      }
    }
  }

  /** A failed quote reports the problem of the first line that has one. */
  lemma {:induction false} QuoteFailsAtFirstProblem(ps: map<string, Product>, items: seq<CartItem>)
    requires Quote(ps, items).Err?
    ensures exists k :: (0 <= k < |items| && Covered(ps, items[..k])
                         && LineProblem(ps, items[k]) == Some(Quote(ps, items).msg))
  {
    if LineProblem(ps, items[0]).Some? {
      assert Covered(ps, items[..0]);
    } else {
      QuoteFailsAtFirstProblem(ps, items[1..]);
      var k :| 0 <= k < |items[1..]| && Covered(ps, items[1..][..k])
        && LineProblem(ps, items[1..][k]) == Some(Quote(ps, items[1..]).msg);
      assert items[1..][k] == items[k + 1];
      forall i | 0 <= i < k + 1
        ensures items[i].productId in ps && ps[items[i].productId].stock >= items[i].quantity
      {
        if i > 0 {
          assert items[i] == items[1..][..k][i - 1];
        }
      }
      assert Covered(ps, items[..k + 1]);
    }
  }

  /** The amount of two carts laid end to end is the sum of their amounts. */
  lemma {:induction false} QuoteAppend(ps: map<string, Product>, a: seq<CartItem>, b: seq<CartItem>)
    requires Quote(ps, a).Ok? && Quote(ps, b).Ok?
    ensures Quote(ps, a + b) == Ok(Quote(ps, a).value + Quote(ps, b).value)
  {
    if a == [] {
      assert a + b == b;
    } else {
      assert (a + b)[0] == a[0];
      assert (a + b)[1..] == a[1..] + b;
      QuoteAppend(ps, a[1..], b);
    }
  }

  /** With positive quantities and prices that are not negative, the amount is not negative. */
  lemma {:induction false} QuoteNonNegative(ps: map<string, Product>, items: seq<CartItem>)
    requires PositiveLines(items)
    requires forall pid :: pid in ps ==> ps[pid].priceCents >= 0
    requires Quote(ps, items).Ok?
    ensures Quote(ps, items).value >= 0
  {
    if items != [] {
      assert PositiveLines(items[1..]) by {
        assert forall i :: 0 <= i < |items| - 1 ==> items[1..][i] == items[i + 1];
      }
      QuoteNonNegative(ps, items[1..]);
      assert items[0].quantity > 0;
    }
  }

  // ----- payment -----

  datatype Gateway = Midtrans | Mock

  /** What the Snap transaction call answers on success. */
  datatype Snap = Snap(paymentUrl: string, orderId: string)

  /**
   * The payment step: with the Midtrans gateway a Snap transaction is tried
   * first and a direct charge is the fallback; the mock gateway charges
   * directly. On success, the payment reference and the payment page (empty
   * after a direct charge); on failure, the 402 message.
   */
  function Pay(gw: Gateway, snap: Result<Snap>, charge: Result<string>): Result<(string, string)>
  {
    match gw
    case Midtrans =>
      if snap.Ok? then Ok((snap.value.orderId, snap.value.paymentUrl))
      else if charge.Ok? then Ok((charge.value, ""))
      else Err("Payment gagal: " + charge.msg)
    case Mock =>
      if charge.Ok? then Ok((charge.value, "")) else Err("Payment gagal")
  }

  /**
   * Payment succeeds when Snap does, or else when the charge does; a payment
   * page is only ever handed out by Snap.
   */
  lemma PayOutcome(gw: Gateway, snap: Result<Snap>, charge: Result<string>)
    ensures Pay(gw, snap, charge).Ok? <==> (gw == Midtrans && snap.Ok?) || charge.Ok?
    ensures Pay(gw, snap, charge).Ok? && Pay(gw, snap, charge).value.1 != "" ==>
      gw == Midtrans && snap.Ok? && snap.value.paymentUrl == Pay(gw, snap, charge).value.1
    ensures Pay(gw, snap, charge).Err? ==>
      (|Pay(gw, snap, charge).msg| >= 13 && Pay(gw, snap, charge).msg[..13] == "Payment gagal")
  {
  }

  // ----- the checkout request -----

  /**
   * The whole request as one step on the store's state: the new state and the
   * reply. `bound` says whether the body was a JSON object.
   */
  function CheckoutStep(s: MemState, bound: bool, userId: string, gw: Gateway, snap: Result<Snap>,
                        charge: Result<string>, orderId: string, now: Time): (MemState, Reply)
  {
    var items := CartOf(s.carts, userId).items;
    if !bound then (s, Refused(400, ErrBadBody))
    else if items == [] then (s, Refused(400, ErrEmptyCart))
    else match Quote(s.products, items)
      case Err(m) => (s, Refused(400, m))
      case Ok(amount) =>
        var o := Order(orderId, userId, items, amount, "pending", "", now);
        var placed := s.(orders := s.orders[orderId := o], products := Decremented(s.products, items));
        match Pay(gw, snap, charge)
        case Err(m) => (placed, Refused(402, m))
        case Ok(paid) =>
          var referenced := placed.(orders := placed.orders[orderId := o.(paymentRef := paid.0)]);
          (referenced.(carts := referenced.carts - {userId}),
           Accepted(OrderResp(orderId, "pending", amount, paid.0, paid.1, paid.1, items, now)))
  }

  /**
   * A checkout goes through exactly when the body parses, the cart has lines,
   * every line's product exists with enough stock, and payment succeeds.
   */
  lemma CheckoutAccepted(s: MemState, bound: bool, userId: string, gw: Gateway, snap: Result<Snap>,
                         charge: Result<string>, orderId: string, now: Time)
    ensures CheckoutStep(s, bound, userId, gw, snap, charge, orderId, now).1.Accepted? <==>
      bound && CartOf(s.carts, userId).items != [] && Covered(s.products, CartOf(s.carts, userId).items)
      && ((gw == Midtrans && snap.Ok?) || charge.Ok?)
  {
    QuoteOkIffCovered(s.products, CartOf(s.carts, userId).items);
  }

  /**
   * A request refused with 400 (bad body, empty cart, a missing product or
   * short stock) creates no order and changes nothing; the message names the
   * first offending line.
   */
  lemma CheckoutRejectsBeforeOrder(s: MemState, bound: bool, userId: string, gw: Gateway, snap: Result<Snap>,
                                   charge: Result<string>, orderId: string, now: Time)
    requires bound && CartOf(s.carts, userId).items != []
    requires !Covered(s.products, CartOf(s.carts, userId).items)
    ensures var (s', r) := CheckoutStep(s, bound, userId, gw, snap, charge, orderId, now);
      var items := CartOf(s.carts, userId).items;
      s' == s && r.Refused? && r.code == 400
      && exists k :: 0 <= k < |items| && Covered(s.products, items[..k])
                  && LineProblem(s.products, items[k]) == Some(r.error)
  {
    var items := CartOf(s.carts, userId).items;
    QuoteOkIffCovered(s.products, items);
    QuoteFailsAtFirstProblem(s.products, items);
  }

  /**
   * Once the cart is priced the order exists, pending, for the cart's lines
   * and the quoted amount, and each product's stock has dropped by its line's
   * quantity, whatever the payment did. A failed payment answers 402 and
   * leaves the order without a reference and the cart as it was.
   */
  lemma CheckoutPlacesOrder(s: MemState, userId: string, gw: Gateway, snap: Result<Snap>,
                            charge: Result<string>, orderId: string, now: Time)
    requires Consistent(s)
    requires CartOf(s.carts, userId).items != [] && Quote(s.products, CartOf(s.carts, userId).items).Ok?
    ensures var (s', r) := CheckoutStep(s, true, userId, gw, snap, charge, orderId, now);
      var items := CartOf(s.carts, userId).items;
      var amount := Quote(s.products, items).value;
      orderId in s'.orders
      && s'.orders[orderId].items == items && s'.orders[orderId].amount == amount
      && s'.orders[orderId].status == "pending" && s'.orders[orderId].userId == userId
      && s'.products.Keys == s.products.Keys
      && (forall pid :: pid in s.products ==> s'.products[pid].stock == s.products[pid].stock - LineQty(items, pid))
      && (r.Refused? ==> r.code == 402 && s'.carts == s.carts && s'.orders[orderId].paymentRef == "")
  {
    var items := CartOf(s.carts, userId).items;
    QuoteOkIffCovered(s.products, items);
    assert UniqueLines(items);
    DecrementedExact(s.products, items);
    DecrementedKeepsStockNonNegative(s.products, items);
  }

  /**
   * A successful checkout records the payment reference on the order, clears
   * the cart, and answers with the pending order, its lines, the amount and
   * the payment page if there is one.
   */
  lemma CheckoutCompletes(s: MemState, userId: string, gw: Gateway, snap: Result<Snap>,
                          charge: Result<string>, orderId: string, now: Time)
    requires CheckoutStep(s, true, userId, gw, snap, charge, orderId, now).1.Accepted?
    ensures var (s', r) := CheckoutStep(s, true, userId, gw, snap, charge, orderId, now);
      var items := CartOf(s.carts, userId).items;
      var amount := Quote(s.products, items).value;
      Covered(s.products, items) && items != []
      && userId !in s'.carts && s'.users == s.users && s'.reviews == s.reviews
      && s'.orders == s.orders[orderId := Order(orderId, userId, items, amount, "pending", r.resp.paymentRef, now)]
      && r.resp.orderId == orderId && r.resp.status == "pending" && r.resp.amount == amount
      && r.resp.items == items && r.resp.paymentUrl == r.resp.redirectUrl
      && Pay(gw, snap, charge) == Ok((r.resp.paymentRef, r.resp.paymentUrl))
  {
    QuoteOkIffCovered(s.products, CartOf(s.carts, userId).items);
  }

  /** The pricing loop over the cart's lines, reading each product from the store. */
  method PriceCart(st: InMemoryStore, items: seq<CartItem>) returns (r: Result<int>)
    ensures r == Quote(st.products, items)
  {
    var amount := 0;
    var i := 0;
    while i < |items|
      invariant 0 <= i <= |items|
      invariant Quote(st.products, items) == Shifted(amount, Quote(st.products, items[i..]))
    {
      assert items[i..][1..] == items[i + 1..];
      var it := items[i];
      var p := st.GetProduct(it.productId);
      if p.Err? {
        return Err(InvalidProduct(it.productId));
      }
      if p.value.stock < it.quantity {
        return Err(NoStock(p.value));
      }
      amount := amount + it.quantity * p.value.priceCents;
      i := i + 1;
    }
    assert items[i..] == [];
    return Ok(amount);
  }

  /** The handler, issuing the store calls in the order the source does. */
  method HandleCheckout(st: InMemoryStore, bound: bool, userId: string, gw: Gateway, snap: Result<Snap>,
                        charge: Result<string>, orderId: string, now: Time) returns (reply: Reply)
    requires st.Valid() && orderId !in st.orders
    modifies st
    ensures st.Valid()
    ensures (st.State(), reply) == CheckoutStep(old(st.State()), bound, userId, gw, snap, charge, orderId, now)
  {
    if !bound {
      return Refused(400, ErrBadBody);
    }
    var cart := st.GetCart(userId);
    if cart.Err? || |cart.value.items| == 0 {
      return Refused(400, ErrEmptyCart);
    }
    var items := cart.value.items;
    var quote := PriceCart(st, items);
    if quote.Err? {
      return Refused(400, quote.msg);
    }
    var amount := quote.value;
    var o := st.CreateOrder(userId, items, amount, "pending", "", orderId, now);
    var paid := Pay(gw, snap, charge);
    if paid.Err? {
      return Refused(402, paid.msg);
    }
    var _ := st.UpdateOrderPaymentRef(orderId, paid.value.0);
    st.ClearCart(userId);
    return Accepted(OrderResp(orderId, "pending", amount, paid.value.0, paid.value.1, paid.value.1, items, now));
  }

  // ----- the buyer's order list -----

  /** One order as the list answer shows it. */
  function OrderView(o: Order): OrderResp
  {
    OrderResp(o.id, o.status, o.amount, o.paymentRef, "", "", o.items, o.createdAt)
  }

  /** One answer row per order of the user, in the order the store listed them. */
  method MyOrders(st: InMemoryStore, userId: string) returns (resp: seq<OrderResp>, os: seq<Order>,
                                                               ghost ks: seq<string>)
    ensures Listing(st.orders, (o: Order) => o.userId == userId, os, ks)
    ensures |resp| == |os|
    ensures forall i :: 0 <= i < |resp| ==> resp[i] == OrderView(os[i])
  {
    os, ks := st.ListOrdersByUser(userId);
    resp := [];
    var i := 0;
    while i < |os|
      invariant 0 <= i <= |os| && |resp| == i
      invariant forall j :: 0 <= j < i ==> resp[j] == OrderView(os[j])
    {
      resp := resp + [OrderView(os[i])];
      i := i + 1;
    }
  }

  // ----- payment notifications -----

  /** A decoded JSON value, as far as the callback looks at it. */
  datatype Json = JString(s: string) | JOther

  /** `v, _ := n[key].(string)`: the empty string when missing or not a string. */
  function StringField(n: map<string, Json>, key: string): string
  {
    if key in n && n[key].JString? then n[key].s else ""
  }

  /**
   * The order status a notification asks for. A capture whose fraud status
   * is not "accept" yields the empty status, which is written as it is.
   */
  function CallbackStatus(transactionStatus: string, fraudStatus: string): string
  {
    match transactionStatus
    case "capture" => if fraudStatus == "accept" then "paid" else ""
    case "settlement" => "paid"
    case "pending" => "pending"
    case "deny" => "failed"
    case "cancel" => "failed"
    case "expire" => "failed"
    case _ => "pending"
  }

  /** Each resulting status, and exactly which notifications lead to it. */
  lemma CallbackStatusCases(transactionStatus: string, fraudStatus: string)
    ensures var st := CallbackStatus(transactionStatus, fraudStatus);
      (st == "paid" <==> transactionStatus == "settlement"
                         || (transactionStatus == "capture" && fraudStatus == "accept"))
      && (st == "failed" <==> transactionStatus in {"deny", "cancel", "expire"})
      && (st == "" <==> transactionStatus == "capture" && fraudStatus != "accept")
      && (st == "pending" <==> transactionStatus !in {"capture", "settlement", "deny", "cancel", "expire"})
  {
  }

  /**
   * The callback: the order named by the notification takes the mapped
   * status; a body that is not JSON is 400 and an unknown order is 500.
   */
  method HandleMidtransCallback(st: InMemoryStore, body: Option<map<string, Json>>) returns (code: int, msg: string)
    requires st.Valid()
    modifies st
    ensures st.Valid()
    ensures body.None? ==> code == 400 && msg == "Invalid notification" && st.State() == old(st.State())
    ensures body.Some? ==>
      var orderId := StringField(body.value, "order_id");
      var status := CallbackStatus(StringField(body.value, "transaction_status"),
                                   StringField(body.value, "fraud_status"));
      if orderId in old(st.orders) then
        code == 200 && msg == "OK"
        && st.State() == old(st.State()).(orders := old(st.orders)[orderId := old(st.orders)[orderId].(status := status)])
      else
        code == 500 && msg == "Failed to update order" && st.State() == old(st.State())
  {
    if body.None? {
      return 400, "Invalid notification";
    }
    var n := body.value;
    var orderId := StringField(n, "order_id");
    var status := CallbackStatus(StringField(n, "transaction_status"), StringField(n, "fraud_status"));
    var r := st.UpdateOrderStatus(orderId, status);
    if r.Fail? {
      return 500, "Failed to update order";
    }
    return 200, "OK";
  }
}
