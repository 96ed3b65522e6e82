/**
 * The administrator's order handlers (admin_orders.go) over the in-memory
 * engine: listing every order, and setting an order's status from a
 * whitelist.
 */
module AdminOrders {
  import opened Models
  import opened Collections
  import opened MemoryStore
  import Text

  const ErrIdRequired := "order id required"
  const ErrStatusRequired := "status required"
  const ErrInvalidStatus := "invalid status"

  /** The statuses an order may be given. */
  predicate StoredStatus(s: string)
  {
    s == "pending" || s == "paid" || s == "failed" || s == "done"
  }

  /**
   * The requested status, trimmed and lower-cased: empty is "status
   * required", "completed" becomes "done", and anything outside the
   * whitelist is "invalid status".
   */
  function NormaliseStatus(raw: string): Result<string>
  {
    var s := Text.Lower(Text.TrimSpace(raw));
    if s == "" then Err(ErrStatusRequired)
    else if s == "completed" then Ok("done")
    else if StoredStatus(s) then Ok(s)
    else Err(ErrInvalidStatus)
  }

  /**
   * A status is accepted exactly when its trimmed, lower-cased form is one of
   * pending, paid, failed, done or completed, and what is accepted is always
   * a status an order may have.
   */
  lemma NormaliseAccepts(raw: string)
    ensures var s := Text.Lower(Text.TrimSpace(raw));
      NormaliseStatus(raw).Ok? <==> StoredStatus(s) || s == "completed"
    ensures NormaliseStatus(raw).Ok? ==> StoredStatus(NormaliseStatus(raw).value)
    ensures NormaliseStatus(raw).Err? ==>
      NormaliseStatus(raw).msg == (if Text.AllSpace(raw) then ErrStatusRequired else ErrInvalidStatus)
  {
    Text.TrimSpaceEmpty(raw);
  }

  /** A stored status is its own trimmed, lower-cased form. */
  lemma Canonical(s: string)
    requires StoredStatus(s)
    ensures Text.Lower(Text.TrimSpace(s)) == s
  {
    Text.TrimLeftNoOp(s);
    Text.TrimRightNoOp(s);
  }

  /** Normalising an accepted status again gives it back unchanged. */
  lemma NormaliseIdempotent(raw: string)
    requires NormaliseStatus(raw).Ok?
    ensures NormaliseStatus(NormaliseStatus(raw).value) == NormaliseStatus(raw)
  {
    NormaliseAccepts(raw);
    Canonical(NormaliseStatus(raw).value);
  }

  /** Case and surrounding blanks do not matter. */
  lemma NormaliseTrimsAndFolds()
    ensures NormaliseStatus(" Completed ") == Ok("done")
  {
    assert Text.TrimSpace(" Completed ") == "Completed" by {
      assert " Completed "[1..] == "Completed ";
      assert "Completed "[..|"Completed "| - 1] == "Completed";
      Text.TrimLeftNoOp("Completed ");
      Text.TrimRightNoOp("Completed");
    }
  }

  /** A blank status is missing; a misspelt one is refused. */
  lemma NormaliseRefuses()
    ensures NormaliseStatus("   ") == Err(ErrStatusRequired)
    ensures NormaliseStatus("shipped") == Err(ErrInvalidStatus)
  {
    Text.TrimSpaceEmpty("   ");
    assert Text.TrimSpace("shipped") == "shipped" by {
      Text.TrimLeftNoOp("shipped");
      Text.TrimRightNoOp("shipped");
    }
    assert Text.Lower("shipped")[0] == 's';
  }

  /**
   * UpdateStatus: `id` is the path parameter and `body` the bound status or
   * the binding error. Only an accepted status reaches the store.
   */
  method UpdateStatus(st: InMemoryStore, id: string, body: Result<string>) returns (code: int, error: string)
    requires st.Valid()
    modifies st
    ensures st.Valid()
    ensures id == "" ==> code == 400 && error == ErrIdRequired && st.State() == old(st.State())
    ensures id != "" && body.Err? ==> code == 400 && error == ErrStatusRequired && st.State() == old(st.State())
    ensures id != "" && body.Ok? && NormaliseStatus(body.value).Err? ==>
      code == 400 && error == NormaliseStatus(body.value).msg && st.State() == old(st.State())
    ensures id != "" && body.Ok? && NormaliseStatus(body.value).Ok? ==>
      if id in old(st.orders) then
        code == 204
        && st.State() == old(st.State()).(orders := old(st.orders)[id := old(st.orders)[id].(status := NormaliseStatus(body.value).value)])
      else
        code == 400 && error == ErrOrderNotFound && st.State() == old(st.State())
  {
    if id == "" {
      return 400, ErrIdRequired;
    }
    if body.Err? {
      return 400, ErrStatusRequired;
    }
    var status := Text.ToLower(Text.TrimSpace(body.value));
    if status == "" {
      return 400, ErrStatusRequired;
    }
    if status == "pending" || status == "paid" || status == "failed" || status == "done" || status == "completed" {
      if status == "completed" {
        status := "done";
      }
    } else {
      return 400, ErrInvalidStatus;
    }
    var r := st.UpdateOrderStatus(id, status);
    if r.Fail? {
      return 400, r.msg;
    }
    return 204, "";
  }

  /** One row of the order list. */
  datatype AdminOrderResp = AdminOrderResp(
    orderId: string,
    userId: string,
    status: string,
    amount: int,
    paymentRef: string,
    items: seq<CartItem>,
    createdAt: Time)

  function Row(o: Order): AdminOrderResp
  {
    AdminOrderResp(o.id, o.userId, o.status, o.amount, o.paymentRef, o.items, o.createdAt)
  }

  /** List: one row per stored order, copying its fields, in the store's listing order. */
  method List(st: InMemoryStore) returns (resp: seq<AdminOrderResp>, os: seq<Order>, ghost ks: seq<string>)
    ensures Listing(st.orders, (o: Order) => true, os, ks)
    ensures |resp| == |os| == |st.orders|
    ensures forall i :: 0 <= i < |resp| ==> resp[i] == Row(os[i])
  {
    os, ks := st.ListOrders();
    resp := [];
    var i := 0;
    while i < |os|
      invariant 0 <= i <= |os| && |resp| == i
      invariant forall j :: 0 <= j < i ==> resp[j] == Row(os[j])
    {
      resp := resp + [Row(os[i])];
      i := i + 1;
    }
  }

  /** Every stored order has exactly one row, which copies it. */
  lemma ListCoversOrders(orders: map<string, Order>, resp: seq<AdminOrderResp>, os: seq<Order>, ks: seq<string>)
    requires Listing(orders, (o: Order) => true, os, ks)
    requires |resp| == |os| && forall i :: 0 <= i < |resp| ==> resp[i] == Row(os[i])
    ensures forall k :: k in orders ==> exists i :: 0 <= i < |resp| && ks[i] == k && resp[i] == Row(orders[k])
    ensures forall i, j :: 0 <= i < j < |resp| ==> ks[i] != ks[j]
  {
    forall k | k in orders
      ensures exists i :: 0 <= i < |resp| && ks[i] == k && resp[i] == Row(orders[k])
    {
      assert k in ks;
      var i :| 0 <= i < |ks| && ks[i] == k;
      assert resp[i] == Row(orders[k]);
    }
  }
}
