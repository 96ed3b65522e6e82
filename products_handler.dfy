/**
 * The product handlers (products.go) over the in-memory engine: validation
 * of a new product, price parsing, SKU generation, the update patch, and the
 * admin listing with its best-seller ranking.
 */
module ProductsHandler {
  import opened Models
  import opened Collections
  import opened Sorting
  import opened MemoryStore
  import Text
  import Strconv

  // ----- prices -----

  /** The text of a strconv.ParseInt error for `v`. */
  function NumError(v: string, reason: string): string
  {
    "strconv.ParseInt: parsing \"" + v + "\": " + reason
  }

  /** parsePriceNumber: "empty" for an empty value, else a base-10 int64 parse. */
  function ParsePrice(v: string): (r: Result<int>)
    ensures r.Ok? ==> Strconv.MinInt64 <= r.value <= Strconv.MaxInt64
  {
    if v == [] then Err("empty")
    else match Strconv.ParseInt(v)
      case Parsed(n) => Ok(n)
      case SyntaxError => Err(NumError(v, "invalid syntax"))
      case RangeError(_) => Err(NumError(v, "value out of range"))
  }

  /** Every 64-bit amount written in decimal parses back to itself; "" and "12.5" do not parse. */
  lemma ParsePriceRoundTrip(n: int)
    requires Strconv.MinInt64 <= n <= Strconv.MaxInt64
    ensures ParsePrice(Strconv.Decimal(n)) == Ok(n)
    ensures ParsePrice("") == Err("empty")
    ensures ParsePrice("12.5").Err?
  {
    Strconv.ParseDecimal(n);
    assert Strconv.Decimal(n) != [];
    assert "12.5"[1..] == "2.5";
    assert "2.5"[1..] == ".5";
  }

  // ----- creating a product -----

  /** The fields of a create request, each as sent (a missing one is empty). */
  datatype CreateReq = CreateReq(
    name: string,
    description: string,
    category: string,
    price: string,
    priceCents: string,
    sku: string,
    stock: int,
    thumbnail: string)

  const ErrNameStock := "name dan stock harus valid"
  const ErrPriceCents := "price_cents invalid"
  const ErrPriceField := "price invalid"
  const ErrPricePositive := "price atau price_cents harus lebih dari 0"

  /** The price in cents: price_cents if sent, else price if sent, else 0. */
  function RequestedPrice(req: CreateReq): Result<int>
  {
    if req.priceCents != "" then
      (if ParsePrice(req.priceCents).Ok? then ParsePrice(req.priceCents) else Err(ErrPriceCents))
    else if req.price != "" then
      (if ParsePrice(req.price).Ok? then ParsePrice(req.price) else Err(ErrPriceField))
    else Ok(0)
  }

  /** price_cents, when sent, decides the price whatever price says. */
  lemma PriceCentsTakesPrecedence(req: CreateReq, otherPrice: string)
    requires req.priceCents != ""
    ensures RequestedPrice(req) == RequestedPrice(req.(price := otherPrice))
    ensures RequestedPrice(req).Ok? <==> ParsePrice(req.priceCents).Ok?
  {
  }

  // ----- SKU generation -----

  /** The first byte of the UTF-8 encoding of `c`, which is a valid leading byte. */
  function Utf8LeadByte(c: char): (b: int)
    ensures c as int < 0x80 ==> b == c as int
    ensures c as int >= 0x80 ==> 0xC2 <= b <= 0xF4
  {
    var n := c as int;
    if n < 0x80 then n
    else if n < 0x800 then 0xC0 + n / 0x40
    else if n < 0x10000 then 0xE0 + n / 0x1000
    else 0xF0 + n / 0x40000
  }

  /**
   * unicode.ToUpper of the rune `b` below 0x100: a-z and à-þ (but not ÷)
   * move down by 0x20, µ becomes Greek capital mu and ÿ becomes Ÿ; every
   * other rune stays.
   */
  function Latin1Upper(b: int): char
    requires 0 <= b < 0x100
  {
    if 'a' as int <= b <= 'z' as int || (0xE0 <= b <= 0xFE && b != 0xF7) then (b - 0x20) as char
    else if b == 0xB5 then '\U{039C}'
    else if b == 0xFF then '\U{0178}'
    else b as char
  }

  /**
   * The initial of a word that begins with `c`: `strings.ToUpper(string(word[0]))`
   * takes the word's first byte, reads it as a rune and upper-cases that.
   */
  function Initial(c: char): char
  {
    Latin1Upper(Utf8LeadByte(c))
  }

  /**
   * An ASCII first letter gives the usual capital; any other first character
   * gives, from its first UTF-8 byte, a Latin-1 character between À and ß,
   * so "Éclair" begins its initials with Ã and "日本" with Æ.
   */
  lemma InitialOfFirstByte(c: char)
    ensures c as int < 0x80 ==> Initial(c) == Text.UpperChar(c)
    ensures c as int >= 0x80 ==> 0xC0 <= Initial(c) as int <= 0xDF
    ensures Initial('\U{00C9}') == '\U{00C3}' && Initial('\U{65E5}') == '\U{00C6}'
  {
  }

  /** The initial of each word. */
  function Initials(words: seq<string>): (s: string)
    requires forall i :: 0 <= i < |words| ==> words[i] != []
    ensures |s| == |words|
  {
    seq(|words|, i requires 0 <= i < |words| => Initial(words[i][0]))
  }

  /** generateSKU's result for `name` at the clock reading `nanos`. */
  function SkuFor(name: string, nanos: int): string
  {
    var words := Text.Fields(name);
    (if words == [] then "PROD" else Initials(words)) + "-" + Strconv.Decimal(Strconv.GoRem(nanos, 1000000))
  }

  /** generateSKU: collects the initials in a loop, then appends the clock's last six digits. */
  method GenerateSku(name: string, nanos: int) returns (sku: string)
    ensures sku == SkuFor(name, nanos)
  {
    var words := Text.Fields(name);
    var initials := "";
    var i := 0;
    while i < |words|
      invariant 0 <= i <= |words|
      invariant initials == Initials(words[..i])
    {
      if |words[i]| > 0 {
        initials := initials + [Initial(words[i][0])];
      }
      i := i + 1;
    }
    assert words[..i] == words;
    if initials == "" {
      initials := "PROD";
    }
    sku := initials + "-" + Strconv.Decimal(Strconv.GoRem(nanos, 1000000));
  }

  /**
   * A generated SKU is one initial per word of the name (or "PROD" for a
   * name that is all white space), a dash, and a decimal number that reads
   * back as the clock modulo 1000000, which lies in [0, 1000000) for a clock
   * past 1970.
   */
  lemma SkuShape(name: string, nanos: int)
    ensures var sku := SkuFor(name, nanos);
      var words := Text.Fields(name);
      var n := if words == [] then 4 else |words|;
      n < |sku| && sku[n] == '-'
      && (words == [] <==> Text.AllSpace(name))
      && (words == [] ==> sku[..n] == "PROD")
      && (forall i :: 0 <= i < |words| ==> sku[i] == Initial(words[i][0]))
      && Strconv.ParseInt(sku[n + 1..]) == Strconv.Parsed(Strconv.GoRem(nanos, 1000000))
      && (nanos >= 0 ==> 0 <= Strconv.GoRem(nanos, 1000000) < 1000000)
  {
    var words := Text.Fields(name);
    var prefix := if words == [] then "PROD" else Initials(words);
    var digits := Strconv.Decimal(Strconv.GoRem(nanos, 1000000));
    assert SkuFor(name, nanos) == prefix + "-" + digits;
    assert (prefix + "-" + digits)[|prefix| + 1..] == digits;
    Strconv.ParseDecimal(Strconv.GoRem(nanos, 1000000));
  }

  /**
   * "Éclair Cokelat" gets the initials "ÃC": its words are "Éclair" and
   * "Cokelat", É is the bytes C3 89, and C3 read as a rune is Ã.
   */
  lemma AccentedNameSku()
    ensures Text.Fields("\U{00C9}clair Cokelat") == ["\U{00C9}clair", "Cokelat"]
    ensures Initials(Text.Fields("\U{00C9}clair Cokelat")) == "\U{00C3}C"
  {
    var words := ["\U{00C9}clair", "Cokelat"];
    assert Text.IsWord(words[0]) && Text.IsWord(words[1]);
    assert Text.JoinSpace(words) == "\U{00C9}clair Cokelat";
    Text.FieldsJoin(words);
    assert Initials(words) == [Initial('\U{00C9}'), Initial('C')];
    InitialOfFirstByte('C');
  }

  /**
   * The product Create would store, or its 400 message: name and stock are
   * checked first, then the price is parsed and must be positive; an empty
   * SKU is generated.
   */
  function NewProduct(req: CreateReq, nanos: int, now: Time): Result<Product>
  {
    if req.name == "" || req.stock < 0 then Err(ErrNameStock)
    else match RequestedPrice(req)
      case Err(m) => Err(m)
      case Ok(price) =>
        if price <= 0 then Err(ErrPricePositive)
        else
          var sku := if req.sku == "" then SkuFor(req.name, nanos) else req.sku;
          Ok(Product("", req.name, req.description, req.category, price, sku, req.stock, req.thumbnail, now, now))
  }

  /**
   * A request is accepted exactly when it names the product, its stock is
   * not negative and its price parses to a positive amount; the stored
   * product then always has a SKU and a 64-bit positive price.
   */
  lemma NewProductValid(req: CreateReq, nanos: int, now: Time)
    ensures NewProduct(req, nanos, now).Ok? <==>
      req.name != "" && req.stock >= 0 && RequestedPrice(req).Ok? && RequestedPrice(req).value > 0
    ensures NewProduct(req, nanos, now).Ok? ==>
      var p := NewProduct(req, nanos, now).value;
      p.name == req.name && p.stock == req.stock && p.sku != ""
      && 0 < p.priceCents <= Strconv.MaxInt64
      && (req.priceCents != "" ==> ParsePrice(req.priceCents) == Ok(p.priceCents))
      && (req.priceCents == "" ==> ParsePrice(req.price) == Ok(p.priceCents))
  {
    if NewProduct(req, nanos, now).Ok? && req.sku == "" {
      assert |SkuFor(req.name, nanos)| > 0;
    }
  }

  /** A request without any price is refused, as is one that fails name or stock first. */
  lemma NewProductRefusals(req: CreateReq, nanos: int, now: Time)
    ensures req.name == "" || req.stock < 0 ==> NewProduct(req, nanos, now) == Err(ErrNameStock)
    ensures req.name != "" && req.stock >= 0 && req.priceCents == "" && req.price == "" ==>
      NewProduct(req, nanos, now) == Err(ErrPricePositive)
  {
  }

  datatype ProductReply = Failed(code: int, error: string) | Done(code: int, product: Product)

  /** Create: `body` is the bound request or the binding error. */
  method HandleCreate(st: InMemoryStore, body: Result<CreateReq>, id: string, nanos: int, now: Time)
    returns (reply: ProductReply)
    requires st.Valid()
    modifies st
    ensures st.Valid()
    ensures body.Err? ==> reply == Failed(400, "invalid JSON: " + body.msg) && st.State() == old(st.State())
    ensures body.Ok? && NewProduct(body.value, nanos, now).Err? ==>
      reply == Failed(400, NewProduct(body.value, nanos, now).msg) && st.State() == old(st.State())
    ensures body.Ok? && NewProduct(body.value, nanos, now).Ok? ==>
      var p := NewProduct(body.value, nanos, now).value.(id := id);
      reply == Done(200, p) && st.State() == old(st.State()).(products := old(st.products)[id := p])
  {
    if body.Err? {
      return Failed(400, "invalid JSON: " + body.msg);
    }
    var req := body.value;
    if req.name == "" || req.stock < 0 {
      return Failed(400, ErrNameStock);
    }
    var price := 0;
    if req.priceCents != "" {
      var parsed := ParsePrice(req.priceCents);
      if parsed.Err? {
        return Failed(400, ErrPriceCents);
      }
      price := parsed.value;
    } else if req.price != "" {
      var parsed := ParsePrice(req.price);
      if parsed.Err? {
        return Failed(400, ErrPriceField);
      }
      price := parsed.value;
    }
    if price <= 0 {
      return Failed(400, ErrPricePositive);
    }
    var sku := req.sku;
    if sku == "" {
      sku := GenerateSku(req.name, nanos);
    }
    var p := Product("", req.name, req.description, req.category, price, sku, req.stock, req.thumbnail, now, now);
    var res := st.CreateProduct(p, id, now);
    return Done(200, res.value);
  }

  // ----- updating a product -----

  /** An update request: only the fields present are applied. */
  datatype UpdateReq = UpdateReq(
    name: Option<string>,
    description: Option<string>,
    category: Option<string>,
    priceCents: Option<string>,
    sku: Option<string>,
    stock: Option<int>,
    thumbnail: Option<string>)

  function Or<T>(o: Option<T>, otherwise: T): T
  {
    if o.Some? then o.value else otherwise
  }

  /**
   * The update closure run on the stored record: name, description and
   * category are assigned first; a price_cents that does not parse stops it
   * there with the parse error; otherwise the remaining present fields are
   * assigned and the record is stamped.
   */
  function ApplyPatch(req: UpdateReq, now: Time, p: Product): Patched
  {
    var named := p.(name := Or(req.name, p.name), description := Or(req.description, p.description),
                    category := Or(req.category, p.category));
    if req.priceCents.Some? && ParsePrice(req.priceCents.value).Err? then
      Patched(named, Some(ParsePrice(req.priceCents.value).msg))
    else
      var priced := if req.priceCents.Some? then named.(priceCents := ParsePrice(req.priceCents.value).value) else named;
      Patched(priced.(sku := Or(req.sku, p.sku), stock := Or(req.stock, p.stock),
                      thumbnail := Or(req.thumbnail, p.thumbnail), updatedAt := now), None)
  }

  /**
   * The patch fails exactly on a price_cents that does not parse, so neither
   * a negative stock nor a non-positive price is refused; a successful patch
   * sets each present field and keeps each absent one.
   */
  lemma PatchSetsPresentFields(req: UpdateReq, now: Time, p: Product)
    ensures ApplyPatch(req, now, p).err.Some? <==> req.priceCents.Some? && ParsePrice(req.priceCents.value).Err?
    ensures var q := ApplyPatch(req, now, p).product;
      ApplyPatch(req, now, p).err.None? ==>
        q.id == p.id && q.createdAt == p.createdAt && q.updatedAt == now
        && (req.name.None? ==> q.name == p.name) && (req.name.Some? ==> q.name == req.name.value)
        && (req.description.None? ==> q.description == p.description)
        && (req.description.Some? ==> q.description == req.description.value)
        && (req.category.None? ==> q.category == p.category)
        && (req.category.Some? ==> q.category == req.category.value)
        && (req.priceCents.None? ==> q.priceCents == p.priceCents)
        && (req.priceCents.Some? ==> Ok(q.priceCents) == ParsePrice(req.priceCents.value))
        && (req.sku.None? ==> q.sku == p.sku) && (req.sku.Some? ==> q.sku == req.sku.value)
        && (req.stock.None? ==> q.stock == p.stock) && (req.stock.Some? ==> q.stock == req.stock.value)
        && (req.thumbnail.None? ==> q.thumbnail == p.thumbnail)
        && (req.thumbnail.Some? ==> q.thumbnail == req.thumbnail.value)
  {
  }

  /**
   * A failing patch has already assigned name, description and category, and
   * nothing else: the in-memory engine keeps those edits.
   */
  lemma FailedPatchKeepsEarlyEdits(req: UpdateReq, now: Time, p: Product)
    requires ApplyPatch(req, now, p).err.Some?
    ensures ApplyPatch(req, now, p).product ==
      p.(name := Or(req.name, p.name), description := Or(req.description, p.description),
         category := Or(req.category, p.category))
    ensures req.priceCents.Some? && ApplyPatch(req, now, p).err == Some(ParsePrice(req.priceCents.value).msg)
  {
  }

  /** A patch that makes the stock negative goes through. */
  lemma PatchAllowsNegativeStock(p: Product, now: Time)
    ensures var req := UpdateReq(None, None, None, None, None, Some(-5), None);
      ApplyPatch(req, now, p).err.None? && ApplyPatch(req, now, p).product.stock == -5
  {
  }

  /** Update: a bad body, an unknown id and a failing patch all answer 400. */
  method HandleUpdate(st: InMemoryStore, id: string, body: Result<UpdateReq>, now: Time) returns (reply: ProductReply)
    requires st.Valid()
    modifies st
    ensures st.Valid()
    ensures body.Err? ==> reply == Failed(400, "invalid payload: " + body.msg) && st.State() == old(st.State())
    ensures body.Ok? && id !in old(st.products) ==>
      reply == Failed(400, ErrProductNotFound) && st.State() == old(st.State())
    ensures body.Ok? && id in old(st.products) ==>
      var res := ApplyPatch(body.value, now, old(st.products)[id]);
      st.State() == old(st.State()).(products := old(st.products)[id := res.product])
      && (res.err.Some? ==> reply == Failed(400, res.err.value))
      && (res.err.None? ==> reply == Done(200, res.product))
  {
    if body.Err? {
      return Failed(400, "invalid payload: " + body.msg);
    }
    var req := body.value;
    var r := st.UpdateProduct(id, (p: Product) => ApplyPatch(req, now, p), now);
    if r.Err? {
      return Failed(400, r.msg);
    }
    return Done(200, r.value);
  }

  /** Delete: 404 with the store's error, else 204. */
  method HandleDelete(st: InMemoryStore, id: string) returns (code: int, error: string)
    requires st.Valid()
    modifies st
    ensures st.Valid()
    ensures id !in old(st.products) ==> code == 404 && error == ErrProductNotFound && st.State() == old(st.State())
    ensures id in old(st.products) ==>
      code == 204 && st.State() == old(st.State()).(products := old(st.products) - {id})
  {
    var r := st.DeleteProduct(id);
    if r.Fail? {
      return 404, r.msg;
    }
    return 204, "";
  }

  /** Get: 404 with the store's error, else the product. */
  method HandleGet(st: InMemoryStore, id: string) returns (reply: ProductReply)
    ensures id !in st.products ==> reply == Failed(404, ErrProductNotFound)
    ensures id in st.products ==> reply == Done(200, st.products[id])
  {
    var r := st.GetProduct(id);
    if r.Err? {
      return Failed(404, r.msg);
    }
    return Done(200, r.value);
  }

  // ----- the admin listing -----

  /** An order's sales count when its status, folded to lower case, is paid, done or completed. */
  predicate Counted(status: string)
  {
    var s := Text.Lower(status);
    s == "paid" || s == "done" || s == "completed"
  }

  /** The quantities of all lines naming `pid`. */
  function Units(items: seq<CartItem>, pid: string): int
  {
    if items == [] then 0
    else Units(items[..|items| - 1], pid) + (if items[|items| - 1].productId == pid then items[|items| - 1].quantity else 0)
  }

  /** The units of `pid` sold by the counted orders of `orders`. */
  function Sold(orders: seq<Order>, pid: string): int
  {
    if orders == [] then 0
    else
      var o := orders[|orders| - 1];
      Sold(orders[..|orders| - 1], pid) + (if Counted(o.status) then Units(o.items, pid) else 0)
  }

  function SalesOf(sales: map<string, int>, pid: string): int
  {
    if pid in sales then sales[pid] else 0
  }

  /** The tally loop: for each counted order, each line adds its quantity to its product. */
  method Tally(orders: seq<Order>) returns (sales: map<string, int>)
    ensures forall pid :: SalesOf(sales, pid) == Sold(orders, pid)
  {
    sales := map[];
    var i := 0;
    while i < |orders|
      invariant 0 <= i <= |orders|
      invariant forall pid :: SalesOf(sales, pid) == Sold(orders[..i], pid)
    {
      var o := orders[i];
      assert orders[..i + 1][..i] == orders[..i];
      if Counted(o.status) {
        var j := 0;
        while j < |o.items|
          invariant 0 <= j <= |o.items|
          invariant forall pid :: SalesOf(sales, pid) == Sold(orders[..i], pid) + Units(o.items[..j], pid)
        {
          assert o.items[..j + 1][..j] == o.items[..j];
          var it := o.items[j];
          sales := sales[it.productId := SalesOf(sales, it.productId) + it.quantity];
          j := j + 1;
        }
        assert o.items[..j] == o.items;
      }
      i := i + 1;
    }
    assert orders[..i] == orders;
  }

  /** Status matching ignores case: "PAID" and "Completed" count, "pending" and "failed" do not. */
  lemma CountedStatuses()
    ensures Counted("PAID") && Counted("Completed") && Counted("done")
    ensures !Counted("pending") && !Counted("failed") && !Counted("")
  {
    assert Text.Lower("PAID") == "paid";
    assert Text.Lower("Completed") == "completed";
    assert Text.Lower("done") == "done";
    assert Text.Lower("pending")[0] == 'p' && |Text.Lower("pending")| == 7;
    assert Text.Lower("failed")[0] == 'f';
  }

  lemma {:induction false} UnitsAppend(a: seq<CartItem>, b: seq<CartItem>, pid: string)
    ensures Units(a + b, pid) == Units(a, pid) + Units(b, pid)
    decreases |b|
  {
    if b == [] {
      assert a + b == a;
    } else {
      assert (a + b)[..|a + b| - 1] == a + b[..|b| - 1];
      UnitsAppend(a, b[..|b| - 1], pid);
    }
  }

  /** Sales over two runs of orders add up. */
  lemma {:induction false} SoldAppend(a: seq<Order>, b: seq<Order>, pid: string)
    ensures Sold(a + b, pid) == Sold(a, pid) + Sold(b, pid)
    decreases |b|
  {
    if b == [] {
      assert a + b == a;
    } else {
      assert (a + b)[..|a + b| - 1] == a + b[..|b| - 1];
      SoldAppend(a, b[..|b| - 1], pid);
    }
  }

  /**
   * The order in which the store lists its orders does not matter: any
   * rearrangement of the same orders sells the same units.
   */
  lemma {:induction false} SoldPermutation(a: seq<Order>, b: seq<Order>, pid: string)
    requires multiset(a) == multiset(b)
    ensures Sold(a, pid) == Sold(b, pid)
    decreases |a|
  {
    if a == [] {
      assert |b| == |multiset(b)| == 0;
    } else {
      var x := a[|a| - 1];
      var a' := a[..|a| - 1];
      assert a == a' + [x];
      assert multiset(a') == multiset(a) - multiset{x};
      assert x in multiset(b);
      var k :| 0 <= k < |b| && b[k] == x;
      Unpick(b, k);
      SoldPermutation(a', b[..k] + b[k + 1..], pid);
      SoldPick(b, k, pid);
      SoldAppend(a', [x], pid);
    }
  }

  /** Taking out the element at `k`. */
  lemma Unpick<T>(b: seq<T>, k: nat)
    requires k < |b|
    ensures multiset(b[..k] + b[k + 1..]) == multiset(b) - multiset{b[k]}
  {
    assert b == b[..k] + [b[k]] + b[k + 1..];
    assert multiset(b) == multiset(b[..k]) + multiset{b[k]} + multiset(b[k + 1..]);
  }

  /** The sales of one order can be counted apart from the rest. */
  lemma SoldPick(b: seq<Order>, k: nat, pid: string)
    requires k < |b|
    ensures Sold(b, pid) == Sold(b[..k] + b[k + 1..], pid) + Sold([b[k]], pid)
  {
    assert b == (b[..k] + [b[k]]) + b[k + 1..];
    SoldAppend(b[..k] + [b[k]], b[k + 1..], pid);
    SoldAppend(b[..k], [b[k]], pid);
    SoldAppend(b[..k], b[k + 1..], pid);
  }

  /** Orders that do not count add nothing, whatever their lines. */
  lemma {:induction false} UncountedSellNothing(orders: seq<Order>, pid: string)
    requires forall i :: 0 <= i < |orders| ==> !Counted(orders[i].status)
    ensures Sold(orders, pid) == 0
  {
    if orders != [] {
      UncountedSellNothing(orders[..|orders| - 1], pid);
    }
  }

  /** The sort key of each listed product: units sold then creation time, or creation time alone. */
  function Ranks(ps: seq<Product>, bestseller: bool, sales: map<string, int>): (ranks: seq<(int, int)>)
    ensures |ranks| == |ps|
  {
    seq(|ps|, i requires 0 <= i < |ps| =>
      if bestseller then (SalesOf(sales, ps[i].id), ps[i].createdAt) else (ps[i].createdAt, 0))
  }

  /**
   * AdminList: the search results, sorted stably by units sold (newest
   * first among equals) when the trimmed, lower-cased sort parameter is
   * "bestseller", and newest first otherwise.
   */
  method AdminList(st: InMemoryStore, q: string, sortParam: string)
    returns (r: seq<Product>, ps: seq<Product>, ghost ks: seq<string>, sales: map<string, int>,
             ghost os: seq<Order>, ghost oks: seq<string>, perm: seq<int>)
    ensures Listing(st.products, (p: Product) => MatchesQuery(p, q), ps, ks)
    ensures var bestseller := Text.Lower(Text.TrimSpace(sortParam)) == "bestseller";
      (bestseller ==> Listing(st.orders, (o: Order) => true, os, oks)
                      && forall pid :: SalesOf(sales, pid) == Sold(os, pid))
      && StableOrder(Ranks(ps, bestseller, sales), perm)
    ensures |r| == |ps| && forall i :: 0 <= i < |r| ==> 0 <= perm[i] < |ps| && r[i] == ps[perm[i]]
  {
    var mode := Text.Lower(Text.TrimSpace(sortParam));
    ps, ks := st.ListProducts(q);
    sales, os, oks := map[], [], [];
    if mode == "bestseller" {
      var listed;
      listed, oks := st.ListOrders();
      os := listed;
      sales := Tally(listed);
    }
    var ranks := Ranks(ps, mode == "bestseller", sales);
    perm := StableSortDesc(ranks);
    assert |perm| == |ps| && forall i :: 0 <= i < |perm| ==> 0 <= perm[i] < |ps|;
    r := seq(|perm|, i requires 0 <= i < |perm| => ps[perm[i]]);
  }

  /**
   * The admin listing holds each search result exactly once, and for any
   * two positions the earlier product ranks at least as high, ties keeping
   * the search's order.
   */
  lemma AdminListIsStableSort(ps: seq<Product>, bestseller: bool, sales: map<string, int>, perm: seq<int>,
                              r: seq<Product>)
    requires StableOrder(Ranks(ps, bestseller, sales), perm)
    requires |r| == |ps| && forall i :: 0 <= i < |r| ==> 0 <= perm[i] < |ps| && r[i] == ps[perm[i]]
    ensures forall x :: 0 <= x < |ps| ==> x in perm
    ensures forall i, j :: 0 <= i < j < |r| ==> perm[i] != perm[j]
    ensures var ranks := Ranks(ps, bestseller, sales);
      forall i, j :: 0 <= i < j < |r| ==>
        RankAbove(ranks[perm[i]], ranks[perm[j]]) || (ranks[perm[i]] == ranks[perm[j]] && perm[i] < perm[j])
  {
    var ranks := Ranks(ps, bestseller, sales);
    StableOrderDistinct(ranks, perm);
    assert |perm| == |ranks| == |ps|;
  }
}
