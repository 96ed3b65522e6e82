/**
 * The relational store engine (mysql.go). Each table is a map keyed by its
 * primary key; each `Exec` is one assignment to the database value, with
 * `RowsAffected` the number of rows the statement changed (the driver's
 * default, which does not count rows matched but left unchanged); a
 * transaction takes a snapshot at `Begin` and restores it on rollback.
 * Identifiers and timestamps come in as parameters.
 */
module MySql {
  import opened Models
  import opened Collections
  import opened Sorting
  import Text
  import MemoryStore

  // Server errors the engine reports (their texts shortened to the error code and headline).
  const ErrNoRows := "sql: no rows in result set"
  const ErrDuplicateEntry := "Error 1062: Duplicate entry"
  const ErrChildRow := "Error 1452: Cannot add or update a child row: a foreign key constraint fails"
  const ErrParentRow := "Error 1451: Cannot delete or update a parent row: a foreign key constraint fails"

  function ErrInsufficientFor(productId: string): string
  {
    "insufficient stock for product: " + productId
  }

  // ----- timestamps -----

  /** One second of the model's nanosecond clock. */
  const Second := 1_000_000_000

  /**
   * The value a DATETIME column (no fractional seconds) keeps for a time
   * written to it: the driver sends the time to the microsecond and the
   * server rounds it to the nearest whole second, half a second rounding up.
   */
  function StoredTime(t: Time): (s: Time)
    ensures s % Second == 0
    ensures t - Second / 2 < s <= t + Second / 2
  {
    (t + Second / 2) / Second * Second
  }

  /** Two whole seconds apart by less than a second are the same second. */
  lemma WholeSecondsClose(a: Time, b: Time)
    requires a % Second == 0 && b % Second == 0 && a - Second < b < a + Second
    ensures a == b
  {
    var qa, qb := a / Second, b / Second;
    assert a == qa * Second && b == qb * Second;
    assert (qa - qb) * Second == a - b;
  }

  /**
   * Storing keeps the order of times (a later time never stores as an
   * earlier second) and a stored time stores as itself; yet every time from
   * half a second before a whole second to just under half a second after it
   * stores as that second, so ORDER BY on the column cannot tell such times
   * apart and leaves them in the server's own order.
   */
  lemma {:induction false} StoredTimeOrder(a: Time, b: Time)
    ensures a <= b ==> StoredTime(a) <= StoredTime(b)
    ensures StoredTime(StoredTime(a)) == StoredTime(a)
    ensures a % Second == 0 && a - Second / 2 <= b < a + Second / 2 ==> StoredTime(b) == a
  {
    var sa, sb := StoredTime(a), StoredTime(b);
    if a <= b && sa > sb {
      if sa - sb < Second {
        WholeSecondsClose(sa, sb);
      }
    }
    WholeSecondsClose(StoredTime(sa), sa);
    if a % Second == 0 && a - Second / 2 <= b < a + Second / 2 {
      WholeSecondsClose(sb, a);
    }
  }

  /** A row of `orders`: the order header without its lines. */
  datatype OrderRow = OrderRow(
    id: string,
    userId: string,
    amount: int,
    status: string,
    paymentRef: string,
    createdAt: Time)

  /** A row of `order_items` apart from its key: the quantity and the price snapshot. */
  datatype OrderItemRow = OrderItemRow(quantity: int, priceCents: int)

  /** The nine tables; `cart_items` and `order_items` are keyed by (owner, product). */
  datatype Db = Db(
    users: map<string, User>,
    emailVerifications: map<string, Token>,
    passwordResets: map<string, Token>,
    products: map<string, Product>,
    carts: map<string, Time>,
    cartItems: map<(string, string), int>,
    orders: map<string, OrderRow>,
    orderItems: map<(string, string), OrderItemRow>,
    reviews: map<string, Review>)

  // ----- constraints -----

  /** `users`: keyed by id, with a UNIQUE email. */
  predicate UsersOk(db: Db)
  {
    (forall id :: id in db.users ==> db.users[id].id == id)
    && (forall a, b :: a in db.users && b in db.users && db.users[a].email == db.users[b].email ==> a == b)
  }

  /** Both token tables: keyed by token, each token owned by an existing user. */
  predicate TokensOk(db: Db)
  {
    (forall t :: t in db.emailVerifications ==>
      db.emailVerifications[t].token == t && db.emailVerifications[t].userId in db.users)
    && (forall t :: t in db.passwordResets ==>
      db.passwordResets[t].token == t && db.passwordResets[t].userId in db.users)
  }

  /**
   * Products keyed by id; carts belong to users; every cart line names an
   * existing cart and product and holds a positive quantity.
   */
  predicate CatalogOk(db: Db)
  {
    (forall id :: id in db.products ==> db.products[id].id == id)
    && (forall u :: u in db.carts ==> u in db.users)
    && (forall k :: k in db.cartItems ==> k.0 in db.carts && k.1 in db.products && db.cartItems[k] > 0)
  }

  /** Orders keyed by id and owned by users; order lines name existing orders and products. */
  predicate OrdersOk(db: Db)
  {
    (forall id :: id in db.orders ==> db.orders[id].id == id && db.orders[id].userId in db.users)
    && (forall k :: k in db.orderItems ==> k.0 in db.orders && k.1 in db.products)
  }

  predicate ReviewsOk(db: Db)
  {
    forall id :: id in db.reviews ==> db.reviews[id].id == id && db.reviews[id].userId in db.users
  }

  /** The schema's keys and foreign keys, and the positive cart quantities the operations keep. */
  predicate Constraints(db: Db)
  {
    UsersOk(db) && TokensOk(db) && CatalogOk(db) && OrdersOk(db) && ReviewsOk(db)
  }

  // ----- users -----

  predicate EmailTaken(users: map<string, User>, email: string)
  {
    exists id :: id in users && users[id].email == email
  }

  /**
   * The INSERT into `users`: a clash on the id or on the UNIQUE email is a
   * duplicate-key error, which CreateUser reports as "email already registered".
   */
  function InsertUser(db: Db, u: User): (r: (Db, Outcome))
    ensures r.1 == Pass <==> u.id !in db.users && !EmailTaken(db.users, u.email)
    ensures r.1 != Pass ==> r == (db, Fail(ErrEmailTaken))
    ensures r.1 == Pass ==> r.0 == db.(users := db.users[u.id := u])
  {
    if u.id in db.users || EmailTaken(db.users, u.email) then (db, Fail(ErrEmailTaken))
    else (db.(users := db.users[u.id := u]), Pass)
  }

  /** Replacing `users` by a table that keeps every id and is itself well keyed keeps every constraint. */
  lemma UsersReplaced(db: Db, users: map<string, User>)
    requires Constraints(db) && db.users.Keys <= users.Keys && UsersOk(db.(users := users))
    ensures Constraints(db.(users := users))
  {
  }

  lemma InsertUserKeeps(db: Db, u: User)
    requires Constraints(db) && u.id !in db.users && !EmailTaken(db.users, u.email)
    ensures Constraints(db.(users := db.users[u.id := u]))
  {
    var users := db.users[u.id := u];
    forall a, b | a in users && b in users && users[a].email == users[b].email
      ensures a == b
    {
      if a != u.id && b != u.id {
        assert db.users[a].email == db.users[b].email;
      }
    }
    UsersReplaced(db, users);
  }

  /**
   * An UPDATE of one user row by id: it affects a row only when the user
   * exists and the new row differs from the old one.
   */
  function UpdateUserRow(db: Db, id: string, f: User -> User): (r: (Db, int))
    ensures r.1 == 1 <==> id in db.users && f(db.users[id]) != db.users[id]
    ensures r.1 == 0 ==> r.0 == db
    ensures r.1 == 1 ==> r.0 == db.(users := db.users[id := f(db.users[id])])
  {
    if id in db.users && f(db.users[id]) != db.users[id] then (db.(users := db.users[id := f(db.users[id])]), 1)
    else (db, 0)
  }

  /** Changing a user's password or verification flag keeps every constraint. */
  lemma UserFieldUpdateKeeps(db: Db, id: string, u: User)
    requires Constraints(db) && id in db.users && u.id == id && u.email == db.users[id].email
    ensures Constraints(db.(users := db.users[id := u]))
  {
    var users := db.users[id := u];
    forall a, b | a in users && b in users && users[a].email == users[b].email
      ensures a == b
    {
      assert db.users[a].email == db.users[b].email;
    }
    UsersReplaced(db, users);
  }

  /** `SET password_hash = ?` */
  function WithPassword(hash: string): User -> User
  {
    (u: User) => u.(password := hash)
  }

  /** `SET email_verified = TRUE` */
  function Verified(u: User): User
  {
    u.(emailVerified := true)
  }

  /** UpdateUserPassword: zero changed rows reads as "user not found". */
  function SetPasswordTx(db: Db, id: string, hash: string): (Db, Outcome)
  {
    var (after, n) := UpdateUserRow(db, id, WithPassword(hash));
    (after, if n == 0 then Fail(ErrUserNotFound) else Pass)
  }

  /** MarkEmailVerified: zero changed rows reads as "user not found". */
  function MarkVerifiedTx(db: Db, id: string): (Db, Outcome)
  {
    var (after, n) := UpdateUserRow(db, id, Verified);
    (after, if n == 0 then Fail(ErrUserNotFound) else Pass)
  }

  /**
   * Setting a password succeeds exactly for an existing user whose stored
   * hash differs from the new one; it changes only that user's hash.
   */
  lemma SetPasswordEffect(db: Db, id: string, hash: string)
    requires Constraints(db)
    ensures var (after, r) := SetPasswordTx(db, id, hash);
      Constraints(after)
      && (r == Pass <==> id in db.users && db.users[id].password != hash)
      && (r == Pass ==> after == db.(users := db.users[id := db.users[id].(password := hash)]))
      && (r != Pass ==> after == db && r == Fail(ErrUserNotFound))
  {
    if id in db.users {
      UserFieldUpdateKeeps(db, id, db.users[id].(password := hash));
    }
  }

  /**
   * Marking a user verified succeeds exactly for an existing user not yet
   * verified; an already verified user reads as "user not found".
   */
  lemma MarkVerifiedEffect(db: Db, id: string)
    requires Constraints(db)
    ensures var (after, r) := MarkVerifiedTx(db, id);
      Constraints(after)
      && (r == Pass <==> id in db.users && !db.users[id].emailVerified)
      && (r == Pass ==> after == db.(users := db.users[id := db.users[id].(emailVerified := true)]))
      && (r != Pass ==> after == db && r == Fail(ErrUserNotFound))
  {
    if id in db.users {
      UserFieldUpdateKeeps(db, id, db.users[id].(emailVerified := true));
    }
  }

  /** Marking the same user verified twice fails the second time, with nothing changed. */
  lemma MarkVerifiedTwice(db: Db, id: string)
    requires Constraints(db)
    ensures var once := MarkVerifiedTx(db, id).0;
      MarkVerifiedTx(once, id) == (once, Fail(ErrUserNotFound))
  {
    MarkVerifiedEffect(db, id);
  }

  /** The administrator account SeedAdminUser inserts. */
  function Admin(id: string, email: string, hash: string, now: Time): User
  {
    User(id, "Administrator", "", email, hash, "admin", "email", "", true, now)
  }

  /**
   * SeedAdminUser: a registered email is left alone; otherwise the
   * administrator is inserted, and a duplicate on that INSERT is ignored.
   */
  function SeedAdminTx(db: Db, email: string, hash: string, id: string, now: Time): Db
  {
    if EmailTaken(db.users, email) then db else InsertUser(db, Admin(id, email, hash, StoredTime(now))).0
  }

  /**
   * Seeding keeps every constraint; with a fresh id it leaves the email
   * registered, adding the administrator only when the email was free; and
   * seeding again, under any id, changes nothing.
   */
  lemma SeedAdminEffect(db: Db, email: string, hash: string, id: string, id2: string, now: Time, now2: Time)
    requires Constraints(db)
    ensures var after := SeedAdminTx(db, email, hash, id, now);
      Constraints(after)
      && (EmailTaken(db.users, email) ==> after == db)
      && (!EmailTaken(db.users, email) && id !in db.users ==> after == db.(users := db.users[id := Admin(id, email, hash, StoredTime(now))]))
      && (id !in db.users ==> EmailTaken(after.users, email))
      && (EmailTaken(after.users, email) ==> SeedAdminTx(after, email, hash, id2, now2) == after)
  {
    var u := Admin(id, email, hash, StoredTime(now));
    if !EmailTaken(db.users, email) && id !in db.users {
      InsertUserKeeps(db, u);
      assert db.users[id := u][id].email == email;
    }
  }

  // ----- tokens -----

  /**
   * The INSERT into a token table: a taken token is a duplicate-key error and
   * an unknown user breaks the foreign key.
   */
  function InsertToken(table: map<string, Token>, users: map<string, User>, t: Token): (r: (map<string, Token>, Outcome))
    ensures r.1 == Pass <==> t.token !in table && t.userId in users
    ensures r.1 == Pass ==> r.0 == table[t.token := t]
    ensures r.1 != Pass ==> r.0 == table
  {
    if t.token in table then (table, Fail(ErrDuplicateEntry))
    else if t.userId !in users then (table, Fail(ErrChildRow))
    else (table[t.token := t], Pass)
  }

  /** `ORDER BY expires_at DESC LIMIT 1` over the user's tokens: one with the latest expiry. */
  predicate LatestToken(table: map<string, Token>, userId: string, t: Token)
  {
    t in table.Values && t.userId == userId
    && forall k :: k in table && table[k].userId == userId ==> table[k].expiresAt <= t.expiresAt
  }

  /** Replacing the token tables by tables keyed by token whose tokens belong to users keeps every constraint. */
  lemma TokensReplaced(db: Db, ev: map<string, Token>, pr: map<string, Token>)
    requires Constraints(db)
    requires forall t :: t in ev ==> ev[t].token == t && ev[t].userId in db.users
    requires forall t :: t in pr ==> pr[t].token == t && pr[t].userId in db.users
    ensures Constraints(db.(emailVerifications := ev, passwordResets := pr))
  {
  }

  /**
   * `ORDER BY expires_at DESC LIMIT 1` over a token table: the result set is
   * walked once, keeping a token with the latest expiry seen so far.
   */
  method SelectLatest(table: map<string, Token>, userId: string) returns (r: Option<Token>)
    ensures r.None? <==> forall k :: k in table ==> table[k].userId != userId
    ensures r.Some? ==> LatestToken(table, userId, r.value)
  {
    r := None;
    var remaining := table.Keys;
    while remaining != {}
      invariant remaining <= table.Keys
      invariant r.None? <==> forall k :: k in table && k !in remaining ==> table[k].userId != userId
      invariant r.Some? ==> r.value in table.Values && r.value.userId == userId
      invariant r.Some? ==> forall k :: k in table && k !in remaining && table[k].userId == userId ==>
                              table[k].expiresAt <= r.value.expiresAt
      decreases remaining
    {
      var k :| k in remaining;
      var t := table[k];
      if t.userId == userId && (r.None? || t.expiresAt > r.value.expiresAt) {
        r := Some(t);
      }
      remaining := remaining - {k};
    }
  }

  // ----- products -----

  /**
   * CreateProduct: the record gets the new id and both timestamps and is
   * returned as it is; the row keeps the timestamps to the second. A taken
   * id is a duplicate key.
   */
  function CreateProductTx(db: Db, p: Product, id: string, now: Time): (Db, Result<Product>)
  {
    var q := p.(id := id, createdAt := now, updatedAt := now);
    if id in db.products then (db, Err(ErrDuplicateEntry))
    else (db.(products := db.products[id := q.(createdAt := StoredTime(now), updatedAt := StoredTime(now))]), Ok(q))
  }

  /**
   * A created product is returned stamped with the creation time and stored
   * under its new id with that time to the second; every constraint holds.
   */
  lemma CreateProductEffect(db: Db, p: Product, id: string, now: Time)
    requires Constraints(db)
    ensures var (after, r) := CreateProductTx(db, p, id, now);
      Constraints(after)
      && (r.Ok? <==> id !in db.products)
      && (r.Ok? ==> r.value.id == id && r.value.createdAt == now && r.value.updatedAt == now
                    && r.value == p.(id := id, createdAt := now, updatedAt := now)
                    && after == db.(products := db.products[id := r.value.(createdAt := StoredTime(now), updatedAt := StoredTime(now))]))
      && (r.Err? ==> after == db)
  {
    if id !in db.products {
      CatalogReplaced(db, db.products[id := p.(id := id, createdAt := StoredTime(now), updatedAt := StoredTime(now))], db.cartItems);
    }
  }

  /**
   * Two products created one after the other store the same creation second
   * exactly when the second creation time lies in the half-open second
   * around the first one's stored second; then `ORDER BY created_at DESC`
   * may list either first, although one was created after the other.
   */
  lemma SameSecondProducts(db: Db, p: Product, q: Product, a: string, b: string, t1: Time, t2: Time)
    requires a != b && a !in db.products && b !in db.products
    ensures var db1 := CreateProductTx(db, p, a, t1).0;
      var db2 := CreateProductTx(db1, q, b, t2).0;
      var key := (x: Product) => x.createdAt;
      var s1 := StoredTime(t1);
      a in db2.products && b in db2.products
      && (db2.products[a].createdAt == db2.products[b].createdAt <==> s1 - Second / 2 <= t2 < s1 + Second / 2)
      && (db2.products[a].createdAt == db2.products[b].createdAt ==>
            NonIncreasing([db2.products[a], db2.products[b]], key)
            && NonIncreasing([db2.products[b], db2.products[a]], key))
  {
    var db1 := CreateProductTx(db, p, a, t1).0;
    var db2 := CreateProductTx(db1, q, b, t2).0;
    assert db2.products[a].createdAt == StoredTime(t1);
    assert db2.products[b].createdAt == StoredTime(t2);
    StoredTimeOrder(StoredTime(t1), t2);
    if StoredTime(t1) == StoredTime(t2) {
      TwoEqualKeys(db2.products[a], db2.products[b], (x: Product) => x.createdAt);
    }
  }

  /** Two rows with equal keys are non-increasing in either order. */
  lemma TwoEqualKeys<T>(x: T, y: T, key: T -> int)
    requires key(x) == key(y)
    ensures NonIncreasing([x, y], key) && NonIncreasing([y, x], key)
  {
  }

  /** For example, creation at 1.0 s and 1.2 s stores one second, and at 1.4 s and 1.6 s two. */
  lemma SameSecondExamples()
    ensures StoredTime(1_000_000_000) == StoredTime(1_200_000_000) == Second
    ensures StoredTime(1_400_000_000) == Second && StoredTime(1_600_000_000) == 2 * Second
  {
    StoredTimeOrder(Second, 1_200_000_000);
    StoredTimeOrder(Second, 1_400_000_000);
    StoredTimeOrder(2 * Second, 1_600_000_000);
  }

  /**
   * ListProducts' filter: a blank query (after trimming) keeps every row;
   * otherwise `%q%` with the lower-cased, untrimmed query is matched with
   * LIKE against the lower-cased name, description, SKU and category.
   */
  predicate SqlMatches(p: Product, query: string)
  {
    var like := "%" + Text.Lower(query) + "%";
    Text.TrimSpace(query) == ""
    || Text.Like(like, Text.Lower(p.name)) || Text.Like(like, Text.Lower(p.description))
    || Text.Like(like, Text.Lower(p.sku)) || Text.Like(like, Text.Lower(p.category))
  }

  lemma LowerKeepsNoWildcards(q: string)
    requires Text.NoWildcards(q)
    ensures Text.NoWildcards(Text.Lower(q))
  {
    assert forall i :: 0 <= i < |q| ==> Text.Lower(q)[i] == Text.LowerChar(q[i]);
  }

  /**
   * For a non-blank query with no LIKE metacharacter, the relational search
   * keeps exactly the products the in-memory search keeps.
   */
  lemma SearchAgreesWithMemory(p: Product, query: string)
    requires Text.NoWildcards(query) && Text.TrimSpace(query) != ""
    ensures SqlMatches(p, query) <==> MemoryStore.MatchesQuery(p, query)
  {
    var q := Text.Lower(query);
    LowerKeepsNoWildcards(query);
    Text.LikeAgreesWithSubstring(q, Text.Lower(p.name));
    Text.LikeAgreesWithSubstring(q, Text.Lower(p.description));
    Text.LikeAgreesWithSubstring(q, Text.Lower(p.sku));
    Text.LikeAgreesWithSubstring(q, Text.Lower(p.category));
  }

  /**
   * The two searches differ on a query of blanks, which the relational one
   * treats as no filter, and on `_`, which LIKE reads as any one character.
   */
  lemma SearchesDiffer()
    ensures var p := Product("p", "abc", "", "", 0, "", 0, "", 0, 0);
      SqlMatches(p, " ") && !MemoryStore.MatchesQuery(p, " ")
      && SqlMatches(p, "a_c") && !MemoryStore.MatchesQuery(p, "a_c")
  {
    var p := Product("p", "abc", "", "", 0, "", 0, "", 0, 0);
    assert Text.Lower("abc") == "abc";
    assert Text.Lower("") == "";
    assert Text.Lower(" ") == " ";
    assert Text.Lower("a_c") == "a_c";
    assert Text.TrimSpace(" ") == "" by {
      Text.TrimSpaceEmpty(" ");
    }
    Text.MissingCharNotSubstring(" ", "abc", 0);
    Text.UnderscoreIsWildcard();
    assert !Text.IsSubstring(" ", "");
    assert !Text.IsSubstring("a_c", "");
    assert "%" + "a_c" + "%" == "%a_c%";
    assert SqlMatches(p, " ");
    assert !MemoryStore.MatchesQuery(p, " ");
    assert SqlMatches(p, "a_c");
  }

  /**
   * UpdateProduct's UPDATE: every column but id and created_at is written,
   * on the row whose id the patched record carries.
   */
  function RewriteProduct(products: map<string, Product>, p: Product): (r: map<string, Product>)
    ensures r.Keys == products.Keys
    ensures p.id in products ==> r[p.id] == p.(createdAt := products[p.id].createdAt)
    ensures forall id :: id in products && id != p.id ==> r[id] == products[id]
  {
    if p.id in products then products[p.id := p.(createdAt := products[p.id].createdAt)] else products
  }

  /**
   * UpdateProduct: the row is read into a copy, the patch edits the copy, and
   * only a successful patch is written back, stamped with the update time
   * (to the second in the row, exactly in the returned copy).
   */
  function UpdateProductTx(db: Db, id: string, patch: Product -> Patched, now: Time): (Db, Result<Product>)
  {
    if id !in db.products then (db, Err(ErrProductNotFound))
    else
      var res := patch(db.products[id]);
      if res.err.Some? then (db, Err(res.err.value))
      else
        var p := res.product.(updatedAt := now);
        (db.(products := RewriteProduct(db.products, p.(updatedAt := StoredTime(now)))), Ok(p))
  }

  /**
   * Replacing `products` and `cart_items` by tables that stay keyed by id,
   * still hold every product an order line names, and whose cart lines name
   * carts and products with positive quantities keeps every constraint.
   */
  lemma CatalogReplaced(db: Db, products: map<string, Product>, cartItems: map<(string, string), int>)
    requires Constraints(db)
    requires forall id :: id in products ==> products[id].id == id
    requires forall k :: k in cartItems ==> k.0 in db.carts && k.1 in products && cartItems[k] > 0
    requires forall k :: k in db.orderItems ==> k.1 in products
    ensures Constraints(db.(products := products, cartItems := cartItems))
  {
  }

  lemma UpdateProductKeeps(db: Db, id: string, patch: Product -> Patched, now: Time)
    requires Constraints(db)
    ensures Constraints(UpdateProductTx(db, id, patch, now).0)
  {
    var (db', r) := UpdateProductTx(db, id, patch, now);
    if r.Ok? {
      var p := r.value;
      forall k | k in db'.products ensures db'.products[k].id == k {
        if k != p.id {
          assert db'.products[k] == db.products[k];
        }
      }
      CatalogReplaced(db, db'.products, db.cartItems);
    }
  }

  /**
   * A failing patch writes nothing; a successful one rewrites only the
   * patched record's row, keeps that row's creation time, and stamps the
   * update time.
   */
  lemma UpdateProductEffect(db: Db, id: string, patch: Product -> Patched, now: Time)
    ensures var (db', r) := UpdateProductTx(db, id, patch, now);
      && (id !in db.products ==> r == Err(ErrProductNotFound))
      && (id in db.products ==> (r.Ok? <==> patch(db.products[id]).err.None?))
      && (r.Err? ==> db' == db)
      && (r.Ok? ==> r.value.updatedAt == now && db' == db.(products := db'.products)
                    && db'.products.Keys == db.products.Keys
                    && (r.value.id in db.products ==>
                          db'.products[r.value.id] == r.value.(createdAt := db.products[r.value.id].createdAt, updatedAt := StoredTime(now)))
                    && (forall other :: other in db.products && other != r.value.id ==> db'.products[other] == db.products[other]))
  {
  }

  predicate OnSomeOrder(orderItems: map<(string, string), OrderItemRow>, productId: string)
  {
    exists k :: k in orderItems && k.1 == productId
  }

  /** The cart lines that survive deleting `productId` (`ON DELETE CASCADE`). */
  function WithoutProduct(cartItems: map<(string, string), int>, productId: string): (r: map<(string, string), int>)
    ensures forall k :: k in r <==> k in cartItems && k.1 != productId
    ensures forall k :: k in r ==> r[k] == cartItems[k]
  {
    map k | k in cartItems && k.1 != productId :: cartItems[k]
  }

  /**
   * DeleteProduct: no row deleted reads as "product not found"; a product on
   * any order line cannot be deleted (`order_items` restricts it); otherwise
   * the product goes, and so do the cart lines naming it.
   */
  function DeleteProductTx(db: Db, id: string): (Db, Outcome)
  {
    if id !in db.products then (db, Fail(ErrProductNotFound))
    else if OnSomeOrder(db.orderItems, id) then (db, Fail(ErrParentRow))
    else (db.(products := db.products - {id}, cartItems := WithoutProduct(db.cartItems, id)), Pass)
  }

  lemma DeleteProductKeeps(db: Db, id: string)
    requires Constraints(db)
    ensures Constraints(DeleteProductTx(db, id).0)
  {
    if id in db.products && !OnSomeOrder(db.orderItems, id) {
      var products := db.products - {id};
      var items := WithoutProduct(db.cartItems, id);
      forall k | k in db.orderItems ensures k.1 in products {
        assert k.1 != id;
      }
      CatalogReplaced(db, products, items);
    }
  }

  /**
   * Deleting succeeds exactly for an existing product on no order line; a
   * failure changes nothing, and after a success neither the product nor any
   * cart line naming it is left, while every other row stays.
   */
  lemma DeleteProductEffect(db: Db, id: string)
    ensures var (db', r) := DeleteProductTx(db, id);
      && (r == Pass <==> id in db.products && !OnSomeOrder(db.orderItems, id))
      && (r != Pass ==> db' == db)
      && (r == Pass ==> id !in db'.products && (forall k :: k in db'.cartItems ==> k.1 != id)
                        && (forall other :: other in db.products && other != id ==> other in db'.products && db'.products[other] == db.products[other])
                        && (forall k :: k in db.cartItems && k.1 != id ==> k in db'.cartItems && db'.cartItems[k] == db.cartItems[k]))
  {
  }

  // ----- carts -----

  /** GetOrCreateCart's `INSERT IGNORE`: an existing cart, or a missing user's foreign-key error, is ignored. */
  function EnsureCartTx(db: Db, userId: string, now: Time): Db
  {
    if userId in db.carts || userId !in db.users then db else db.(carts := db.carts[userId := StoredTime(now)])
  }

  /** The INSERT IGNORE keeps every constraint and leaves a cart for every existing user. */
  lemma EnsureCartKeeps(db: Db, userId: string, now: Time)
    requires Constraints(db)
    ensures Constraints(EnsureCartTx(db, userId, now))
    ensures EnsureCartTx(db, userId, now).cartItems == db.cartItems
    ensures userId in db.users ==> userId in EnsureCartTx(db, userId, now).carts
  {
    if userId !in db.carts && userId in db.users {
      CartTablesReplaced(db, db.carts[userId := StoredTime(now)], db.cartItems);
    }
  }

  /**
   * Replacing `carts` and `cart_items` by tables whose carts belong to users
   * and whose lines name carts and products with positive quantities keeps
   * every constraint.
   */
  lemma CartTablesReplaced(db: Db, carts: map<string, Time>, cartItems: map<(string, string), int>)
    requires Constraints(db)
    requires forall u :: u in carts ==> u in db.users
    requires forall k :: k in cartItems ==> k.0 in carts && k.1 in db.products && cartItems[k] > 0
    ensures Constraints(db.(carts := carts, cartItems := cartItems))
  {
  }

  /** The cart line's quantity, or 0 (the ignored scan error of a missing row). */
  function CurrentQty(cartItems: map<(string, string), int>, userId: string, productId: string): int
  {
    if (userId, productId) in cartItems then cartItems[(userId, productId)] else 0
  }

  /**
   * AddToCart: a non-positive quantity, an unknown product and a short stock
   * are refused in that order; then the cart row is upserted (an unknown user
   * breaks its foreign key) and the line is upserted with `quantity + qty`.
   */
  function AddToCartTx(db: Db, userId: string, productId: string, qty: int, now: Time): (Db, Outcome)
  {
    if qty <= 0 then (db, Fail(ErrQuantity))
    else if productId !in db.products then (db, Fail(ErrProductNotFound))
    else
      var cur := CurrentQty(db.cartItems, userId, productId);
      if db.products[productId].stock < cur + qty then (db, Fail(ErrInsufficientStock))
      else if userId !in db.users then (db, Fail(ErrChildRow))
      else (db.(carts := db.carts[userId := StoredTime(now)], cartItems := db.cartItems[(userId, productId) := cur + qty]), Pass)
  }

  lemma AddToCartKeeps(db: Db, userId: string, productId: string, qty: int, now: Time)
    requires Constraints(db)
    ensures Constraints(AddToCartTx(db, userId, productId, qty, now).0)
  {
    var (db', r) := AddToCartTx(db, userId, productId, qty, now);
    if r == Pass {
      forall k | k in db'.cartItems
        ensures k.0 in db'.carts && k.1 in db.products && db'.cartItems[k] > 0
      {
        if k != (userId, productId) {
          assert k in db.cartItems;
        }
      }
      CartTablesReplaced(db, db'.carts, db'.cartItems);
    }
  }

  /**
   * AddToCart succeeds exactly when the quantity is positive, the product
   * exists, its stock covers the line plus `qty`, and the user exists; the
   * line then grows by `qty` and stays within stock, and no other line
   * changes. A failure changes nothing.
   */
  lemma AddToCartEffect(db: Db, userId: string, productId: string, qty: int, now: Time)
    ensures var (db', r) := AddToCartTx(db, userId, productId, qty, now);
      && (r == Pass <==> qty > 0 && productId in db.products && userId in db.users
                         && CurrentQty(db.cartItems, userId, productId) + qty <= db.products[productId].stock)
      && (r != Pass ==> db' == db)
      && (r == Pass ==> CurrentQty(db'.cartItems, userId, productId) == CurrentQty(db.cartItems, userId, productId) + qty
                        && CurrentQty(db'.cartItems, userId, productId) <= db.products[productId].stock)
      && (forall k :: k != (userId, productId) ==>
            CurrentQty(db'.cartItems, k.0, k.1) == CurrentQty(db.cartItems, k.0, k.1))
  {
  }

  /** The line `k` after removing `qty`: deleted when it held at most `qty`, reduced otherwise. */
  function ShrinkLine(items: map<(string, string), int>, k: (string, string), qty: int): (r: map<(string, string), int>)
    requires k in items
    ensures forall j :: j in r ==> j in items && (j != k ==> r[j] == items[j])
    ensures k in r <==> items[k] > qty
    ensures k in r ==> r[k] == items[k] - qty
    ensures forall j :: j in items && j != k ==> j in r
  {
    if items[k] <= qty then items - {k} else items[k := items[k] - qty]
  }

  /**
   * RemoveFromCart: a non-positive quantity is refused, then a missing line;
   * a line holding at most `qty` is deleted, otherwise reduced by `qty`.
   * There is no "cart not found" case.
   */
  function RemoveFromCartTx(db: Db, userId: string, productId: string, qty: int): (Db, Outcome)
  {
    if qty <= 0 then (db, Fail(ErrQuantity))
    else if (userId, productId) !in db.cartItems then (db, Fail(ErrNotInCart))
    else (db.(cartItems := ShrinkLine(db.cartItems, (userId, productId), qty)), Pass)
  }

  lemma RemoveFromCartKeeps(db: Db, userId: string, productId: string, qty: int)
    requires Constraints(db)
    ensures Constraints(RemoveFromCartTx(db, userId, productId, qty).0)
  {
    if qty > 0 && (userId, productId) in db.cartItems {
      LinesRemoved(db, ShrinkLine(db.cartItems, (userId, productId), qty));
    }
  }

  /** Dropping or lowering cart lines while keeping them positive keeps every constraint. */
  lemma LinesRemoved(db: Db, items: map<(string, string), int>)
    requires Constraints(db)
    requires forall j :: j in items ==> j in db.cartItems && items[j] > 0
    ensures Constraints(db.(cartItems := items))
  {
    CartTablesReplaced(db, db.carts, items);
  }

  /**
   * RemoveFromCart succeeds exactly for a positive quantity and an existing
   * line; the line goes when it held at most `qty` and otherwise shrinks by
   * `qty`; only that line changes. A failure changes nothing.
   */
  lemma RemoveFromCartEffect(db: Db, userId: string, productId: string, qty: int)
    ensures var (db', r) := RemoveFromCartTx(db, userId, productId, qty);
      var k := (userId, productId);
      && (r == Pass <==> qty > 0 && k in db.cartItems)
      && db' == db.(cartItems := db'.cartItems)
      && (r != Pass ==> db' == db)
      && (r == Pass && db.cartItems[k] <= qty ==> k !in db'.cartItems)
      && (r == Pass && db.cartItems[k] > qty ==> k in db'.cartItems && db'.cartItems[k] == db.cartItems[k] - qty)
      && (forall j :: j != k ==> CurrentQty(db'.cartItems, j.0, j.1) == CurrentQty(db.cartItems, j.0, j.1))
  {
  }

  /** Removing the quantity just added restores every cart line. */
  lemma RemoveUndoesAddToCart(db: Db, userId: string, productId: string, qty: int, now: Time)
    requires Constraints(db) && AddToCartTx(db, userId, productId, qty, now).1 == Pass
    ensures var added := AddToCartTx(db, userId, productId, qty, now).0;
      RemoveFromCartTx(added, userId, productId, qty).1 == Pass
      && RemoveFromCartTx(added, userId, productId, qty).0.cartItems == db.cartItems
  {
    var k := (userId, productId);
    var added := AddToCartTx(db, userId, productId, qty, now).0;
    var removed := RemoveFromCartTx(added, userId, productId, qty).0;
    if k in db.cartItems {
      assert db.cartItems[k] > 0;
      assert removed.cartItems == added.cartItems[k := db.cartItems[k]];
    } else {
      assert removed.cartItems == added.cartItems - {k};
    }
  }

  /** ClearCart: the user's lines and then the user's cart row are deleted. */
  function ClearCartTx(db: Db, userId: string): (r: Db)
    ensures forall k :: k in r.cartItems <==> k in db.cartItems && k.0 != userId
    ensures userId !in r.carts
    ensures r == db.(carts := r.carts, cartItems := r.cartItems)
  {
    db.(cartItems := map k | k in db.cartItems && k.0 != userId :: db.cartItems[k], carts := db.carts - {userId})
  }

  lemma ClearCartKeeps(db: Db, userId: string)
    requires Constraints(db)
    ensures Constraints(ClearCartTx(db, userId))
  {
    var db' := ClearCartTx(db, userId);
    forall k | k in db'.cartItems
      ensures k.0 in db'.carts && k.1 in db.products && db'.cartItems[k] > 0
    {
      assert k in db.cartItems && k.0 != userId;
    }
    CartTablesReplaced(db, db'.carts, db'.cartItems);
  }

  /** Clearing a cart twice is clearing it once. */
  lemma ClearCartIdempotent(db: Db, userId: string)
    ensures ClearCartTx(ClearCartTx(db, userId), userId) == ClearCartTx(db, userId)
  {
    var db' := ClearCartTx(db, userId);
    assert ClearCartTx(db', userId).cartItems == db'.cartItems;
  }

  // ----- orders -----

  /**
   * How the loop over an order's lines ended: every line placed, stopped by an
   * error whose `err` shadows the deferred one (so the transaction commits
   * what was written), or aborted by an error the deferred handler sees.
   */
  datatype Placed = Placed(db: Db) | Stopped(db: Db, err: string) | Aborted(err: string)

  /** The stock UPDATE changes the row: `stock >= q` matches it, and `q != 0` makes it differ. */
  predicate Decrements(p: Product, q: int)
  {
    p.stock >= q && q != 0
  }

  /** The INSERT of an order line, with the product's current price as its snapshot. */
  function PlaceLine(db: Db, orderId: string, it: CartItem): (r: Db)
    requires it.productId in db.products
    ensures r == db.(orderItems := r.orderItems)
    ensures (orderId, it.productId) in r.orderItems
  {
    db.(orderItems := db.orderItems[(orderId, it.productId) := OrderItemRow(it.quantity, db.products[it.productId].priceCents)])
  }

  /** `UPDATE products SET stock = stock - q` on one product. */
  function TakeStock(products: map<string, Product>, productId: string, q: int): (r: map<string, Product>)
    requires productId in products
    ensures r.Keys == products.Keys
  {
    products[productId := products[productId].(stock := products[productId].stock - q)]
  }

  /** The database after placing line `it`, when both of its statements went through. */
  function PlaceNext(db: Db, orderId: string, it: CartItem): Db
    requires it.productId in db.products
  {
    PlaceLine(db, orderId, it).(products := TakeStock(db.products, it.productId, it.quantity))
  }

  /**
   * CreateOrder's loop over the lines, from the database holding the order
   * header: a missing product stops it, a second line for the same product
   * aborts it on the duplicate key, and a stock UPDATE that changes no row
   * stops it after the line was inserted.
   */
  function PlaceItems(db: Db, orderId: string, items: seq<CartItem>): Placed
    decreases |items|
  {
    if items == [] then Placed(db)
    else
      var it := items[0];
      if it.productId !in db.products then Stopped(db, ErrNoRows)
      else if (orderId, it.productId) in db.orderItems then Aborted(ErrDuplicateEntry)
      else if !Decrements(db.products[it.productId], it.quantity) then
        Stopped(PlaceLine(db, orderId, it), ErrInsufficientFor(it.productId))
      else PlaceItems(PlaceNext(db, orderId, it), orderId, items[1..])
  }

  /** Every line names a product, no line's key is taken, no product repeats, and every stock UPDATE changes its row. */
  predicate Placeable(db: Db, orderId: string, items: seq<CartItem>)
  {
    UniqueLines(items)
    && forall i :: 0 <= i < |items| ==>
         items[i].productId in db.products && (orderId, items[i].productId) !in db.orderItems
         && Decrements(db.products[items[i].productId], items[i].quantity)
  }

  lemma PlaceableStep(db: Db, orderId: string, items: seq<CartItem>)
    requires items != [] && items[0].productId in db.products
    requires (orderId, items[0].productId) !in db.orderItems
    requires Decrements(db.products[items[0].productId], items[0].quantity)
    ensures Placeable(PlaceNext(db, orderId, items[0]), orderId, items[1..]) <==> Placeable(db, orderId, items)
  {
    var it := items[0];
    var rest := items[1..];
    var next := PlaceNext(db, orderId, it);
    if Placeable(next, orderId, rest) {
      forall i | 0 <= i < |rest| ensures rest[i].productId != it.productId {
        assert (orderId, rest[i].productId) !in next.orderItems;
      }
      forall i, j | 0 <= i < j < |items| ensures items[i].productId != items[j].productId {
        if i > 0 {
          assert items[i] == rest[i - 1] && items[j] == rest[j - 1];
        } else {
          assert items[j] == rest[j - 1];
        }
      }
      forall i | 0 < i < |items|
        ensures items[i].productId in db.products && (orderId, items[i].productId) !in db.orderItems
                && Decrements(db.products[items[i].productId], items[i].quantity)
      {
        assert items[i] == rest[i - 1];
      }
    }
    if Placeable(db, orderId, items) {
      forall i | 0 <= i < |rest|
        ensures rest[i].productId in next.products && (orderId, rest[i].productId) !in next.orderItems
                && Decrements(next.products[rest[i].productId], rest[i].quantity)
      {
        assert rest[i] == items[i + 1];
        assert rest[i].productId != it.productId;
      }
      forall i, j | 0 <= i < j < |rest| ensures rest[i].productId != rest[j].productId {
        assert rest[i] == items[i + 1] && rest[j] == items[j + 1];
      }
    }
  }

  /**
   * The loop places every line exactly when the lines are placeable: each
   * names an existing product whose stock covers a non-zero quantity, no
   * product repeats, and none already has a line on this order.
   */
  lemma {:induction false} PlaceItemsSucceeds(db: Db, orderId: string, items: seq<CartItem>)
    ensures PlaceItems(db, orderId, items).Placed? <==> Placeable(db, orderId, items)
    decreases |items|
  {
    if items != [] {
      var it := items[0];
      if it.productId in db.products && (orderId, it.productId) !in db.orderItems
         && Decrements(db.products[it.productId], it.quantity) {
        PlaceItemsSucceeds(PlaceNext(db, orderId, it), orderId, items[1..]);
        PlaceableStep(db, orderId, items);
      }
    }
  }

  /**
   * After every line is placed, each product's stock fell by exactly its
   * line's quantity (unlisted products keep theirs) and nothing else about
   * any product changed.
   */
  lemma {:induction false} PlacedStock(db: Db, orderId: string, items: seq<CartItem>)
    requires PlaceItems(db, orderId, items).Placed?
    ensures var after := PlaceItems(db, orderId, items).db.products;
      after.Keys == db.products.Keys
      && forall pid :: pid in db.products ==>
           after[pid] == db.products[pid].(stock := db.products[pid].stock - LineQty(items, pid))
    decreases |items|
  {
    if items != [] {
      var it := items[0];
      var rest := items[1..];
      var next := PlaceNext(db, orderId, it);
      PlacedStock(next, orderId, rest);
      PlaceItemsSucceeds(next, orderId, rest);
      forall j | 0 <= j < |rest| ensures rest[j].productId != it.productId {
        assert (orderId, rest[j].productId) !in next.orderItems;
      }
      LineIndexNone(rest, it.productId);
      forall pid | pid in db.products
        ensures PlaceItems(db, orderId, items).db.products[pid]
                == db.products[pid].(stock := db.products[pid].stock - LineQty(items, pid))
      {
        LineQtyCons(items, pid);
      }
    }
  }

  /**
   * After every line is placed, the order has a line for exactly the listed
   * products, and the other order lines are untouched.
   */
  lemma {:induction false} PlacedLineKeys(db: Db, orderId: string, items: seq<CartItem>)
    requires PlaceItems(db, orderId, items).Placed?
    ensures var after := PlaceItems(db, orderId, items).db.orderItems;
      (forall k :: k in after <==> k in db.orderItems || (k.0 == orderId && HasLine(items, k.1)))
      && (forall k :: k in db.orderItems ==> after[k] == db.orderItems[k])
    decreases |items|
  {
    if items != [] {
      var after := PlaceItems(db, orderId, items).db.orderItems;
      PlacedLineKeys(PlaceNext(db, orderId, items[0]), orderId, items[1..]);
      forall k ensures k in after <==> k in db.orderItems || (k.0 == orderId && HasLine(items, k.1)) {
        HasLineCons(items, k.1);
      }
    }
  }

  /** Each placed line holds its quantity and the price its product had when the order was placed. */
  lemma {:induction false} PlacedPrices(db: Db, orderId: string, items: seq<CartItem>)
    requires Placeable(db, orderId, items)
    ensures PlaceItems(db, orderId, items).Placed?
    ensures var after := PlaceItems(db, orderId, items).db.orderItems;
      forall i :: 0 <= i < |items| ==>
        (orderId, items[i].productId) in after
        && after[(orderId, items[i].productId)] == OrderItemRow(items[i].quantity, db.products[items[i].productId].priceCents)
    decreases |items|
  {
    PlaceItemsSucceeds(db, orderId, items);
    if items != [] {
      var rest := items[1..];
      var next := PlaceNext(db, orderId, items[0]);
      var after := PlaceItems(db, orderId, items).db.orderItems;
      PlaceableStep(db, orderId, items);
      PlacedPrices(next, orderId, rest);
      PlacedLineKeys(next, orderId, rest);
      forall i | 0 <= i < |items|
        ensures (orderId, items[i].productId) in after
                && after[(orderId, items[i].productId)] == OrderItemRow(items[i].quantity, db.products[items[i].productId].priceCents)
      {
        if i > 0 {
          assert items[i] == rest[i - 1];
        }
      }
    }
  }

  /** No product's stock is negative. */
  predicate StockNonNegative(products: map<string, Product>)
  {
    forall id :: id in products ==> products[id].stock >= 0
  }

  /**
   * `after` is `db` with only products and order lines changed, keeps every
   * constraint and the order `orderId`, and keeps stock non-negative.
   */
  predicate LinesKept(db: Db, after: Db, orderId: string)
  {
    Constraints(after) && orderId in after.orders
    && after == db.(products := after.products, orderItems := after.orderItems)
    && (StockNonNegative(db.products) ==> StockNonNegative(after.products))
  }

  /** Replacing `order_items` by lines that name existing orders and products keeps every constraint. */
  lemma OrderLinesReplaced(db: Db, orderItems: map<(string, string), OrderItemRow>)
    requires Constraints(db)
    requires forall k :: k in orderItems ==> k.0 in db.orders && k.1 in db.products
    ensures Constraints(db.(orderItems := orderItems))
  {
  }

  lemma PlaceLineKeeps(db: Db, orderId: string, it: CartItem)
    requires Constraints(db) && orderId in db.orders && it.productId in db.products
    ensures LinesKept(db, PlaceLine(db, orderId, it), orderId)
  {
    OrderLinesReplaced(db, PlaceLine(db, orderId, it).orderItems);
  }

  /** A stock decrement that the UPDATE's guard lets through keeps ids and non-negative stock. */
  lemma TakeStockKeeps(db: Db, productId: string, q: int)
    requires Constraints(db) && productId in db.products && db.products[productId].stock >= q
    ensures Constraints(db.(products := TakeStock(db.products, productId, q)))
    ensures StockNonNegative(db.products) ==> StockNonNegative(TakeStock(db.products, productId, q))
  {
    var products := TakeStock(db.products, productId, q);
    assert forall id :: id in products ==> products[id].id == id;
    CatalogReplaced(db, products, db.cartItems);
  }

  lemma PlaceNextKeeps(db: Db, orderId: string, it: CartItem)
    requires Constraints(db) && orderId in db.orders && it.productId in db.products
    requires Decrements(db.products[it.productId], it.quantity)
    ensures LinesKept(db, PlaceNext(db, orderId, it), orderId)
  {
    var lined := PlaceLine(db, orderId, it);
    PlaceLineKeeps(db, orderId, it);
    TakeStockKeeps(lined, it.productId, it.quantity);
  }

  /** Whether the loop placed every line or stopped, the database keeps every constraint and non-negative stock. */
  lemma {:induction false} PlaceItemsKeeps(db: Db, orderId: string, items: seq<CartItem>)
    requires Constraints(db) && orderId in db.orders
    ensures !PlaceItems(db, orderId, items).Aborted? ==> LinesKept(db, PlaceItems(db, orderId, items).db, orderId)
    decreases |items|
  {
    if items != [] && items[0].productId in db.products {
      PlaceLineKeeps(db, orderId, items[0]);
      if (orderId, items[0].productId) !in db.orderItems && Decrements(db.products[items[0].productId], items[0].quantity) {
        PlaceNextKeeps(db, orderId, items[0]);
        PlaceItemsKeeps(PlaceNext(db, orderId, items[0]), orderId, items[1..]);
      }
    }
  }

  /** The order CreateOrder returns: the header's fields and the lines as given. */
  function OrderOf(row: OrderRow, items: seq<CartItem>): Order
  {
    Order(row.id, row.userId, items, row.amount, row.status, row.paymentRef, row.createdAt)
  }

  /** The header INSERT; the row keeps the creation time to the second. */
  function OrderHeader(db: Db, row: OrderRow): Db
  {
    db.(orders := db.orders[row.id := row.(createdAt := StoredTime(row.createdAt))])
  }

  /**
   * CreateOrder's transaction with every error rolled back: the header
   * INSERT (a taken id or an unknown user fails it), then the loop over the
   * lines; anything short of placing every line leaves the database as it was.
   */
  function CreateOrderTx(db: Db, row: OrderRow, items: seq<CartItem>): (Db, Result<Order>)
  {
    if row.id in db.orders then (db, Err(ErrDuplicateEntry))
    else if row.userId !in db.users then (db, Err(ErrChildRow))
    else match PlaceItems(OrderHeader(db, row), row.id, items)
      case Placed(after) => (after, Ok(OrderOf(row, items)))
      case Stopped(_, e) => (db, Err(e))
      case Aborted(e) => (db, Err(e))
  }

  /**
   * CreateOrder's transaction as mysql.go runs it: the errors of the price
   * lookup and of the stock UPDATE are bound to a shadowing `err`, so the
   * deferred handler commits whatever was written before them.
   */
  function CreateOrderAsWritten(db: Db, row: OrderRow, items: seq<CartItem>): (Db, Result<Order>)
  {
    if row.id in db.orders then (db, Err(ErrDuplicateEntry))
    else if row.userId !in db.users then (db, Err(ErrChildRow))
    else match PlaceItems(OrderHeader(db, row), row.id, items)
      case Placed(after) => (after, Ok(OrderOf(row, items)))
      case Stopped(after, e) => (after, Err(e))
      case Aborted(e) => (db, Err(e))
  }

  /** The header INSERT keeps every constraint and adds no order line for the new order. */
  lemma OrderHeaderKeeps(db: Db, row: OrderRow)
    requires Constraints(db) && row.id !in db.orders && row.userId in db.users
    ensures Constraints(OrderHeader(db, row))
    ensures forall pid :: (row.id, pid) !in db.orderItems
  {
  }

  /**
   * An order is created exactly when its id is new, its user exists and its
   * lines are placeable; on any error nothing changes, and every constraint
   * and non-negative stock survive.
   */
  lemma CreateOrderSucceeds(db: Db, row: OrderRow, items: seq<CartItem>)
    requires Constraints(db)
    ensures var (after, r) := CreateOrderTx(db, row, items);
      Constraints(after)
      && (StockNonNegative(db.products) ==> StockNonNegative(after.products))
      && (r.Ok? <==> row.id !in db.orders && row.userId in db.users && Placeable(db, row.id, items))
      && (r.Err? ==> after == db)
  {
    if row.id !in db.orders && row.userId in db.users {
      var header := OrderHeader(db, row);
      OrderHeaderKeeps(db, row);
      PlaceItemsSucceeds(header, row.id, items);
      PlaceItemsKeeps(header, row.id, items);
      assert Placeable(header, row.id, items) <==> Placeable(db, row.id, items);
    }
  }

  /**
   * A created order is the header plus the lines as given, and each
   * product's stock fell by exactly its line's quantity; no table but
   * orders, products and order lines changed.
   */
  lemma CreateOrderStock(db: Db, row: OrderRow, items: seq<CartItem>)
    requires Constraints(db) && row.id !in db.orders && row.userId in db.users && Placeable(db, row.id, items)
    ensures CreateOrderTx(db, row, items).1 == Ok(OrderOf(row, items))
    ensures var after := CreateOrderTx(db, row, items).0;
      after == db.(orders := db.orders[row.id := row.(createdAt := StoredTime(row.createdAt))], products := after.products, orderItems := after.orderItems)
      && after.products.Keys == db.products.Keys
      && forall pid :: pid in db.products ==>
           after.products[pid] == db.products[pid].(stock := db.products[pid].stock - LineQty(items, pid))
  {
    var header := OrderHeader(db, row);
    OrderHeaderKeeps(db, row);
    PlaceItemsSucceeds(header, row.id, items);
    PlaceItemsKeeps(header, row.id, items);
    PlacedStock(header, row.id, items);
  }

  /**
   * A created order has a line for exactly the listed products, each with
   * its quantity and the price its product had; other orders' lines stay.
   */
  lemma CreateOrderLines(db: Db, row: OrderRow, items: seq<CartItem>)
    requires Constraints(db) && row.id !in db.orders && row.userId in db.users && Placeable(db, row.id, items)
    ensures CreateOrderTx(db, row, items).1.Ok?
    ensures var after := CreateOrderTx(db, row, items).0.orderItems;
      (forall k :: k in after <==> k in db.orderItems || (k.0 == row.id && HasLine(items, k.1)))
      && (forall k :: k in db.orderItems ==> after[k] == db.orderItems[k])
      && (forall i :: 0 <= i < |items| ==>
            (row.id, items[i].productId) in after
            && after[(row.id, items[i].productId)] == OrderItemRow(items[i].quantity, db.products[items[i].productId].priceCents))
  {
    var header := OrderHeader(db, row);
    PlaceItemsSucceeds(header, row.id, items);
    PlacedLineKeys(header, row.id, items);
    PlacedPrices(header, row.id, items);
  }

  /**
   * As written, an order whose second line names a missing product returns
   * an error, yet the order header and the first line's stock decrement are
   * committed; the transaction that rolls back leaves the database as it was.
   */
  lemma PartialCommit()
    ensures var u := User("u", "", "", "u@example.com", "", "user", "email", "", false, 0);
      var p := Product("p", "", "", "", 100, "", 1, "", 0, 0);
      var db := Db(map["u" := u], map[], map[], map["p" := p], map[], map[], map[], map[], map[]);
      var row := OrderRow("o", "u", 200, "pending", "", 0);
      var items := [CartItem("p", 1), CartItem("q", 1)];
      var (written, r) := CreateOrderAsWritten(db, row, items);
      r == Err(ErrNoRows) && "o" in written.orders && written.products["p"].stock == 0
      && CreateOrderTx(db, row, items) == (db, Err(ErrNoRows))
  {
    var u := User("u", "", "", "u@example.com", "", "user", "email", "", false, 0);
    var p := Product("p", "", "", "", 100, "", 1, "", 0, 0);
    var db := Db(map["u" := u], map[], map[], map["p" := p], map[], map[], map[], map[], map[]);
    var row := OrderRow("o", "u", 200, "pending", "", 0);
    var items := [CartItem("p", 1), CartItem("q", 1)];
    var header := OrderHeader(db, row);
    var next := PlaceNext(header, "o", items[0]);
    assert "q" !in next.products;
    assert PlaceItems(next, "o", items[1..]) == Stopped(next, ErrNoRows);
    assert PlaceItems(header, "o", items) == Stopped(next, ErrNoRows);
  }

  /** UpdateOrderStatus: zero changed rows, for a missing order or an unchanged status, reads as "order not found". */
  function SetStatusTx(db: Db, id: string, status: string): (Db, Outcome)
  {
    if id in db.orders && db.orders[id].status != status then
      (db.(orders := db.orders[id := db.orders[id].(status := status)]), Pass)
    else (db, Fail(ErrOrderNotFound))
  }

  /** UpdateOrderPaymentRef: as UpdateOrderStatus, for the payment reference. */
  function SetPaymentRefTx(db: Db, id: string, paymentRef: string): (Db, Outcome)
  {
    if id in db.orders && db.orders[id].paymentRef != paymentRef then
      (db.(orders := db.orders[id := db.orders[id].(paymentRef := paymentRef)]), Pass)
    else (db, Fail(ErrOrderNotFound))
  }

  /** Replacing `orders` by a table keyed by id, owned by users and keeping every order, keeps every constraint. */
  lemma OrdersReplaced(db: Db, orders: map<string, OrderRow>)
    requires Constraints(db)
    requires forall id :: id in db.orders ==> id in orders
    requires forall id :: id in orders ==> orders[id].id == id && orders[id].userId in db.users
    ensures Constraints(db.(orders := orders))
  {
  }

  /** Rewriting one order's header without touching its id or owner keeps every constraint. */
  lemma OrderRowKeeps(db: Db, id: string, o: OrderRow)
    requires Constraints(db) && id in db.orders && o.id == id && o.userId == db.orders[id].userId
    ensures Constraints(db.(orders := db.orders[id := o]))
  {
    OrdersReplaced(db, db.orders[id := o]);
  }

  /**
   * Setting a status succeeds exactly for an existing order whose status
   * differs; it changes nothing else, and the same update again reads as
   * "order not found".
   */
  lemma SetStatusEffect(db: Db, id: string, status: string)
    requires Constraints(db)
    ensures var (after, r) := SetStatusTx(db, id, status);
      Constraints(after)
      && (r == Pass <==> id in db.orders && db.orders[id].status != status)
      && (r == Pass ==> after == db.(orders := db.orders[id := db.orders[id].(status := status)]))
      && (r != Pass ==> after == db && r == Fail(ErrOrderNotFound))
      && SetStatusTx(after, id, status) == (after, Fail(ErrOrderNotFound))
  {
    if id in db.orders {
      OrderRowKeeps(db, id, db.orders[id].(status := status));
    }
  }

  /**
   * Setting a payment reference succeeds exactly for an existing order whose
   * reference differs; it changes nothing else, and the same update again
   * reads as "order not found".
   */
  lemma SetPaymentRefEffect(db: Db, id: string, paymentRef: string)
    requires Constraints(db)
    ensures var (after, r) := SetPaymentRefTx(db, id, paymentRef);
      Constraints(after)
      && (r == Pass <==> id in db.orders && db.orders[id].paymentRef != paymentRef)
      && (r == Pass ==> after == db.(orders := db.orders[id := db.orders[id].(paymentRef := paymentRef)]))
      && (r != Pass ==> after == db && r == Fail(ErrOrderNotFound))
      && SetPaymentRefTx(after, id, paymentRef) == (after, Fail(ErrOrderNotFound))
  {
    if id in db.orders {
      OrderRowKeeps(db, id, db.orders[id].(paymentRef := paymentRef));
    }
  }

  // ----- reviews -----

  /**
   * CreateReview: the rating is checked first; then the INSERT, whose user
   * must exist and whose row keeps the creation time to the second. The
   * review is returned as it was built.
   */
  function CreateReviewTx(db: Db, rv: Review): (Db, Result<Review>)
  {
    if rv.rating < 1 || rv.rating > 5 then (db, Err(ErrRating))
    else if rv.id in db.reviews then (db, Err(ErrDuplicateEntry))
    else if rv.userId !in db.users then (db, Err(ErrChildRow))
    else (db.(reviews := db.reviews[rv.id := rv.(createdAt := StoredTime(rv.createdAt))]), Ok(rv))
  }

  /**
   * A review is stored exactly when its rating is within 1..5, its id is new
   * and its author exists, and is kept with its creation time to the second;
   * a refused review changes nothing.
   */
  lemma CreateReviewEffect(db: Db, rv: Review)
    requires Constraints(db)
    ensures var (after, r) := CreateReviewTx(db, rv);
      Constraints(after)
      && (r.Ok? <==> 1 <= rv.rating <= 5 && rv.id !in db.reviews && rv.userId in db.users)
      && ((rv.rating < 1 || rv.rating > 5) ==> r == Err(ErrRating))
      && (r.Ok? ==> r.value == rv && after == db.(reviews := db.reviews[rv.id := rv.(createdAt := StoredTime(rv.createdAt))]))
      && (r.Err? ==> after == db)
  {
    if 1 <= rv.rating <= 5 && rv.id !in db.reviews && rv.userId in db.users {
      ReviewsReplaced(db, db.reviews[rv.id := rv.(createdAt := StoredTime(rv.createdAt))]);
    }
  }

  /** Replacing `reviews` by a table keyed by id whose reviews belong to users keeps every constraint. */
  lemma ReviewsReplaced(db: Db, reviews: map<string, Review>)
    requires Constraints(db)
    requires forall id :: id in reviews ==> reviews[id].id == id && reviews[id].userId in db.users
    ensures Constraints(db.(reviews := reviews))
  {
  }

  // ----- reading rows -----

  /**
   * `items` are the (product, quantity) rows of `owner` in a table keyed by
   * (owner, product), in any order: one per row, and nothing else.
   */
  predicate LinesOf<V>(m: map<(string, string), V>, owner: string, qty: V -> int, items: seq<CartItem>)
  {
    UniqueLines(items)
    && (forall i :: 0 <= i < |items| ==>
          (owner, items[i].productId) in m && items[i].quantity == qty(m[(owner, items[i].productId)]))
    && (forall k :: k in m && k.0 == owner ==> HasLine(items, k.1))
  }

  /** Reading `owner`'s rows gives, for every product, the quantity its row holds, or 0 without one. */
  lemma LinesOfQty<V>(m: map<(string, string), V>, owner: string, qty: V -> int, items: seq<CartItem>, pid: string)
    requires LinesOf(m, owner, qty, items)
    ensures LineQty(items, pid) == if (owner, pid) in m then qty(m[(owner, pid)]) else 0
  {
    if (owner, pid) in m {
      var i :| 0 <= i < |items| && items[i].productId == pid;
      LineQtyAt(items, i);
    } else {
      LineIndexNone(items, pid);
    }
  }

  /** The quantity column of `cart_items`. */
  function CartQuantity(q: int): int
  {
    q
  }

  /** The quantity column of `order_items`. */
  function OrderQuantity(row: OrderItemRow): int
  {
    row.quantity
  }

  /** `SELECT product_id, quantity ... WHERE owner = ?`, read row by row in the order the server returns them. */
  method SelectLines<V>(m: map<(string, string), V>, owner: string, qty: V -> int) returns (items: seq<CartItem>)
    ensures LinesOf(m, owner, qty, items)
  {
    items := [];
    var remaining := m.Keys;
    while remaining != {}
      invariant remaining <= m.Keys
      invariant UniqueLines(items)
      invariant forall i :: 0 <= i < |items| ==>
        (owner, items[i].productId) in m && (owner, items[i].productId) !in remaining
        && items[i].quantity == qty(m[(owner, items[i].productId)])
      invariant forall k :: k in m && k.0 == owner && k !in remaining ==> HasLine(items, k.1)
      decreases remaining
    {
      var k :| k in remaining;
      if k.0 == owner {
        var line := CartItem(k.1, qty(m[k]));
        var prev := items;
        assert forall i :: 0 <= i < |prev| ==> prev[i].productId != k.1;
        items := items + [line];
        forall j | j in m && j.0 == owner && j !in remaining - {k} ensures HasLine(items, j.1) {
          if j == k {
            assert items[|prev|] == line;
          } else {
            var i :| 0 <= i < |prev| && prev[i].productId == j.1;
            assert items[i] == prev[i];
          }
        }
      }
      remaining := remaining - {k};
    }
  }

  /**
   * A query with `ORDER BY key DESC`: the rows passing `keep`, each once, in
   * non-increasing key order. Rows with equal keys come in an order the
   * server chooses; the sort stands for the server's.
   */
  method SelectOrdered<V(==)>(m: map<string, V>, keep: V -> bool, key: V -> int)
    returns (rows: seq<V>, ghost listed: seq<V>, ghost ks: seq<string>)
    ensures Listing(m, keep, listed, ks)
    ensures multiset(rows) == multiset(listed)
    ensures NonIncreasing(rows, key)
  {
    var vs;
    vs, ks := Collect(m, keep);
    listed := vs;
    var a := new V[|vs|](i requires 0 <= i < |vs| => vs[i]);
    assert a[..] == vs;
    ExchangeSortDesc(a, key);
    rows := a[..];
  }

  /** An order as ListOrders builds it: the header row's columns and the lines of that order. */
  predicate OrderFromRow(orderItems: map<(string, string), OrderItemRow>, row: OrderRow, o: Order)
  {
    o.id == row.id && o.userId == row.userId && o.amount == row.amount && o.status == row.status
    && o.paymentRef == row.paymentRef && o.createdAt == row.createdAt
    && LinesOf(orderItems, row.id, OrderQuantity, o.items)
  }

  /** For each header row in turn, a second query reads that order's lines. */
  method AttachLines(orderItems: map<(string, string), OrderItemRow>, rows: seq<OrderRow>) returns (os: seq<Order>)
    ensures |os| == |rows|
    ensures forall i :: 0 <= i < |rows| ==> OrderFromRow(orderItems, rows[i], os[i])
  {
    os := [];
    var i := 0;
    while i < |rows|
      invariant 0 <= i <= |rows| && |os| == i
      invariant forall j :: 0 <= j < i ==> OrderFromRow(orderItems, rows[j], os[j])
    {
      var row := rows[i];
      var items := SelectLines(orderItems, row.id, OrderQuantity);
      os := os + [Order(row.id, row.userId, items, row.amount, row.status, row.paymentRef, row.createdAt)];
      i := i + 1;
    }
  }

  // ----- the store -----

  /**
   * The relational engine: the database is one value, and each method runs
   * its statements against it in turn.
   */
  class MySqlStore {
    var db: Db

    ghost predicate Valid()
      reads this
    {
      Constraints(db)
    }

    constructor ()
      ensures Valid()
      ensures db == Db(map[], map[], map[], map[], map[], map[], map[], map[], map[])
    {
      db := Db(map[], map[], map[], map[], map[], map[], map[], map[], map[]);
    }

    // ----- users -----

    /** A duplicate id or email reads as "email already registered"; empty role and provider take the column defaults. */
    method CreateUser(fullName: string, phone: string, email: string, passwordHash: string,
                      role: string, provider: string, googleId: string, emailVerified: bool,
                      id: string, now: Time) returns (r: Result<User>)
      requires Valid()
      modifies this
      ensures Valid()
      ensures var u := User(id, fullName, phone, email, passwordHash,
                            if role == "" then "user" else role,
                            if provider == "" then "email" else provider,
                            googleId, emailVerified, now);
        var row := u.(createdAt := StoredTime(now));
        db == InsertUser(old(db), row).0
        && r == (if InsertUser(old(db), row).1 == Pass then Ok(u) else Err(ErrEmailTaken))
    {
      var role' := if role == "" then "user" else role;
      var provider' := if provider == "" then "email" else provider;
      var u := User(id, fullName, phone, email, passwordHash, role', provider', googleId, emailVerified, now);
      var row := u.(createdAt := StoredTime(now));
      var (after, out) := InsertUser(db, row);
      if out == Pass {
        InsertUserKeeps(db, row);
        db := after;
        r := Ok(u);
      } else {
        r := Err(ErrEmailTaken);
      }
    }

    method GetUserByEmail(email: string) returns (r: Result<User>)
      requires Valid()
      ensures EmailTaken(db.users, email) ==>
        r.Ok? && r.value.email == email && r.value.id in db.users && db.users[r.value.id] == r.value
      ensures !EmailTaken(db.users, email) ==> r == Err(ErrUserNotFound)
    {
      if EmailTaken(db.users, email) {
        var id :| id in db.users && db.users[id].email == email;
        r := Ok(db.users[id]);
      } else {
        r := Err(ErrUserNotFound);
      }
    }

    method GetUserByID(id: string) returns (r: Result<User>)
      requires Valid()
      ensures id in db.users ==> r == Ok(db.users[id]) && r.value.id == id
      ensures id !in db.users ==> r == Err(ErrUserNotFound)
    {
      if id in db.users {
        r := Ok(db.users[id]);
      } else {
        r := Err(ErrUserNotFound);
      }
    }

    /** A registered email, or a duplicate on the INSERT, is a silent success. */
    method SeedAdminUser(email: string, passwordHash: string, id: string, now: Time) returns (r: Outcome)
      requires Valid()
      modifies this
      ensures Valid() && r == Pass
      ensures db == SeedAdminTx(old(db), email, passwordHash, id, now)
    {
      if !EmailTaken(db.users, email) {
        var u := Admin(id, email, passwordHash, StoredTime(now));
        var (after, out) := InsertUser(db, u);
        if out == Pass {
          InsertUserKeeps(db, u);
          db := after;
        }
      }
      r := Pass;
    }

    method UpdateUserPassword(userId: string, passwordHash: string) returns (r: Outcome)
      requires Valid()
      modifies this
      ensures Valid()
      ensures (db, r) == SetPasswordTx(old(db), userId, passwordHash)
    {
      SetPasswordEffect(db, userId, passwordHash);
      var (after, n) := UpdateUserRow(db, userId, WithPassword(passwordHash));
      if n == 0 {
        r := Fail(ErrUserNotFound);
      } else {
        db := after;
        r := Pass;
      }
    }

    method MarkEmailVerified(userId: string) returns (r: Outcome)
      requires Valid()
      modifies this
      ensures Valid()
      ensures (db, r) == MarkVerifiedTx(old(db), userId)
    {
      MarkVerifiedEffect(db, userId);
      var (after, n) := UpdateUserRow(db, userId, Verified);
      if n == 0 {
        r := Fail(ErrUserNotFound);
      } else {
        db := after;
        r := Pass;
      }
    }

    // ----- email verification and password reset tokens -----

    method CreateEmailVerification(userId: string, token: string, expiresAt: Time) returns (r: Outcome)
      requires Valid()
      modifies this
      ensures Valid()
      ensures var (table, out) := InsertToken(old(db).emailVerifications, old(db).users, Token(token, userId, StoredTime(expiresAt)));
        db == old(db).(emailVerifications := table) && r == out
    {
      var (table, out) := InsertToken(db.emailVerifications, db.users, Token(token, userId, StoredTime(expiresAt)));
      if out == Pass {
        TokensReplaced(db, table, db.passwordResets);
        db := db.(emailVerifications := table);
      }
      r := out;
    }

    method GetEmailVerification(token: string) returns (r: Result<Token>)
      requires Valid()
      ensures token in db.emailVerifications ==> r == Ok(db.emailVerifications[token]) && r.value.token == token
      ensures token !in db.emailVerifications ==> r == Err(ErrVerificationNotFound)
    {
      if token in db.emailVerifications {
        r := Ok(db.emailVerifications[token]);
      } else {
        r := Err(ErrVerificationNotFound);
      }
    }

    method GetLatestEmailVerificationByUser(userId: string) returns (r: Result<Token>)
      ensures r.Err? <==> forall t :: t in db.emailVerifications ==> db.emailVerifications[t].userId != userId
      ensures r.Err? ==> r == Err(ErrVerificationNotFound)
      ensures r.Ok? ==> LatestToken(db.emailVerifications, userId, r.value)
    {
      var latest := SelectLatest(db.emailVerifications, userId);
      if latest.None? {
        r := Err(ErrVerificationNotFound);
      } else {
        r := Ok(latest.value);
      }
    }

    method DeleteEmailVerification(token: string) returns (r: Outcome)
      requires Valid()
      modifies this
      ensures Valid() && r == Pass
      ensures db == old(db).(emailVerifications := old(db).emailVerifications - {token})
    {
      TokensReplaced(db, db.emailVerifications - {token}, db.passwordResets);
      db := db.(emailVerifications := db.emailVerifications - {token});
      r := Pass;
    }

    method CreatePasswordReset(userId: string, token: string, expiresAt: Time) returns (r: Outcome)
      requires Valid()
      modifies this
      ensures Valid()
      ensures var (table, out) := InsertToken(old(db).passwordResets, old(db).users, Token(token, userId, StoredTime(expiresAt)));
        db == old(db).(passwordResets := table) && r == out
    {
      var (table, out) := InsertToken(db.passwordResets, db.users, Token(token, userId, StoredTime(expiresAt)));
      if out == Pass {
        TokensReplaced(db, db.emailVerifications, table);
        db := db.(passwordResets := table);
      }
      r := out;
    }

    method GetPasswordReset(token: string) returns (r: Result<Token>)
      requires Valid()
      ensures token in db.passwordResets ==> r == Ok(db.passwordResets[token]) && r.value.token == token
      ensures token !in db.passwordResets ==> r == Err(ErrResetNotFound)
    {
      if token in db.passwordResets {
        r := Ok(db.passwordResets[token]);
      } else {
        r := Err(ErrResetNotFound);
      }
    }

    method DeletePasswordReset(token: string) returns (r: Outcome)
      requires Valid()
      modifies this
      ensures Valid() && r == Pass
      ensures db == old(db).(passwordResets := old(db).passwordResets - {token})
    {
      TokensReplaced(db, db.emailVerifications, db.passwordResets - {token});
      db := db.(passwordResets := db.passwordResets - {token});
      r := Pass;
    }

    // ----- products -----

    method CreateProduct(p: Product, id: string, now: Time) returns (r: Result<Product>)
      requires Valid()
      modifies this
      ensures Valid()
      ensures (db, r) == CreateProductTx(old(db), p, id, now)
    {
      CreateProductEffect(db, p, id, now);
      var q := p.(id := id, createdAt := now, updatedAt := now);
      if id in db.products {
        r := Err(ErrDuplicateEntry);
      } else {
        db := db.(products := db.products[id := q.(createdAt := StoredTime(now), updatedAt := StoredTime(now))]);
        r := Ok(q);
      }
    }

    /** The row is read, the patch runs on the copy, and only a successful patch is written back. */
    method UpdateProduct(id: string, patch: Product -> Patched, now: Time) returns (r: Result<Product>)
      requires Valid()
      modifies this
      ensures Valid()
      ensures (db, r) == UpdateProductTx(old(db), id, patch, now)
    {
      UpdateProductKeeps(db, id, patch, now);
      if id !in db.products {
        r := Err(ErrProductNotFound);
      } else {
        var res := patch(db.products[id]);
        if res.err.Some? {
          r := Err(res.err.value);
        } else {
          var q := res.product.(updatedAt := now);
          db := db.(products := RewriteProduct(db.products, q.(updatedAt := StoredTime(now))));
          r := Ok(q);
        }
      }
    }

    method DeleteProduct(id: string) returns (r: Outcome)
      requires Valid()
      modifies this
      ensures Valid()
      ensures (db, r) == DeleteProductTx(old(db), id)
    {
      DeleteProductKeeps(db, id);
      if id !in db.products {
        r := Fail(ErrProductNotFound);
      } else if OnSomeOrder(db.orderItems, id) {
        r := Fail(ErrParentRow);
      } else {
        db := db.(products := db.products - {id}, cartItems := WithoutProduct(db.cartItems, id));
        r := Pass;
      }
    }

    method GetProduct(id: string) returns (r: Result<Product>)
      requires Valid()
      ensures id in db.products ==> r == Ok(db.products[id]) && r.value.id == id
      ensures id !in db.products ==> r == Err(ErrProductNotFound)
    {
      if id in db.products {
        r := Ok(db.products[id]);
      } else {
        r := Err(ErrProductNotFound);
      }
    }

    /** The products the search keeps, each once, newest first. */
    method ListProducts(query: string) returns (r: seq<Product>, ghost listed: seq<Product>, ghost ks: seq<string>)
      ensures Listing(db.products, (p: Product) => SqlMatches(p, query), listed, ks)
      ensures multiset(r) == multiset(listed)
      ensures NonIncreasing(r, (p: Product) => p.createdAt)
    {
      r, listed, ks := SelectOrdered(db.products, (p: Product) => SqlMatches(p, query), (p: Product) => p.createdAt);
    }

    // ----- carts -----

    /** The cart row is created when missing; the user's lines are returned. */
    method GetOrCreateCart(userId: string, now: Time) returns (c: Cart)
      requires Valid()
      modifies this
      ensures Valid()
      ensures db == EnsureCartTx(old(db), userId, now)
      ensures c.userId == userId && LinesOf(db.cartItems, userId, CartQuantity, c.items)
    {
      EnsureCartKeeps(db, userId, now);
      db := EnsureCartTx(db, userId, now);
      var r := GetCart(userId);
      c := r.value;
    }

    method AddToCart(userId: string, productId: string, qty: int, now: Time) returns (r: Outcome)
      requires Valid()
      modifies this
      ensures Valid()
      ensures (db, r) == AddToCartTx(old(db), userId, productId, qty, now)
    {
      AddToCartKeeps(db, userId, productId, qty, now);
      ghost var want := AddToCartTx(db, userId, productId, qty, now);
      var after := db;
      if qty <= 0 {
        r := Fail(ErrQuantity);
      } else if productId !in db.products {
        r := Fail(ErrProductNotFound);
      } else {
        var cur := CurrentQty(db.cartItems, userId, productId);
        if db.products[productId].stock < cur + qty {
          r := Fail(ErrInsufficientStock);
        } else if userId !in db.users {
          r := Fail(ErrChildRow);
        } else {
          after := after.(carts := after.carts[userId := StoredTime(now)]);
          after := after.(cartItems := after.cartItems[(userId, productId) := cur + qty]);
          r := Pass;
        }
      }
      assert (after, r) == want;
      db := after;
    }

    method RemoveFromCart(userId: string, productId: string, qty: int) returns (r: Outcome)
      requires Valid()
      modifies this
      ensures Valid()
      ensures (db, r) == RemoveFromCartTx(old(db), userId, productId, qty)
    {
      RemoveFromCartKeeps(db, userId, productId, qty);
      ghost var want := RemoveFromCartTx(db, userId, productId, qty);
      var k := (userId, productId);
      var lines := db.cartItems;
      if qty <= 0 {
        r := Fail(ErrQuantity);
      } else if k !in lines {
        r := Fail(ErrNotInCart);
      } else {
        if lines[k] <= qty {
          lines := lines - {k};
        } else {
          lines := lines[k := lines[k] - qty];
        }
        assert lines == ShrinkLine(db.cartItems, k, qty);
        r := Pass;
      }
      assert (db.(cartItems := lines), r) == want;
      db := db.(cartItems := lines);
    }

    method ClearCart(userId: string)
      requires Valid()
      modifies this
      ensures Valid()
      ensures db == ClearCartTx(old(db), userId)
    {
      ClearCartKeeps(db, userId);
      db := db.(cartItems := map k | k in db.cartItems && k.0 != userId :: db.cartItems[k]);
      db := db.(carts := db.carts - {userId});
    }

    /** The user's lines, one per product, each with its stored quantity. */
    method GetCart(userId: string) returns (r: Result<Cart>)
      ensures r.Ok? && r.value.userId == userId
      ensures LinesOf(db.cartItems, userId, CartQuantity, r.value.items)
      ensures Valid() ==> PositiveLines(r.value.items)
    {
      var items := SelectLines(db.cartItems, userId, CartQuantity);
      r := Ok(Cart(userId, items));
    }

    // ----- orders -----

    /**
     * The header, then each line with its price snapshot and stock
     * decrement, in one transaction that is rolled back on any error.
     */
    method CreateOrder(userId: string, items: seq<CartItem>, amount: int, status: string,
                       paymentRef: string, id: string, now: Time) returns (r: Result<Order>)
      requires Valid()
      modifies this
      ensures Valid()
      ensures (db, r) == CreateOrderTx(old(db), OrderRow(id, userId, amount, status, paymentRef, now), items)
    {
      var row := OrderRow(id, userId, amount, status, paymentRef, now);
      CreateOrderSucceeds(db, row, items);
      var snapshot := db;
      if id in db.orders {
        r := Err(ErrDuplicateEntry);
      } else if userId !in db.users {
        r := Err(ErrChildRow);
      } else {
        db := OrderHeader(db, row);
        ghost var start := db;
        r := Ok(OrderOf(row, items));
        var i := 0;
        while i < |items|
          invariant 0 <= i <= |items|
          invariant PlaceItems(db, id, items[i..]) == PlaceItems(start, id, items)
          invariant r == Ok(OrderOf(row, items))
        {
          var it := items[i];
          assert items[i..][0] == it && items[i..][1..] == items[i + 1..];
          if it.productId !in db.products {
            db, r := snapshot, Err(ErrNoRows);
            break;
          }
          if (id, it.productId) in db.orderItems {
            db, r := snapshot, Err(ErrDuplicateEntry);
            break;
          }
          ghost var before := db;
          var p := db.products[it.productId];
          db := db.(orderItems := db.orderItems[(id, it.productId) := OrderItemRow(it.quantity, p.priceCents)]);
          if !(p.stock >= it.quantity && it.quantity != 0) {
            db, r := snapshot, Err(ErrInsufficientFor(it.productId));
            break;
          }
          db := db.(products := db.products[it.productId := p.(stock := p.stock - it.quantity)]);
          assert db == PlaceNext(before, id, it);
          i := i + 1;
        }
      }
    }

    /** The user's orders, newest first, each with its lines. */
    method ListOrdersByUser(userId: string)
      returns (r: seq<Order>, ghost rows: seq<OrderRow>, ghost listed: seq<OrderRow>, ghost ks: seq<string>)
      ensures Listing(db.orders, (o: OrderRow) => o.userId == userId, listed, ks)
      ensures multiset(rows) == multiset(listed)
      ensures NonIncreasing(rows, (o: OrderRow) => o.createdAt)
      ensures |r| == |rows| && forall i :: 0 <= i < |rows| ==> OrderFromRow(db.orderItems, rows[i], r[i])
    {
      var rs;
      rs, listed, ks := SelectOrdered(db.orders, (o: OrderRow) => o.userId == userId, (o: OrderRow) => o.createdAt);
      rows := rs;
      r := AttachLines(db.orderItems, rs);
    }

    /** Every order, newest first, each with its lines. */
    method ListOrders()
      returns (r: seq<Order>, ghost rows: seq<OrderRow>, ghost listed: seq<OrderRow>, ghost ks: seq<string>)
      ensures Listing(db.orders, (o: OrderRow) => true, listed, ks)
      ensures multiset(rows) == multiset(listed)
      ensures NonIncreasing(rows, (o: OrderRow) => o.createdAt)
      ensures |r| == |rows| && forall i :: 0 <= i < |rows| ==> OrderFromRow(db.orderItems, rows[i], r[i])
    {
      var rs;
      rs, listed, ks := SelectOrdered(db.orders, (o: OrderRow) => true, (o: OrderRow) => o.createdAt);
      rows := rs;
      r := AttachLines(db.orderItems, rs);
    }

    method UpdateOrderStatus(orderId: string, status: string) returns (r: Outcome)
      requires Valid()
      modifies this
      ensures Valid()
      ensures (db, r) == SetStatusTx(old(db), orderId, status)
    {
      SetStatusEffect(db, orderId, status);
      if orderId in db.orders && db.orders[orderId].status != status {
        db := db.(orders := db.orders[orderId := db.orders[orderId].(status := status)]);
        r := Pass;
      } else {
        r := Fail(ErrOrderNotFound);
      }
    }

    method UpdateOrderPaymentRef(orderId: string, paymentRef: string) returns (r: Outcome)
      requires Valid()
      modifies this
      ensures Valid()
      ensures (db, r) == SetPaymentRefTx(old(db), orderId, paymentRef)
    {
      SetPaymentRefEffect(db, orderId, paymentRef);
      if orderId in db.orders && db.orders[orderId].paymentRef != paymentRef {
        db := db.(orders := db.orders[orderId := db.orders[orderId].(paymentRef := paymentRef)]);
        r := Pass;
      } else {
        r := Fail(ErrOrderNotFound);
      }
    }

    // ----- reviews -----

    method CreateReview(userId: string, userName: string, userPhoto: string, rating: int,
                        comment: string, id: string, now: Time) returns (r: Result<Review>)
      requires Valid()
      modifies this
      ensures Valid()
      ensures (db, r) == CreateReviewTx(old(db), Review(id, userId, userName, userPhoto, rating, comment, now))
    {
      var rv := Review(id, userId, userName, userPhoto, rating, comment, now);
      CreateReviewEffect(db, rv);
      if rating < 1 || rating > 5 {
        r := Err(ErrRating);
      } else if id in db.reviews {
        r := Err(ErrDuplicateEntry);
      } else if userId !in db.users {
        r := Err(ErrChildRow);
      } else {
        db := db.(reviews := db.reviews[id := rv.(createdAt := StoredTime(now))]);
        r := Ok(rv);
      }
    }

    /** Newest first; a positive limit keeps that many rows. */
    method ListReviews(limit: int)
      returns (r: seq<Review>, ghost all: seq<Review>, ghost listed: seq<Review>, ghost ks: seq<string>)
      ensures Listing(db.reviews, (rv: Review) => true, listed, ks)
      ensures multiset(all) == multiset(listed)
      ensures NonIncreasing(all, (rv: Review) => rv.createdAt)
      ensures r == if limit > 0 && |all| > limit then all[..limit] else all
    {
      var rows;
      rows, listed, ks := SelectOrdered(db.reviews, (rv: Review) => true, (rv: Review) => rv.createdAt);
      all := rows;
      r := rows;
      if limit > 0 && |r| > limit {
        r := r[..limit];
      }
    }

    method GetUserReviewCount(userId: string) returns (n: int)
      ensures n == |set k | k in db.reviews && db.reviews[k].userId == userId|
    {
      n := |set k | k in db.reviews && db.reviews[k].userId == userId|;
    }
  }
}
