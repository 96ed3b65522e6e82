# Mancafe shop back end and route gate, modelled in Dafny

This project models the core of the Mancafe shop:
- the two storage engines of the Go back end, the in-memory store and the MySQL store;
- the HTTP handlers for sign-up and log-in, one-time codes, e-mail links and password resets, checkout and the payment callback, products, reviews and the admin order screen;
- the start-up configuration;
- the Astro front end's cookie session and route gate.

Layout:
- `models.dfy`: the records (users, tokens, products, carts, orders, reviews) and the cart-line searches.
- `memory_store.dfy`: the in-memory engine as a class whose fields are the Go maps.
- `mysql_store.dfy`: the relational engine as a class over a database value. Each table is a map keyed by its primary key, under the schema's keys and foreign keys. Each operation is a pure transaction function.
- The handler files (`auth.dfy`, `checkout.dfy`, `products_handler.dfy`, `reviews_handler.dfy`, `admin_orders.dfy`) each pair one step function with a method. The step function gives the new store state and the HTTP reply. The method issues the store calls in the source's order and is proved to agree with the step function.
- `config.dfy`: the environment as a map, and `Load` as a function.
- `session.dfy` and `middleware.dfy`: the front end.
- `text.dfy`, `strconv.dfy`, `base64url.dfy`, `uri_component.dfy`, `sorting.dfy` and `collections.dfy`: the library behaviour the core relies on, written out:
  - ASCII case folding, `strings.TrimSpace`, `strings.Fields` and MySQL `LIKE`;
  - `strconv.ParseInt` and `strconv.Atoi`;
  - unpadded URL-safe base64;
  - `encodeURIComponent` and its decoder;
  - `sort.SliceStable`;
  - Go's map iteration.

Clocks, fresh identifiers, password hashing, token signing and payment outcomes are parameters. Times are integers counting nanoseconds. The relational engine's DATETIME columns keep them to the whole second.

## Model

| member | source | states |
|---|---|---|
| Models.LineIndex | BackEnd/internal/store/memory.go:379-389 | The index of the first cart line naming a product, or the cart's length; every earlier line names another product. |
| Models.LineIndexFinds | BackEnd/internal/store/memory.go:338-343 | A product has a line exactly when the first-line search stops inside the cart. |
| Models.LineQtyAt | BackEnd/internal/store/memory.go:338-343 | In a cart without repeated products every line is the first for its product and carries its quantity. |
| Collections.Collect | BackEnd/internal/store/memory.go:446-458 | A range loop over a map returns, in some order, each value that passes the filter, once per key, and no other. |
| Sorting.ExchangeSortDesc | BackEnd/internal/store/memory.go:534-540 | The in-place exchange sort leaves the array in non-increasing key order and a permutation of what it held. |
| Sorting.StableSortDesc | BackEnd/internal/handlers/products.go:213-224 | The stable sort by descending rank lists every index once; a higher rank comes first and equal ranks keep their original order. |
| Sorting.StableOrderUnique | BackEnd/internal/handlers/products.go:213-224 | Exactly one order of the indices is stable and descending, so any stable sort gives this one. |
| Sorting.StableOrderDistinct | BackEnd/internal/handlers/products.go:213-224 | A stable order lists no index twice. |
| Text.ToLower | BackEnd/internal/store/memory.go:570-578 | The in-place byte loop folds exactly the letters A-Z to lower case. |
| Text.LowerIdempotent | BackEnd/internal/store/memory.go:570-578 | Folding twice is folding once, and folding changes nothing but A-Z. |
| Text.Contains | BackEnd/internal/store/memory.go:580-590 | The window scan answers true exactly when the second string occurs in the first; the empty string occurs in every string. |
| Text.ContainsFold | BackEnd/internal/store/memory.go:564-568 | The search is a substring test after ASCII folding of both sides. |
| Text.MissingCharNotSubstring | BackEnd/internal/store/memory.go:580-590 | A string with a character the text lacks is not a substring of it. |
| Text.FoldedSearchExample | BackEnd/internal/store/memory.go:294 | A search for "ABC" finds the SKU "abc-123". |
| Text.TrimSpaceShape | BackEnd/internal/config/config.go:48 | TrimSpace returns a slice of its input, with only white space around it, that neither begins nor ends with white space. |
| Text.TrimSpaceEmpty | BackEnd/internal/config/config.go:48-51 | A string trims to "" exactly when it is all white space. |
| Text.TrimSpaceIdempotent | BackEnd/internal/handlers/admin_orders.go:72 | Trimming twice is trimming once. |
| Text.Word | BackEnd/internal/handlers/products.go:239 | A word is the longest prefix without white space: a prefix of the text, free of white space, followed by white space or the end. |
| Text.Fields | BackEnd/internal/handlers/products.go:239 | The words of a text are non-empty runs without white space, and there are none exactly when the text is all white space. |
| Text.FieldsSplits | BackEnd/internal/handlers/products.go:239 | The text is its words in order, with white space before, after and between them and at least one white-space character between each two, so each word is a maximal run. |
| Text.FieldsJoin | BackEnd/internal/handlers/products.go:239 | Splitting words joined by single spaces gives the words back. |
| Text.LikeAgreesWithSubstring | BackEnd/internal/store/mysql.go:545-551 | The pattern "%q%" matches exactly the strings holding q, when q has no `%`, `_` or backslash. |
| Text.UnderscoreIsWildcard | BackEnd/internal/store/mysql.go:545-551 | "%a_c%" matches "abc" although "abc" does not hold "a_c". |
| Strconv.ParseInt | BackEnd/internal/handlers/products.go:255 | A base-10 parse gives either a value in the signed 64-bit range or a syntax or range error; a range error clamps to the limit on the side of the sign, the minimum after "-" and the maximum otherwise. |
| Strconv.ParseDecimal | BackEnd/internal/handlers/products.go:255 | Every signed 64-bit integer survives formatting in decimal and parsing unchanged. |
| Strconv.ScanStopsAtNonDigit | BackEnd/internal/handlers/products.go:255 | A text with a non-digit after the sign fails: a syntax error, or a range error when the digits before it overflowed first. |
| Strconv.SyntaxExamples | BackEnd/internal/handlers/products.go:255 | "abc" and "" are syntax errors. |
| Strconv.Atoi | BackEnd/internal/handlers/reviews.go:74-75 | Succeeds exactly when ParseInt parses, and then gives its value; a syntax error gives 0 and an overflow gives ParseInt's clamped limit, always within the signed 64-bit range. |
| MemoryStore.AddLineEffect | BackEnd/internal/store/memory.go:349-361 | Adding a positive quantity keeps one positive line per product, raises that product's quantity by it and leaves every other quantity alone. |
| MemoryStore.RemoveLineEffect | BackEnd/internal/store/memory.go:379-391 | Removing keeps one positive line per product; the line goes when it held at most the quantity and otherwise shrinks by it; other quantities stay. |
| MemoryStore.RemoveLineDeletes | BackEnd/internal/store/memory.go:381-384 | Removing at least the line's quantity deletes the line and leaves other products' quantities. |
| MemoryStore.RemoveLineShrinks | BackEnd/internal/store/memory.go:386-387 | Removing less than the line's quantity lowers just that line. |
| MemoryStore.RemoveUndoesAdd | BackEnd/internal/store/memory.go:316-392 | Removing exactly what was just added to a well-formed cart gives the cart back. |
| MemoryStore.DecrementedKeepsStockNonNegative | BackEnd/internal/store/memory.go:434-441 | The decrement loop touches only stock, keeps the set of products and never takes a non-negative stock below zero. |
| MemoryStore.DecrementedExact | BackEnd/internal/store/memory.go:434-441 | With one line per product and every line covered, each product's stock drops by exactly its line's quantity. |
| MemoryStore.CurrentQuantity | BackEnd/internal/store/memory.go:336-343 | The first loop returns the quantity of the first line for the product, or 0. |
| MemoryStore.AddOrUpdate | BackEnd/internal/store/memory.go:349-361 | The second loop bumps the first line for the product or appends a new line. |
| MemoryStore.FindLine | BackEnd/internal/store/memory.go:379-380 | The removal loop finds the index of the first line for the product, or the cart's length. |
| MemoryStore.AddToCartEffect | BackEnd/internal/store/memory.go:316-364 | AddToCart succeeds exactly for a positive quantity and an existing product whose stock covers the cart's quantity plus the new one; the quantity then grows and stays within stock, nothing else in any cart changes, and a non-positive quantity changes nothing, while past that check a missing cart is created empty and stays even when the call then fails. |
| MemoryStore.RemoveFromCartEffect | BackEnd/internal/store/memory.go:366-392 | RemoveFromCart succeeds exactly for a positive quantity and a cart with a line for the product; the line goes or shrinks, nothing else changes, and every failure changes nothing. |
| MemoryStore.RemoveUndoesAddToCart | BackEnd/internal/store/memory.go:316-392 | Removing the quantity just added gives the user's cart back, created empty if it was missing. |
| MemoryStore.InMemoryStore.constructor | BackEnd/internal/store/memory.go:26-37 | The new store has every map empty and is consistent. |
| MemoryStore.InMemoryStore.CreateUser | BackEnd/internal/store/memory.go:41-73 | A taken email is refused with nothing changed; otherwise the user is stored under the fresh id and indexed by email, with role "user" and provider "email" filling empty ones. |
| MemoryStore.InMemoryStore.GetUserByEmail | BackEnd/internal/store/memory.go:75-84 | The registered user with that email, or "user not found". |
| MemoryStore.InMemoryStore.GetUserByID | BackEnd/internal/store/memory.go:86-95 | The user stored under the id, or "user not found". |
| MemoryStore.InMemoryStore.SeedAdminUser | BackEnd/internal/store/memory.go:97-119 | Always succeeds; a registered email changes nothing, otherwise a verified administrator is added. |
| MemoryStore.InMemoryStore.UpdateUserPassword | BackEnd/internal/store/memory.go:121-132 | An unknown user is "user not found" with nothing changed; otherwise only that user's hash is replaced. |
| MemoryStore.InMemoryStore.MarkEmailVerified | BackEnd/internal/store/memory.go:134-145 | An unknown user is "user not found" with nothing changed; otherwise only that user's flag is set, and setting it again succeeds. |
| MemoryStore.InMemoryStore.CreateEmailVerification | BackEnd/internal/store/memory.go:149-159 | Always succeeds and stores the token under its text, replacing any token with the same text. |
| MemoryStore.InMemoryStore.GetEmailVerification | BackEnd/internal/store/memory.go:161-170 | The stored token, or "verification token not found". |
| MemoryStore.InMemoryStore.GetLatestEmailVerificationByUser | BackEnd/internal/store/memory.go:172-192 | Fails exactly when the user has no token; otherwise returns one of the user's tokens whose expiry no other of theirs exceeds. |
| MemoryStore.InMemoryStore.DeleteEmailVerification | BackEnd/internal/store/memory.go:194-200 | Always succeeds and removes only that token. |
| MemoryStore.InMemoryStore.CreatePasswordReset | BackEnd/internal/store/memory.go:204-214 | Always succeeds and stores the reset token under its text. |
| MemoryStore.InMemoryStore.GetPasswordReset | BackEnd/internal/store/memory.go:216-225 | The stored reset token, or "reset token not found". |
| MemoryStore.InMemoryStore.DeletePasswordReset | BackEnd/internal/store/memory.go:227-233 | Always succeeds and removes only that reset token. |
| MemoryStore.InMemoryStore.CreateProduct | BackEnd/internal/store/memory.go:237-246 | The product is stored under the fresh id with both timestamps set to now, and returned. |
| MemoryStore.InMemoryStore.UpdateProduct | BackEnd/internal/store/memory.go:248-263 | An unknown id changes nothing; the patch edits the stored record itself, so a failing patch keeps its edits and only a successful one stamps the update time. |
| MemoryStore.InMemoryStore.DeleteProduct | BackEnd/internal/store/memory.go:265-275 | An unknown id is "product not found" with nothing changed; otherwise only that product goes and cart lines naming it stay. |
| MemoryStore.InMemoryStore.GetProduct | BackEnd/internal/store/memory.go:277-286 | The stored product, or "product not found". |
| MemoryStore.InMemoryStore.ListProducts | BackEnd/internal/store/memory.go:288-300 | Each product matching the query, once, in some order; every product when the query is empty. |
| MemoryStore.InMemoryStore.GetOrCreateCart | BackEnd/internal/store/memory.go:304-314 | The user's cart, created empty and stored when missing; nothing else changes. |
| MemoryStore.InMemoryStore.AddToCart | BackEnd/internal/store/memory.go:316-364 | The new carts and the result are those of the AddToCart step; nothing but carts changes and the store stays consistent. |
| MemoryStore.InMemoryStore.RemoveFromCart | BackEnd/internal/store/memory.go:366-392 | The new carts and the result are those of the RemoveFromCart step; nothing but carts changes. |
| MemoryStore.InMemoryStore.ClearCart | BackEnd/internal/store/memory.go:394-399 | Only the user's cart is removed; clearing an absent cart changes nothing. |
| MemoryStore.InMemoryStore.GetCart | BackEnd/internal/store/memory.go:401-413 | A copy of the user's cart, or an empty cart for a user without one; its lines are unique and positive. |
| MemoryStore.InMemoryStore.CreateOrder | BackEnd/internal/store/memory.go:417-444 | Always succeeds: the order is stored, then the decrement loop runs on the products; nothing else changes. |
| MemoryStore.InMemoryStore.ListOrdersByUser | BackEnd/internal/store/memory.go:446-458 | Each of the user's orders, once, in some order, and no other order. |
| MemoryStore.InMemoryStore.ListOrders | BackEnd/internal/store/memory.go:460-470 | Every order, once, in some order. |
| MemoryStore.InMemoryStore.UpdateOrderStatus | BackEnd/internal/store/memory.go:472-483 | An unknown order is "order not found" with nothing changed; otherwise only that order's status is set, and setting the same status again succeeds. |
| MemoryStore.InMemoryStore.UpdateOrderPaymentRef | BackEnd/internal/store/memory.go:485-496 | An unknown order is "order not found" with nothing changed; otherwise only that order's payment reference is set. |
| MemoryStore.InMemoryStore.CreateReview | BackEnd/internal/store/memory.go:500-521 | A rating outside 1..5 is refused with nothing changed; otherwise the review is stored under the fresh id. |
| MemoryStore.InMemoryStore.ListReviews | BackEnd/internal/store/memory.go:523-547 | Every review, newest first, cut to the first `limit` only when `limit` is positive and smaller than the count. |
| MemoryStore.InMemoryStore.GetUserReviewCount | BackEnd/internal/store/memory.go:549-560 | The number of reviews written by the user. |
| MySql.StoredTime | BackEnd/internal/store/mysql.go:59 | A DATETIME column keeps a whole second, the one nearest the written time, half a second rounding up. |
| MySql.StoredTimeOrder | BackEnd/internal/store/mysql.go:59 | Storing never reverses two times and keeps a whole second as it is, but every time from half a second before a whole second to just under half a second after it stores as that second. |
| MySql.SameSecondProducts | BackEnd/internal/store/mysql.go:535-550 | Two created products store the same creation second exactly when the second creation time lies within half a second of the first one's stored second (below its upper end); then newest-first lists either of them first. |
| MySql.SameSecondExamples | BackEnd/internal/store/mysql.go:535-550 | For example, times 1.0 s and 1.2 s store the same second, while 1.4 s and 1.6 s store seconds 1 and 2. |
| MySql.InsertUser | BackEnd/internal/store/mysql.go:262-295 | The insert succeeds exactly when the id and the email are both free, storing the user; otherwise it is "email already registered" with nothing changed. |
| MySql.SetPasswordEffect | BackEnd/internal/store/mysql.go:355-365 | The update succeeds exactly for an existing user whose hash differs, since only changed rows count; it changes only that hash. |
| MySql.MarkVerifiedEffect | BackEnd/internal/store/mysql.go:367-377 | The update succeeds exactly for an existing user not yet verified; an already verified user reads as "user not found". |
| MySql.MarkVerifiedTwice | BackEnd/internal/store/mysql.go:367-377 | Marking the same user twice fails the second time with nothing changed. |
| MySql.SeedAdminEffect | BackEnd/internal/store/mysql.go:329-353 | Seeding keeps every constraint; with a fresh id the email ends up registered, the administrator is added, stamped to the second, only when the email was free, and seeding again changes nothing. |
| MySql.InsertToken | BackEnd/internal/store/mysql.go:381-387 | A taken token is a duplicate and a token of an unknown user breaks the foreign key; otherwise the token is stored. |
| MySql.SelectLatest | BackEnd/internal/store/mysql.go:405-419 | The query returns a token of the user whose stored expiry, a whole second, no other of theirs exceeds, or fails exactly when the user has none. |
| MySql.CreateProductEffect | BackEnd/internal/store/mysql.go:459-474 | A created product is returned with the exact creation time and stored under its new id with that time rounded to the second; every constraint holds. |
| MySql.SearchAgreesWithMemory | BackEnd/internal/store/mysql.go:539-552 | For a non-blank query without `%`, `_` or backslash, the relational search keeps exactly the products the in-memory search keeps. |
| MySql.SearchesDiffer | BackEnd/internal/store/mysql.go:539-552 | The searches differ on a blank query, which the relational engine treats as no filter, and on `_`. |
| MySql.UpdateProductEffect | BackEnd/internal/store/mysql.go:476-504 | A failing patch writes nothing; a successful one rewrites only that product's row, keeps its creation time, stores the update time to the second and returns it exact. |
| MySql.DeleteProductEffect | BackEnd/internal/store/mysql.go:506-516 | Deleting succeeds exactly for an existing product on no order line; a failure changes nothing; a success removes the product and the cart lines naming it and nothing else. |
| MySql.EnsureCartKeeps | BackEnd/internal/store/mysql.go:574-585 | The insert-or-ignore keeps every constraint and leaves a cart row for each existing user. |
| MySql.AddToCartEffect | BackEnd/internal/store/mysql.go:587-624 | AddToCart succeeds exactly for a positive quantity, an existing product with stock for the line plus the new quantity, and an existing user; the line grows and stays within stock, no other line changes, and a failure changes nothing. |
| MySql.RemoveFromCartEffect | BackEnd/internal/store/mysql.go:626-657 | RemoveFromCart succeeds exactly for a positive quantity and an existing line; the line goes or shrinks, only it changes, and a failure changes nothing. |
| MySql.RemoveUndoesAddToCart | BackEnd/internal/store/mysql.go:587-657 | Removing the quantity just added restores every cart line. |
| MySql.ClearCartIdempotent | BackEnd/internal/store/mysql.go:659-662 | Clearing a cart twice is clearing it once. |
| MySql.PlaceItemsSucceeds | BackEnd/internal/store/mysql.go:713-742 | The line loop places every line exactly when each line names an existing product with stock for a non-zero quantity, no product repeats and none already has a line on the order. |
| MySql.PlacedStock | BackEnd/internal/store/mysql.go:729-741 | After every line is placed, each listed product's stock fell by exactly its quantity, others kept theirs, and nothing else about any product changed. |
| MySql.PlacedLineKeys | BackEnd/internal/store/mysql.go:721-727 | After every line is placed the order has a line for exactly the listed products, and other order lines are untouched. |
| MySql.PlacedPrices | BackEnd/internal/store/mysql.go:714-724 | Each placed line holds its quantity and its product's price at the time of the order. |
| MySql.PlaceItemsKeeps | BackEnd/internal/store/mysql.go:713-742 | Whether the loop places every line or stops, every constraint and non-negative stock hold. |
| MySql.CreateOrderSucceeds | BackEnd/internal/store/mysql.go:688-753 | An order is created exactly when its id is new, its user exists and its lines are placeable; on any error nothing changes, and the constraints and non-negative stock survive. |
| MySql.CreateOrderStock | BackEnd/internal/store/mysql.go:688-753 | A created order is its header, stamped to the second, plus the given lines; each product's stock fell by its line's quantity, and only orders, products and order lines changed. |
| MySql.CreateOrderLines | BackEnd/internal/store/mysql.go:713-742 | A created order has a line for exactly the listed products, with their quantities and prices; other orders' lines stay. |
| MySql.PartialCommit | BackEnd/internal/store/mysql.go:696-719 | As written, an order whose second line names a missing product is reported as an error yet its header and first stock decrement are committed; the corrected transaction leaves the database as it was. |
| MySql.SetStatusEffect | BackEnd/internal/store/mysql.go:861-871 | Setting a status succeeds exactly for an existing order whose status differs, changes only that status, and the same update again reads as "order not found". |
| MySql.SetPaymentRefEffect | BackEnd/internal/store/mysql.go:873-883 | Setting a payment reference succeeds exactly for an existing order whose reference differs, changes only it, and repeating it reads as "order not found". |
| MySql.CreateReviewEffect | BackEnd/internal/store/mysql.go:887-912 | A review is stored, its creation time rounded to the second, exactly when its rating is in 1..5, its id is new and its author exists; it is returned as built; a refused review changes nothing. |
| MySql.LinesOfQty | BackEnd/internal/store/mysql.go:664-684 | The rows read for an owner give each product's stored quantity, or 0 without a row. |
| MySql.SelectLines | BackEnd/internal/store/mysql.go:664-684 | The lines read for an owner are exactly its rows, one per product. |
| MySql.SelectOrdered | BackEnd/internal/store/mysql.go:809-859 | An ORDER BY ... DESC query returns the rows passing the filter, each once, in non-increasing key order. |
| MySql.AttachLines | BackEnd/internal/store/mysql.go:755-807 | Each listed order gets exactly its own lines from the order-lines table. |
| MySql.MySqlStore.constructor | BackEnd/internal/store/mysql.go:21-44 | A new store starts from empty tables that meet every constraint. |
| MySql.MySqlStore.CreateUser | BackEnd/internal/store/mysql.go:262-295 | The database is that of the user insert with the creation time to the second; the result carries the exact time; a duplicate reads as "email already registered"; empty role and provider take the column defaults. |
| MySql.MySqlStore.GetUserByEmail | BackEnd/internal/store/mysql.go:297-311 | The user with that email, or "user not found". |
| MySql.MySqlStore.GetUserByID | BackEnd/internal/store/mysql.go:313-327 | The user with that id, or "user not found". |
| MySql.MySqlStore.SeedAdminUser | BackEnd/internal/store/mysql.go:329-353 | Always succeeds, with the database that of the seeding transaction. |
| MySql.MySqlStore.UpdateUserPassword | BackEnd/internal/store/mysql.go:355-365 | Database and result are those of the password update. |
| MySql.MySqlStore.MarkEmailVerified | BackEnd/internal/store/mysql.go:367-377 | Database and result are those of the verification update. |
| MySql.MySqlStore.CreateEmailVerification | BackEnd/internal/store/mysql.go:381-387 | Database and result are those of the token insert, with the expiry stored to the second. |
| MySql.MySqlStore.GetEmailVerification | BackEnd/internal/store/mysql.go:389-403 | The stored token, or "verification token not found". |
| MySql.MySqlStore.GetLatestEmailVerificationByUser | BackEnd/internal/store/mysql.go:405-419 | Fails exactly when the user has no token; otherwise a token of theirs whose stored whole-second expiry is the latest, ties going either way. |
| MySql.MySqlStore.DeleteEmailVerification | BackEnd/internal/store/mysql.go:421-424 | Always succeeds and removes only that token. |
| MySql.MySqlStore.CreatePasswordReset | BackEnd/internal/store/mysql.go:428-434 | Database and result are those of the reset-token insert, with the expiry stored to the second. |
| MySql.MySqlStore.GetPasswordReset | BackEnd/internal/store/mysql.go:436-450 | The stored reset token, or "reset token not found". |
| MySql.MySqlStore.DeletePasswordReset | BackEnd/internal/store/mysql.go:452-455 | Always succeeds and removes only that reset token. |
| MySql.MySqlStore.CreateProduct | BackEnd/internal/store/mysql.go:459-474 | Database and result are those of the product insert. |
| MySql.MySqlStore.UpdateProduct | BackEnd/internal/store/mysql.go:476-504 | Database and result are those of read, patch and write-back; a failing patch writes nothing. |
| MySql.MySqlStore.DeleteProduct | BackEnd/internal/store/mysql.go:506-516 | Database and result are those of the delete with its cascade to cart lines. |
| MySql.MySqlStore.GetProduct | BackEnd/internal/store/mysql.go:518-533 | The stored product, or "product not found". |
| MySql.MySqlStore.ListProducts | BackEnd/internal/store/mysql.go:535-570 | The products the LIKE search keeps, each once, in non-increasing order of their stored whole-second creation times, with ties in any order. |
| MySql.MySqlStore.GetOrCreateCart | BackEnd/internal/store/mysql.go:574-585 | The cart row is inserted when missing, and the user's stored lines are returned. |
| MySql.MySqlStore.AddToCart | BackEnd/internal/store/mysql.go:587-624 | Database and result are those of the AddToCart transaction. |
| MySql.MySqlStore.RemoveFromCart | BackEnd/internal/store/mysql.go:626-657 | Database and result are those of the RemoveFromCart transaction. |
| MySql.MySqlStore.ClearCart | BackEnd/internal/store/mysql.go:659-662 | The user's lines and cart row are deleted. |
| MySql.MySqlStore.GetCart | BackEnd/internal/store/mysql.go:664-684 | The user's stored lines, one per product with its quantity, all positive. |
| MySql.MySqlStore.CreateOrder | BackEnd/internal/store/mysql.go:688-753 | Database and result are those of the corrected order transaction, which rolls back on any error. |
| MySql.MySqlStore.ListOrdersByUser | BackEnd/internal/store/mysql.go:755-807 | The user's orders, each once, in non-increasing order of their stored whole-second creation times, each with exactly its own lines. |
| MySql.MySqlStore.ListOrders | BackEnd/internal/store/mysql.go:809-859 | Every order, once, in non-increasing order of its stored whole-second creation time, each with exactly its own lines. |
| MySql.MySqlStore.UpdateOrderStatus | BackEnd/internal/store/mysql.go:861-871 | Database and result are those of the status update. |
| MySql.MySqlStore.UpdateOrderPaymentRef | BackEnd/internal/store/mysql.go:873-883 | Database and result are those of the payment-reference update. |
| MySql.MySqlStore.CreateReview | BackEnd/internal/store/mysql.go:887-912 | Database and result are those of the review insert. |
| MySql.MySqlStore.ListReviews | BackEnd/internal/store/mysql.go:914-939 | Every review, in non-increasing order of the stored whole-second creation times, cut to `limit` rows when `limit` is positive. |
| MySql.MySqlStore.GetUserReviewCount | BackEnd/internal/store/mysql.go:941-948 | The number of reviews written by the user. |
| Checkout.QuoteOkIffCovered | BackEnd/internal/handlers/checkout.go:72-100 | Pricing succeeds exactly when every line names a product with enough stock. |
| Checkout.QuoteFailsAtFirstProblem | BackEnd/internal/handlers/checkout.go:72-85 | A failed quote reports the problem of the first offending line: "Invalid product in cart" or the stock message with the name and stock. |
| Checkout.QuoteAppend | BackEnd/internal/handlers/checkout.go:87-88 | The amount of two carts laid end to end is the sum of their amounts. |
| Checkout.QuoteNonNegative | BackEnd/internal/handlers/checkout.go:87-88 | With positive quantities and non-negative prices the amount is not negative. |
| Checkout.PayOutcome | BackEnd/internal/handlers/checkout.go:117-142 | Payment succeeds when Snap does, or else when the direct charge does; a payment page comes only from Snap. |
| Checkout.CheckoutAccepted | BackEnd/internal/handlers/checkout.go:50-172 | A checkout succeeds exactly when the body binds, the cart has lines, every line is covered and payment succeeds. |
| Checkout.CheckoutRejectsBeforeOrder | BackEnd/internal/handlers/checkout.go:51-85 | A 400 answer (bad body, empty cart, missing product, short stock) changes nothing and names the first offending line. |
| Checkout.CheckoutPlacesOrder | BackEnd/internal/handlers/checkout.go:102-142 | Once priced, the order exists, pending, with the cart's lines and quoted amount, and stock fell by each line's quantity, whatever the payment did; a failed payment answers 402. |
| Checkout.CheckoutCompletes | BackEnd/internal/handlers/checkout.go:144-171 | A successful checkout records the payment reference, clears the cart, and answers with the pending order, amount, lines and payment page. |
| Checkout.PriceCart | BackEnd/internal/handlers/checkout.go:72-100 | The pricing loop returns the quote of the cart's lines against the stored products. |
| Checkout.HandleCheckout | BackEnd/internal/handlers/checkout.go:50-172 | The new store state and reply are those of the checkout step. |
| Checkout.MyOrders | BackEnd/internal/handlers/checkout.go:174-194 | One answer row per order of the user, copying its fields, and no other. |
| Checkout.CallbackStatusCases | BackEnd/internal/handlers/checkout.go:209-223 | "paid" exactly for a settlement or an accepted capture; "failed" for deny, cancel or expire; "" for a capture not accepted; "pending" otherwise. |
| Checkout.HandleMidtransCallback | BackEnd/internal/handlers/checkout.go:197-232 | A body that is not JSON is 400; the named order takes the mapped status, and an unknown order is 500 with nothing changed. |
| ProductsHandler.ParsePrice | BackEnd/internal/handlers/products.go:251-260 | "empty" for an empty value, otherwise exactly the outcome of the base-10 64-bit parse. |
| ProductsHandler.ParsePriceRoundTrip | BackEnd/internal/handlers/products.go:251-260 | Every 64-bit amount written in decimal parses back to itself; "" and "12.5" are refused. |
| ProductsHandler.PriceCentsTakesPrecedence | BackEnd/internal/handlers/products.go:53-69 | When price_cents is sent it decides the price, whatever price says. |
| ProductsHandler.GenerateSku | BackEnd/internal/handlers/products.go:235-249 | The loop builds one initial per word, the word's first byte read as a Latin-1 rune and upper-cased, or "PROD", then a dash and the clock modulo 1000000. |
| ProductsHandler.SkuShape | BackEnd/internal/handlers/products.go:235-249 | A SKU is the initial of each word, or "PROD" exactly when the name is all white space, a dash and a number that reads back as the clock modulo 1000000, below 1000000 for a clock past 1970. |
| ProductsHandler.Utf8LeadByte | BackEnd/internal/handlers/products.go:241 | A word's first byte is the character itself when it is ASCII, and otherwise a UTF-8 leading byte between C2 and F4. |
| ProductsHandler.InitialOfFirstByte | BackEnd/internal/handlers/products.go:241 | An ASCII first letter gives its usual capital; any other first character gives a Latin-1 character between À and ß, so É gives Ã and 日 gives Æ. |
| ProductsHandler.AccentedNameSku | BackEnd/internal/handlers/products.go:235-249 | "Éclair Cokelat" splits into "Éclair" and "Cokelat" and gets the initials "ÃC", which head its SKU. |
| ProductsHandler.NewProductValid | BackEnd/internal/handlers/products.go:47-91 | A request is accepted exactly when the name is non-empty, the stock non-negative and the price parses to a positive amount; the product then has a SKU and a positive 64-bit price. |
| ProductsHandler.NewProductRefusals | BackEnd/internal/handlers/products.go:47-74 | A request without any price is refused, and name and stock are checked before the price. |
| ProductsHandler.HandleCreate | BackEnd/internal/handlers/products.go:40-98 | A bad body is 400; otherwise the store holds exactly the checked product and it is returned, or the check's 400 message is given with nothing changed. |
| ProductsHandler.PatchSetsPresentFields | BackEnd/internal/handlers/products.go:119-147 | The patch fails exactly on a price_cents that does not parse, so negative stock or a non-positive price pass; a successful patch sets each present field and keeps each absent one. |
| ProductsHandler.FailedPatchKeepsEarlyEdits | BackEnd/internal/handlers/products.go:120-133 | A failing patch has already assigned name, description and category and nothing else. |
| ProductsHandler.PatchAllowsNegativeStock | BackEnd/internal/handlers/products.go:139-141 | A patch that makes the stock negative goes through. |
| ProductsHandler.HandleUpdate | BackEnd/internal/handlers/products.go:112-153 | A bad body, an unknown id and a failing patch answer 400; the store changes as UpdateProduct with the patch says. |
| ProductsHandler.HandleDelete | BackEnd/internal/handlers/products.go:155-162 | 404 with the store's error for an unknown product, else 204 with only that product removed. |
| ProductsHandler.HandleGet | BackEnd/internal/handlers/products.go:164-172 | 404 with the store's error for an unknown product, else 200 with the stored product. |
| ProductsHandler.Tally | BackEnd/internal/handlers/products.go:202-211 | The tally gives each product the units sold by the counted orders. |
| ProductsHandler.CountedStatuses | BackEnd/internal/handlers/products.go:204-207 | Status matching ignores case: "PAID" and "Completed" count, "pending" and "failed" do not. |
| ProductsHandler.SoldAppend | BackEnd/internal/handlers/products.go:203-211 | Sales over two runs of orders add up. |
| ProductsHandler.SoldPermutation | BackEnd/internal/handlers/products.go:203-211 | Any rearrangement of the same orders sells the same units, so the store's listing order does not matter. |
| ProductsHandler.UncountedSellNothing | BackEnd/internal/handlers/products.go:204-207 | Orders that do not count add nothing, whatever their lines. |
| ProductsHandler.AdminList | BackEnd/internal/handlers/products.go:184-228 | The listing is the search results permuted by the stable sort on units sold then creation time for "bestseller", or creation time alone otherwise; sales are those of the listed orders. |
| ProductsHandler.AdminListIsStableSort | BackEnd/internal/handlers/products.go:213-224 | Every search result appears exactly once, and an earlier product ranks at least as high, ties keeping the search's order. |
| ReviewsHandler.HandleCreate | BackEnd/internal/handlers/reviews.go:26-70 | The new store state and reply are those of the review step, with the store calls in the source's order. |
| ReviewsHandler.ReviewCreatedIff | BackEnd/internal/handlers/reviews.go:26-70 | A review is created exactly for a signed-in caller with a valid body, an order, an account and no earlier review; it is the only change and carries the caller's email and the placeholder photo. |
| ReviewsHandler.NoOrderFirst | BackEnd/internal/handlers/reviews.go:39-44 | A caller without orders gets 403 whether or not the account exists or has reviewed. |
| ReviewsHandler.SecondReviewRefused | BackEnd/internal/handlers/reviews.go:53-58 | After a successful review the same caller's next attempt is refused. |
| ReviewsHandler.HandleList | BackEnd/internal/handlers/reviews.go:73-84 | All reviews, newest first, cut to the parsed limit when it is positive. |
| ReviewsHandler.ListLimits | BackEnd/internal/handlers/reviews.go:74-75 | Without the parameter the limit is 20; for example, "abc" and "" read as 0 and list every review. |
| AdminOrders.NormaliseAccepts | BackEnd/internal/handlers/admin_orders.go:72-86 | A status is accepted exactly when its trimmed lower-cased form is pending, paid, failed, done or completed; an accepted status is one an order may hold. |
| AdminOrders.Canonical | BackEnd/internal/handlers/admin_orders.go:72-86 | A stored status is its own trimmed, lower-cased form. |
| AdminOrders.NormaliseIdempotent | BackEnd/internal/handlers/admin_orders.go:72-86 | Normalising an accepted status again gives it back. |
| AdminOrders.NormaliseTrimsAndFolds | BackEnd/internal/handlers/admin_orders.go:72 | Case and surrounding blanks do not matter. |
| AdminOrders.NormaliseRefuses | BackEnd/internal/handlers/admin_orders.go:73-85 | A blank status is "status required"; a misspelt one is "invalid status". |
| AdminOrders.UpdateStatus | BackEnd/internal/handlers/admin_orders.go:59-94 | An empty id or bad body is 400; only an accepted status reaches the store, "completed" stored as "done"; an unknown order is 400 with the store's error; success is 204. |
| AdminOrders.List | BackEnd/internal/handlers/admin_orders.go:36-57 | One row per stored order, copying its fields, in the store's listing order. |
| AdminOrders.ListCoversOrders | BackEnd/internal/handlers/admin_orders.go:43-54 | Every stored order has exactly one row, which copies it. |
| Auth.Signup | BackEnd/internal/handlers/auth.go:50-92 | The new store state and reply are those of the sign-up step. |
| Auth.SignupCreatesIff | BackEnd/internal/handlers/auth.go:50-92 | An account is created exactly when the body binds, a non-empty confirmation matches, hashing works and the email is free; it is unverified and holds the hash, and its code, good for ten minutes, is the only other change. |
| Auth.SignupKeepsConsistent | BackEnd/internal/handlers/auth.go:68-79 | Sign-up keeps the store consistent. |
| Auth.Login | BackEnd/internal/handlers/auth.go:99-132 | The reply is that of the log-in function and the store does not change. |
| Auth.LoginOutcomes | BackEnd/internal/handlers/auth.go:99-132 | An unknown email and a wrong password get the same 401; a token is issued exactly for a verified account whose password matches, signed with its id and email and admin exactly for role "admin". |
| Auth.VerifyOtp | BackEnd/internal/handlers/auth.go:139-176 | The new store state and reply are those of the code-verification step. |
| Auth.OtpAcceptedIff | BackEnd/internal/handlers/auth.go:139-176 | A code is accepted exactly when it exists, the email is registered, the code is that account's and it has not expired; acceptance verifies the account and removes the code, nothing else. |
| Auth.OtpSingleUse | BackEnd/internal/handlers/auth.go:146-173 | The same code sent again is refused as invalid. |
| Auth.SignupVerifyLogin | BackEnd/internal/handlers/auth.go:50-176 | Sign-up, then the mailed code before it expires, verifies the new account, and then the right password logs in. |
| Auth.ResendOtp | BackEnd/internal/handlers/auth.go:182-214 | The new store state and reply are those of the resend step. |
| Auth.ResendIff | BackEnd/internal/handlers/auth.go:182-214 | A fresh code is stored exactly for a registered, unverified account, and for that account. |
| Auth.VerifyEmail | BackEnd/internal/handlers/auth.go:437-467 | The new store state and reply are those of the e-mail link step. |
| Auth.LinkVerifiesIff | BackEnd/internal/handlers/auth.go:437-467 | The link verifies exactly a live token of an existing account, and the token is then spent. |
| Auth.ResetRevealsRegistration | BackEnd/internal/handlers/auth.go:480-502 | As written, the answer to a reset request tells a registered address from an unknown one. |
| Auth.RequestReset | BackEnd/internal/handlers/auth.go:473-503 | The new store state and reply are those of the corrected reset-request step. |
| Auth.ResetRequestHidesRegistration | BackEnd/internal/handlers/auth.go:480-502 | The answer depends only on whether the body binds; a reset token for the address's own account is stored exactly when the address is registered. |
| Auth.ResetPassword | BackEnd/internal/handlers/auth.go:510-545 | The new store state and reply are those of the password-reset step. |
| Auth.ResetIff | BackEnd/internal/handlers/auth.go:510-545 | A password is replaced exactly for a live token of an existing account with a working hash; only that password changes and the token is spent, so a second use is refused. |
| Auth.SanitizeNextPath | BackEnd/internal/handlers/auth.go:407-415 | The result always starts with "/", sanitising twice is sanitising once, and a path is kept exactly when it starts with "/". |
| Auth.StateRoundTrip | BackEnd/internal/handlers/auth.go:417-435 | Decoding an encoded state gives back the sanitised `next`, for any nonce without a "|". |
| Auth.DecodeStateIsPath | BackEnd/internal/handlers/auth.go:422-435 | Whatever state comes back from the provider, the redirect target starts with "/". |
| Base64Url.DecodeEncode | BackEnd/internal/handlers/auth.go:419-426 | Decoding the unpadded URL-safe encoding gives the bytes back. |
| Base64Url.EncodeAlphabet | BackEnd/internal/handlers/auth.go:419 | The encoding uses only A-Z, a-z, 0-9, "-" and "_". |
| Base64Url.DecodeRefusesOutsideAlphabet | BackEnd/internal/handlers/auth.go:426-429 | Any character outside the alphabet other than a line break, padding included, anywhere in the text makes decoding fail. |
| Base64Url.DecodeRefusesPadding | BackEnd/internal/handlers/auth.go:426-429 | For example, the padded "QQ==" is refused. |
| Base64Url.DecodeTailLength | BackEnd/internal/handlers/auth.go:426-429 | For example, the lone trailing character "Q" is refused, and "QQ" makes one byte. |
| Config.Getenv | BackEnd/internal/config/config.go:40-45 | The variable when it is set and non-empty, the default otherwise; blanks are kept. |
| Config.RequireEnv | BackEnd/internal/config/config.go:47-53 | The trimmed variable when it is not empty, else "required environment variable KEY is not set". |
| Config.LoadOkIff | BackEnd/internal/config/config.go:55-130 | Loading succeeds exactly when the three secrets are set, the backend is known and has its DSN, and SMTP and Google settings are each all set or all empty; the result then satisfies every rule and carries the trimmed secrets. |
| Config.SecretsFirst | BackEnd/internal/config/config.go:84-96 | The secrets are checked first and in order: JWT_SECRET, then ADMIN_EMAIL, then ADMIN_PASSWORD. |
| Config.DefaultBackendNeedsDsn | BackEnd/internal/config/config.go:64 | With STORE_BACKEND unset the backend is "mysql", which then needs MYSQL_DSN. |
| Config.UnknownBackend | BackEnd/internal/config/config.go:99-107 | Any other backend name is refused as written, untrimmed, so " memory" is unknown. |
| Config.ProductionFlag | BackEnd/internal/config/config.go:70 | Production mode is on exactly when MIDTRANS_IS_PRODUCTION is the text "true". |
| Config.EmptyEnvironment | BackEnd/internal/config/config.go:84-88 | With nothing set, loading stops at JWT_SECRET. |
| Session.ReadSessionCases | FrontEnd/src/lib/auth/session.ts:13-24 | A session exists exactly when the token cookie is non-empty; it carries that token, the role cookie or "user", and the email cookie or "". |
| Session.OptionsFacts | FrontEnd/src/lib/auth/session.ts:26-34 | The cookies are site-wide, HTTP-only, lax, secure exactly in production, and live 86400 seconds. |
| Middleware.Outcomes | FrontEnd/src/middleware.ts:7-24 | A protected path without a session goes to log in with `next`; an admin path with a session but without the admin role is refused as admin; everything else passes. |
| Middleware.RawPrefixes | FrontEnd/src/middleware.ts:4-13 | Matching is by raw prefix: "/cartx" and "/administrator" are gated, "/products" is not. |
| Middleware.NextRoundTrip | FrontEnd/src/middleware.ts:16 | The `next` parameter decodes back to the requested path and holds no "&" or "#". |
| UriComponent.DecodeEncode | FrontEnd/src/middleware.ts:16 | Decoding the percent-encoding of an ASCII text gives the text back. |
| UriComponent.EncodeIsSafe | FrontEnd/src/middleware.ts:16 | The encoding holds only unreserved characters and "%" escapes. |
| UriComponent.SlashEscaped | FrontEnd/src/middleware.ts:16 | A slash is escaped: "/a" encodes as "%2Fa". |

## Left out

- Concurrency: the in-memory store's mutex and the goroutines that send mail are not modelled. Each store call is one atomic step.
- Mail sending, the e-mail templates and their SMTP delivery are left out. Hand-offs to the mailer are not visible in the model.
- Payment gateways: the Snap and direct-charge calls are their outcomes, given as parameters. The HTTP exchange with Midtrans is left out.
- bcrypt hashing and comparison, and JWT signing, are parameters.
- `generateOTP`'s randomness, `uuid.NewString` and `time.Now` are parameters.
- Google sign-in is left out because it is mostly calls to the OAuth provider. This covers `GoogleLogin`, `GoogleStart`, `GoogleCallback`, `googleOAuthConfig` and `redirectToFrontend`. Their pure helpers, `sanitizeNext`, `encodeState` and `decodeState`, are modelled.
- Handlers run on the in-memory engine only, because dispatch over both engines would need an interface type. The relational engine's differences are stated as lemmas on its own model.
- Database failures that are not about data are not modelled: connection loss, scan failures on well-typed rows, and schema migration.
- `ORDER BY` is modelled as some ordering by the key; the order among equal keys, such as rows stamped within the same second, is the server's choice.
- The driver's time-zone conversion is not modelled: a time is written and read back as the same instant, to the second.
- SQL collation (MySQL compares strings case-insensitively by default) is not modelled. Equality in the model is exact.
- MemoryStore.InMemoryStore.CreateEmailVerification, MemoryStore.InMemoryStore.CreatePasswordReset and MemoryStore.InMemoryStore.CreateOrder have no failure path. So the handlers' 500 branches after these calls cannot be reached in the model.
- Text.Lower folds ASCII letters only, as the in-memory `toLower` does. `strings.ToLower`'s Unicode folding of non-ASCII letters is not modelled.
- Integer widths: amounts are unbounded integers, so an int64 overflow in the checkout total is not modelled. Parsing is range-checked like `strconv.ParseInt`.
- The binder's validation texts (gin's `ShouldBindJSON`) are inputs. Whether a body binds is a parameter.
- `sort.SliceStable` is modelled by what it guarantees, a stable order. Go's own algorithm is not copied.
- Middleware.OnRequest: the path is taken as ASCII, as a URL's pathname is. `encodeURIComponent`'s UTF-8 escapes of other characters are not modelled.
- UriComponent.Decode handles escapes below 0x80 only. `decodeURIComponent`'s multi-byte UTF-8 sequences are not modelled.
- Config.UnknownBackendMsg writes the backend between plain double quotes. `%q`'s escaping of quotes and control characters inside the name is not modelled.
- Loading the `.env` file and the start-up log line in `Load` are left out.
- Text.Like: a trailing lone backslash in a LIKE pattern is taken as a literal backslash.

## Findings

| source | as written | input that shows it | evidently intended | confidence | as-written member | corrected member |
|---|---|---|---|---|---|---|
| BackEnd/internal/store/mysql.go:717-740 | Inside the loop, `err` from the SELECT's Scan and the stock UPDATE is a new variable that shadows the one the deferred handler reads. An error there returns with the outer `err` still nil, so the transaction COMMITs. | An order of two lines whose second names a product that does not exist: the call reports an error, yet the order header, the first line and its stock decrement are committed. | Any error rolls the whole order back. | not executed | MySql.CreateOrderAsWritten, MySql.PartialCommit | MySql.CreateOrderTx, MySql.CreateOrderSucceeds |
| BackEnd/internal/handlers/auth.go:482-502 | An unknown address gets "Jika email terdaftar, link reset password akan dikirim". A registered one gets "Link reset password telah dikirim ke email Anda". | Two reset requests, one for a registered address and one for an unknown one, get different 200 messages. | The same answer either way, as the comment at line 482 says ("Don't reveal if email exists"). | not executed | Auth.RequestResetAsWritten, Auth.ResetRevealsRegistration | Auth.RequestResetStep, Auth.ResetRequestHidesRegistration |
