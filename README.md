# Quick_cart storefront: cart, order and wishlist bookkeeping in Dafny

This project models the bookkeeping in the `Click_cart` views of the Quick_cart
Django storefront, with the ORM calls stripped away. The views modelled are:

- the home page's product filter;
- the cart and checkout totals;
- adding to the cart, changing a quantity and removing a row;
- committing an order together with its bill;
- the order history and the order lookup of the bill and invoice pages;
- adding to and removing from the wishlist.

The database tables are modelled as sequences of rows in ascending
primary-key order. Next to each table is the id its next insert receives, and
ids are never reused.

The files are:

- `models.dfy` (module `Models`): the row types and the product lookup.
- `catalog.dfy` (module `Catalog`): the home page's trending and search filters. The search is an ASCII case-insensitive substring test. That is what `icontains` does on SQLite, the database the settings configure.
- `ledger.dfy` (module `Ledger`): the cart table as a ledger. It covers:
  - the owner filter;
  - the two ways the source sums a cart;
  - the ghost map `Quantities` from (user, product id) to quantity;
  - how each row operation changes the table, the map and each user's total.
- `wishlist.dfy` (module `Wishlist`): the wishlist table, with the set `Saved` of saved (user, product id) pairs.
- `shop.dfy` (module `Shop`): the view logic.
  - The read-only views are functions over the tables.
  - The views that write rows are methods of the class `Store`, which holds every table. Their `modifies` frames name only the tables they change.
  - `Store.Valid()` is the store invariant that every view keeps. It requires ascending and fresh ids, and one cart row and one wishlist row per (user, product) pair. Quantities are at least 1, rows refer to catalog products, and the i-th bill belongs to the i-th order.

The methods' contracts state their whole new state. The table-level
properties are stated by lemmas about the table functions. Examples are the
ledger update, each user's total, and "every other row is unchanged".

The model rests on these assumptions:

- A new cart row gets quantity 1.
- `CartItem.total_price()` is price times quantity.
- Prices are whole numbers of minor currency units.

## Model

| member | source | states |
|---|---|---|
| Models.FindProduct | Quick_cart/Click_cart/views.py:61 | The product found has the requested id and is in the catalog. A miss means no catalog product has that id, so the view answers 404. |
| Models.TotalPrice | Quick_cart/Click_cart/views.py:112 | definition: `CartItem.total_price()`, assumed to be price times quantity. |
| Catalog.TrendingRequested | Quick_cart/Click_cart/views.py:29 | definition: the trending restriction applies exactly when the `trending` parameter is the string "1". |
| Catalog.IsTrending | Quick_cart/Click_cart/views.py:30-35 | definition: a product is trending when its category name is one of Ovens, Coolers, Cameras, Earbuds, Watches or Mobiles, compared exactly. |
| Catalog.QueryRequested | Quick_cart/Click_cart/views.py:37 | definition: the search applies exactly when `q` is present and not the empty string, Python's truthiness of a string. |
| Catalog.IContains | Quick_cart/Click_cart/views.py:39-40 | definition: `icontains`, the query occurring in the text once both are ASCII lower-cased. |
| Catalog.MatchesQuery | Quick_cart/Click_cart/views.py:38-41 | definition: the product's name or its category name contains the query, case-insensitively. |
| Catalog.Contains | Quick_cart/Click_cart/views.py:39-40 | The substring test is true exactly when the needle occurs at some position of the text. |
| Catalog.Keep | Quick_cart/Click_cart/views.py:30-41 | A queryset filter keeps exactly the rows satisfying the condition. It never produces more rows than its input. |
| Catalog.Home | Quick_cart/Click_cart/views.py:27-41 | A product is listed iff it is in the catalog, is in one of the six trending categories when `trending` is "1", and matches the query in name or category when the query is non-empty. With neither filter every product is listed. |
| Catalog.HomeIgnoresQueryCase | Quick_cart/Click_cart/views.py:39-40 | Searching for a query and for its lower-case form lists the same products. |
| Ledger.OwnedBy | Quick_cart/Click_cart/views.py:77 | The filtered rows are exactly the user's rows. |
| Ledger.NotOwnedBy | Quick_cart/Click_cart/views.py:139 | The rows surviving the delete are exactly the other users' rows. |
| Ledger.CartSum | Quick_cart/Click_cart/views.py:78 | definition: the cart page's sum of price times quantity over the rows given, 0 for no rows. |
| Ledger.CheckoutSum | Quick_cart/Click_cart/views.py:112 | definition: the checkout page's and the order's sum of `total_price()` over the rows given (line 128 computes the same sum). |
| Ledger.CartSumIsCheckoutSum | Quick_cart/Click_cart/views.py:112 | The checkout sum of `total_price()` equals the cart page's sum of price times quantity, on every list of rows. |
| Ledger.CartSumPermutation | Quick_cart/Click_cart/views.py:78 | The cart total does not depend on the order in which the rows are listed. |
| Ledger.CartSumBounds | Quick_cart/Click_cart/views.py:78 | With positive quantities the total is non-negative and at least the price of each row's product. |
| Ledger.CartSumSplitsByOwner | Quick_cart/Click_cart/views.py:77-78 | The whole table's total is one user's total plus everyone else's. |
| Ledger.NotOwnedByClears | Quick_cart/Click_cart/views.py:139 | After the delete the user owns no rows. Every other user owns exactly the rows they owned before. |
| Ledger.NotOwnedByKeepsIdsAscending | Quick_cart/Click_cart/views.py:139 | Deleting one user's rows keeps ids ascending. |
| Ledger.NotOwnedByKeepsKeysUnique | Quick_cart/Click_cart/views.py:139 | Deleting one user's rows keeps the (user, product) pairs unique. |
| Ledger.DeleteKeepsShape | Quick_cart/Click_cart/views.py:92 | Deleting one row keeps ids ascending and pairs unique. |
| Ledger.OwnerSumAfterSet | Quick_cart/Click_cart/views.py:94-95 | Changing a row's quantity moves its owner's total by the difference of the two line totals. No other user's total changes. |
| Ledger.OwnerSumAfterDelete | Quick_cart/Click_cart/views.py:92 | Deleting a row takes its line total off its owner's total. No other user's total changes. |
| Ledger.OwnerSumAfterAppend | Quick_cart/Click_cart/views.py:62-65 | Creating a row adds its line total to its owner's total only. |
| Ledger.FindOwnedItem | Quick_cart/Click_cart/views.py:88 | The row found has the requested id and belongs to the requesting user. A miss means no row matches both, including a row of another user. |
| Ledger.FindByKey | Quick_cart/Click_cart/views.py:62-65 | The `get_or_create` lookup finds the row of the (user, product) pair. A miss means no row carries that pair. |
| Ledger.QuantitiesAfterSet | Quick_cart/Click_cart/views.py:94-95 | Setting row i's quantity to q changes the ledger map at that row's pair only, to q. |
| Ledger.QuantitiesAfterDelete | Quick_cart/Click_cart/views.py:92 | Deleting row i removes exactly its pair from the ledger map. |
| Ledger.QuantitiesAfterAppend | Quick_cart/Click_cart/views.py:62-65 | Creating a row for a new pair adds exactly that pair, with its quantity. |
| Ledger.QuantitiesAfterClear | Quick_cart/Click_cart/views.py:139 | Deleting a user's rows drops exactly that user's pairs from the ledger map. |
| Wishlist.FindWish | Quick_cart/Click_cart/views.py:210 | The `get_or_create` lookup finds the row of the pair. A miss means the pair is not saved. |
| Wishlist.FindOwnedWish | Quick_cart/Click_cart/views.py:224 | The row found has the id and belongs to the user. A miss means no row matches both. |
| Wishlist.Unmatched | Quick_cart/Click_cart/views.py:224 | The rows surviving `filter(id=id, user=u).delete()` are exactly those not matching both conditions. |
| Wishlist.UnmatchedWhenAbsent | Quick_cart/Click_cart/views.py:224 | When no owned row has the id, the delete changes nothing. |
| Wishlist.UnmatchedWhenFound | Quick_cart/Click_cart/views.py:224 | Since ids are unique, the delete removes exactly the one matching row and keeps the others in order. |
| Wishlist.WishDeleteKeepsShape | Quick_cart/Click_cart/views.py:224 | Deleting a wishlist row keeps ids ascending and pairs unique. |
| Wishlist.SavedAfterDelete | Quick_cart/Click_cart/views.py:224 | Deleting a row removes exactly its pair from the saved set. |
| Wishlist.WishesOf | Quick_cart/Click_cart/views.py:216 | The wishlist page lists exactly the user's rows. |
| Shop.CartView | Quick_cart/Click_cart/views.py:76-82 | The cart page shows exactly the user's rows. An empty cart totals 0. |
| Shop.CheckoutView | Quick_cart/Click_cart/views.py:110-116 | The checkout page shows exactly the user's rows. |
| Shop.CartViewIsCheckoutView | Quick_cart/Click_cart/views.py:111-112 | The cart and checkout pages show the same rows and the same total. |
| Shop.CartTotalBounds | Quick_cart/Click_cart/views.py:78 | Under the invariant a user's total is non-negative and covers the price of every product in their cart. |
| Shop.OrderHistory | Quick_cart/Click_cart/views.py:194-196 | The orders page lists exactly the user's orders. |
| Shop.FindOrder | Quick_cart/Click_cart/views.py:201 | The order found has the requested id. A miss means no order has it. There is no owner check. |
| Shop.FindOrderFindsEveryOrder | Quick_cart/Click_cart/views.py:201 | Every stored order is found under its own id, whichever user asks. |
| Shop.InvoicePdf | Quick_cart/Click_cart/views.py:231-238 | Without a renderer the answer is the 503 case, whatever the id. With one, a missing id is not found and an existing id yields that order. |
| Shop.RequestedQuantity | Quick_cart/Click_cart/views.py:89 | definition: `request.POST.get('quantity', 1)` after parsing: the posted integer, or 1 when the field is absent. |
| Shop.CartAfterAdd | Quick_cart/Click_cart/views.py:62-69 | definition: the cart table after `add_to_cart`: the user's row for the product gains one unit, or a row with the next id and quantity 1 is appended. `AddKeepsCartTable`, `AddLedger` and `AddTotals` state its properties. |
| Shop.SetQuantityEffects | Quick_cart/Click_cart/views.py:94-95 | A positive new quantity keeps the cart invariant. It updates the ledger at that pair only and moves only the owner's total. |
| Shop.DeleteEffects | Quick_cart/Click_cart/views.py:92 | Deleting a row keeps the invariant, drops the pair from the ledger, takes the line total off the owner's total and changes no other user's total. |
| Shop.AppendEffects | Quick_cart/Click_cart/views.py:62-65 | A fresh row for a new pair keeps the invariant with the next id used up. It adds the pair to the ledger and adds its line total to the owner's total only. |
| Shop.ClearEffects | Quick_cart/Click_cart/views.py:139 | Deleting a user's rows keeps the invariant and drops exactly their ledger pairs. It empties their cart page and leaves every other user's page as it was. |
| Shop.AddKeepsCartTable | Quick_cart/Click_cart/views.py:62-69 | The cart after `add_to_cart` keeps the invariant, so no duplicate pair and no quantity below 1 appear. A new row uses up the next id. |
| Shop.AddLedger | Quick_cart/Click_cart/views.py:62-69 | `add_to_cart` raises the pair's quantity by exactly 1, or creates the pair with quantity 1. No other pair changes. |
| Shop.AddTotals | Quick_cart/Click_cart/views.py:62-69 | `add_to_cart` adds exactly the product's price to the user's total. No other user's total changes. |
| Shop.OrdersAppend | Quick_cart/Click_cart/views.py:130-136 | An order created under the next id keeps the order ids ascending and below the new next id. |
| Shop.BillsAppend | Quick_cart/Click_cart/views.py:138 | A bill created under the next id keeps the bill ids ascending and below the new next id. |
| Shop.CommitKeepsOrderTables | Quick_cart/Click_cart/views.py:130-138 | Appending an order and its bill under fresh ids keeps the order and bill tables' invariant. |
| Shop.OneBillPerOrder | Quick_cart/Click_cart/views.py:138 | Under the invariant no two bills belong to the same order. |
| Shop.WishAppendEffects | Quick_cart/Click_cart/views.py:210 | Saving a new pair under a fresh id keeps the wishlist invariant and adds exactly that pair to the saved set. |
| Shop.WishRemoveEffects | Quick_cart/Click_cart/views.py:224 | The owner-scoped delete keeps the wishlist invariant. With no owned row under the id, nothing is removed. Otherwise exactly that row and its saved pair go. |
| Shop.Store.SaveQuantity | Quick_cart/Click_cart/views.py:94-95 | Row i gets the new quantity and no other row changes. The ledger and the totals move as `SetQuantityEffects` states. |
| Shop.Store.DeleteItem | Quick_cart/Click_cart/views.py:92 | Row i goes and no other row changes. The ledger and the totals move as `DeleteEffects` states. |
| Shop.Store.AddToCart | Quick_cart/Click_cart/views.py:60-72 | A missing product answers 404 and changes nothing. Otherwise the cart becomes `CartAfterAdd` of the old cart: the existing row gains one unit, or a new row with the next id and quantity 1 is appended. The invariant holds afterwards. |
| Shop.Store.UpdateQuantity | Quick_cart/Click_cart/views.py:86-97 | A non-POST, or a row that is missing or owned by another user, changes nothing; the latter answers 404. Otherwise: a quantity of 0 or less deletes the row, and any other value becomes its quantity. The ledger, the user's total and the untouched totals of other users are stated in both cases. |
| Shop.Store.RemoveFromCart | Quick_cart/Click_cart/views.py:101-104 | A row that is missing or owned by another user answers 404 and changes nothing. Otherwise exactly that row is deleted, with the ledger and the totals stated. |
| Shop.Store.CreateOrder | Quick_cart/Click_cart/views.py:130-138 | Exactly one order with the given fields and exactly one bill for it are appended, under the tables' next ids. |
| Shop.Store.ClearCart | Quick_cart/Click_cart/views.py:139 | Exactly the user's rows are deleted. Their ledger pairs go, their cart page becomes empty with total 0, and every other user's page is unchanged. |
| Shop.Store.PlaceCartOrder | Quick_cart/Click_cart/views.py:120-144 | An order is placed iff the request is a POST, the cart is non-empty and all three form fields are present; otherwise nothing is written. When placed: one order with the pre-commit cart total and the submitted name, phone and address; one bill for it; the user's cart emptied; other users' carts unchanged. |
| Shop.Store.AddToWishlist | Quick_cart/Click_cart/views.py:208-211 | A missing product answers 404. Otherwise the pair is saved afterwards. An already-saved pair leaves the table unchanged, which makes adding idempotent. A new pair appends one row with the next id. |
| Shop.Store.RemoveFromWishlist | Quick_cart/Click_cart/views.py:223-225 | The table becomes the rows not matching both id and user. That is nothing removed when no owned row matches, and exactly that row and its pair otherwise. |
| Shop.CartScenario | Quick_cart/Click_cart/views.py:60-69 | Adding a widget twice and a gadget once gives two rows: the widget's with quantity 2 and the gadget's with quantity 1. The cart totals 25.00. |
| Shop.ExampleCartTotal | Quick_cart/Click_cart/views.py:78 | Two widgets at 10.00 and one gadget at 5.00 total 25.00 on the cart page. |
| Shop.CheckoutScenario | Quick_cart/Click_cart/views.py:120-144 | Ordering that cart places one order of 25.00 with the submitted name, phone and address, creates exactly one bill for it and leaves the user's cart empty. |

## Left out

- Authentication (`register`, `login_user`, `logout_user` and `@login_required`) is left out because it is Django's session and password machinery. The requesting user is a parameter of every view that reads it.
- `product_detail` is left out beyond its lookup, which `Models.FindProduct` models. Rendering the page is presentation.
- Templates, flash messages, redirect targets and HTTP responses are left out. They are presentation. Each view that can end in more than one way returns a small outcome datatype instead: done, not found, renderer unavailable, and similar.
- PDF generation in `invoice_pdf` is only modelled as its guard and order lookup (`Shop.InvoicePdf`). Rendering by the foreign library and the attachment file name are left out. Whether the renderer is installed is a parameter.
- Unparsable `quantity` text in `update_quantity` is left out; the view's `int(...)` would raise. The field is taken as an already-parsed optional integer, and its absence gives 1.
- A missing `name`, `phone` or `address` field in `place_cart_order` is modelled only as the outcome `MissingField`, with nothing written. In the source, `request.POST['name']` raises `MultiValueDictKeyError`, a `KeyError`, which Django answers with a 500 server error; that response is left out.
- Transactions and concurrent requests are left out. Each view is one sequential step. In particular no atomicity of `place_cart_order` against other requests is claimed; the source uses no transaction.
- Shop.Store.UpdateQuantity: quantities are unbounded integers in the model. The SQLite INTEGER column holds only signed 64-bit values, so a posted quantity above 2^63 - 1 makes `cart_item.save()` fail with a 500 error and leaves the row as it was. That range and that error on save are not modelled; the model stores any positive integer and answers `Done`. A quantity of 0 or less, however large in magnitude, deletes the row without saving, in the source and in the model alike.
- Shop.Store.AddToCart: quantities are unbounded integers in the model. Incrementing a row already at 2^63 - 1 makes `cart_item.save()` fail in the source, and the row keeps its quantity. That 64-bit range and that error on save are not modelled.
- Timestamps and any other model fields not used by these views are left out. `models.py` is not part of this model.
- The default quantity of 1 and `total_price()` as price times quantity are assumptions, because `models.py` is not part of this model.
- Decimal prices are left out. Prices are non-negative integers in minor units, so sums are exact.
- Case folding is ASCII only, as in SQLite's `LIKE`. Folding beyond ASCII is left out.
- `bill_view` and `invoice_pdf` look orders up by id without an owner check. The model keeps this as written (`Shop.FindOrder`, `Shop.FindOrderFindsEveryOrder`) and adds none.
- Cascading deletes and other writes to the product and category tables are left out; no view here performs them. The catalog is a constant of the store.
- `Quick_cart/Quick_cart/settings.py` and `Quick_cart/Click_cart/urls.py` are left out. They are configuration and routing, with no logic.
