# Digital café storefront: cart, checkout and order history

This project models the request handlers of the digital café storefront
(`digitalcafe/core/views.py`). Signed-in customers add products to a cart
and check the cart out into an order. An order is a Transaction with one
LineItem per cart item. Customers can then view their past orders, newest
first.

The database is modelled as a `Store` object with one sequence per table:
products, cart items, transactions and line items. Each table the handlers
write to (cart items, transactions, line items) also has its own next
primary key. The handlers that write to the database are methods
that update these fields in place. The ORM queries they issue (`get`,
`filter`, `order_by`) are functions over one table.

Modules:

- `Records` (records.dfy): the rows (`Product`, `CartItem`, `Transaction`,
  `LineItem`), `Option` and `Result`.
- `Queries` (queries.dfy): `Product.objects.get`,
  `CartItem.objects.filter(user=…)`, the effect of deleting cart items by
  key, and `LineItem`s by transaction. It also states when a table is well
  formed: keys are distinct and below the next key, and foreign keys point
  at existing rows.
- `Checkout` (checkout.dfy): the line items a checkout writes for a
  snapshot of the cart, and the conservation property.
- `History` (history.dfy): `order_by('-created_at')` as a sort by creation
  time, newest first.
- `Views` (views.dfy): the login decision, the `Store` with its handlers,
  and two scenario methods: adding the same product twice, and checking
  out an empty cart.

The clock (`datetime.now`) and the authentication backend (`authenticate`)
are parameters. The signed-in user is a parameter of each handler.

## Model

| member | source | states |
|---|---|---|
| Queries.FindProduct | digitalcaferoot/digitalcafe/core/views.py:35 | The product returned is in the catalogue and has the requested id. None is returned exactly when no product has that id. |
| Queries.CartOf | digitalcaferoot/digitalcafe/core/views.py:68-70 | A user's cart holds exactly the cart rows that belong to that user, each taken from the table (sub-multiset). |
| Queries.CartOfCounts | digitalcaferoot/digitalcafe/core/views.py:68-70 | A user's cart holds each of that user's rows exactly as often as the table does, and no row of another user. |
| Queries.OwnedBy | digitalcaferoot/digitalcafe/core/views.py:94 | The filter keeps exactly the transactions of the given user, each as often as in the table, and none of another user. |
| Queries.Remaining | digitalcaferoot/digitalcafe/core/views.py:87 | The cart table after deleting rows by key: no remaining row has a deleted key, and the table does not grow. RemainingRows gives the exact contents. |
| Queries.RemainingRows | digitalcaferoot/digitalcafe/core/views.py:87 | After deleting cart items by key, exactly the rows whose key was not deleted remain. Deleting keeps the keys strictly ascending. |
| Queries.OthersOfRows | digitalcaferoot/digitalcafe/core/views.py:75-87 | Removing a user's rows keeps exactly the rows of all other users. |
| Queries.AppendCartItem | digitalcaferoot/digitalcafe/core/views.py:37-38 | Saving a cart item with the next key and an existing product keeps the cart table well formed. |
| Queries.DeleteCartItems | digitalcaferoot/digitalcafe/core/views.py:87 | Deleting cart items keeps the cart table well formed. |
| Queries.AppendTransaction | digitalcaferoot/digitalcafe/core/views.py:78-79 | Saving a transaction with the next key keeps the transaction table well formed. Existing line items still point at existing transactions, and the new key can now be referenced. |
| Queries.CartKeyIdentifies | digitalcaferoot/digitalcafe/core/views.py:87 | In a table with distinct keys, a key identifies one row. So deleting by key removes exactly that row. |
| Queries.KeysMembers | digitalcaferoot/digitalcafe/core/views.py:80-87 | The keys of a snapshot are exactly the keys of its rows. |
| Queries.DeleteStep | digitalcaferoot/digitalcafe/core/views.py:80-87 | Deleting the first i snapshot items, then item i, equals deleting the first i+1 items. |
| Queries.OwnKeys | digitalcaferoot/digitalcafe/core/views.py:75-87 | A row's key is among the keys of the user's cart snapshot exactly when the row belongs to that user. |
| Queries.CartAfterDeletingOwn | digitalcaferoot/digitalcafe/core/views.py:75-87 | Deleting every item of a user's cart snapshot leaves exactly the other users' rows. The user's cart is then empty, and every other user's cart is unchanged. |
| Queries.RemainingNone | digitalcaferoot/digitalcafe/core/views.py:80 | Deleting no keys leaves the table as it was. |
| Queries.RemainingTwice | digitalcaferoot/digitalcafe/core/views.py:80-87 | Two rounds of deletions equal one deletion of the union of their keys. |
| Queries.RemainingOwnKeys | digitalcaferoot/digitalcafe/core/views.py:75-87 | Deleting a set of keys that matches exactly one user's rows equals filtering out that user. |
| Queries.CartOfAppend | digitalcaferoot/digitalcafe/core/views.py:37-38 | A new cart row is added to the end of its owner's cart. Every other user's cart is unaffected. |
| Queries.OthersOfKeepsCarts | digitalcaferoot/digitalcafe/core/views.py:75-87 | Removing one user's rows leaves every other user's cart unchanged. |
| Queries.OthersOfEmptiesCart | digitalcaferoot/digitalcafe/core/views.py:75-87 | Removing one user's rows leaves that user's cart empty. |
| Queries.LinesOfAppend | digitalcaferoot/digitalcafe/core/views.py:81-86 | Filtering line items by transaction distributes over concatenation. |
| Queries.LinesOfNone | digitalcaferoot/digitalcafe/core/views.py:78-86 | If no line item references a transaction, filtering by that transaction yields nothing. |
| Queries.LinesOfAll | digitalcaferoot/digitalcafe/core/views.py:81-86 | If every line item references the transaction, filtering by it keeps them all. |
| Checkout.LinesFor | digitalcaferoot/digitalcafe/core/views.py:80-86 | One line item per snapshot item, in snapshot order. Each references the transaction, takes the next key in turn, and copies the item's product and quantity. |
| Checkout.LinesForSnoc | digitalcaferoot/digitalcafe/core/views.py:80-86 | One more loop iteration appends the line item for the next snapshot item. |
| Checkout.Conservation | digitalcaferoot/digitalcafe/core/views.py:75-86 | The (product, quantity) pairs of the line items equal those of the cart snapshot, in order, and therefore also as multisets. |
| Checkout.AppendLines | digitalcaferoot/digitalcafe/core/views.py:80-86 | Saving the checkout's line items keeps the line item table well formed. |
| Checkout.NewTransactionLines | digitalcaferoot/digitalcafe/core/views.py:78-86 | The line items of the new transaction are exactly those the checkout wrote. No earlier line item references it. |
| History.Insert | digitalcaferoot/digitalcafe/core/views.py:94 | Inserting into a newest-first list keeps it newest-first and adds exactly the one transaction. |
| History.SortNewestFirst | digitalcaferoot/digitalcafe/core/views.py:94 | The result is ordered by creation time, newest first, and is a permutation of the input. |
| History.HistoryOf | digitalcaferoot/digitalcafe/core/views.py:94 | The history is ordered newest first and holds exactly the user's transactions, each as often as in the table. |
| Views.LoginPost | digitalcaferoot/digitalcafe/core/views.py:54-62 | If authentication fails, the session is unchanged. If it succeeds, the session is signed in as the returned user. |
| Views.LoginOnlyAsAuthenticated | digitalcaferoot/digitalcafe/core/views.py:54-62 | An anonymous session ends signed in as u exactly when the backend returned u. After a failure it stays anonymous. |
| Views.Store.AddToCart | digitalcaferoot/digitalcafe/core/views.py:32-44 | An unknown product id fails with ProductDoesNotExist and writes nothing. Otherwise exactly one new cart item is appended, with the next key, the user, the product and the quantity. Existing rows, including ones for the same product, are unchanged. Only the user's cart grows, and the store stays well formed. |
| Views.Store.CartListing | digitalcaferoot/digitalcafe/core/views.py:66-73 | The listing holds exactly the signed-in user's cart items. |
| Views.Store.Checkout | digitalcaferoot/digitalcafe/core/views.py:74-89 | Exactly one transaction is appended: the user's, stamped now, with the next key. The old transactions stay as they were. The line items of the new transaction are the snapshot's items in order, appended after the old ones. The transaction key advances by one and the line item key by the number of snapshot items. The user's cart becomes empty, and every other user's cart and row is unchanged. The store stays well formed. |
| Views.Store.MoveToLineItems | digitalcaferoot/digitalcafe/core/views.py:80-87 | The loop appends one line item per snapshot item, in order, and deletes each item by key. No other table changes. |
| Views.Store.SaveTransaction | digitalcaferoot/digitalcafe/core/views.py:77-79 | Saves one transaction with the next key, the user and the timestamp. The store stays well formed. |
| Views.Store.TransactionHistory | digitalcaferoot/digitalcafe/core/views.py:92-94 | The history page lists exactly the user's transactions, each as often as in the table, newest first by creation time. |
| Views.CheckoutEmptyCart | digitalcaferoot/digitalcafe/core/views.py:74-89 | Checking out an empty cart still saves one transaction for the user, stamped now, and writes no line items. The store stays well formed. |
| Views.AddTwice | digitalcaferoot/digitalcafe/core/views.py:32-44 | Adding the same product twice leaves two distinct cart items with the submitted quantity each. They are not merged into one. |

## Left out

- Templates, the messages framework and redirects: they render output and do not change the tables.
- The GET branch of `product_detail` and the `index` page only read and render. The index page is not modelled; the GET lookup is the same `FindProduct`.
- `login_required`: the signed-in user is a parameter of every handler. The redirect of anonymous requests is not modelled.
- The authentication backend and Django's `login` internals are not modelled. `authenticate` is an `Option<UserId>` parameter, and a signed-in session is just the user id.
- `datetime.now(tz=utc)` is the `now` parameter of `Checkout`. Time zones are not modelled, and timestamps are integers.
- Views.Store.AddToCart: the quantity is already an integer. Text-to-integer conversion is not modelled, and neither is its failure on non-numeric text. The source applies no range check, so the model accepts any integer, including zero and negatives.
- Views.Store.AddToCart: the product id is already a natural number. In the source, `request.POST['product_id']` is text: a missing field raises KeyError, and text that is not a number makes `Product.objects.get` raise ValueError. Neither failure is modelled.
- Views.Store.AddToCart: the product comes from the form's `product_id`. The URL's `product_id` argument is ignored in the POST branch, as in the source.
- Views.Store.AddToCart: an unknown product raises `Product.DoesNotExist` in the source, which becomes a server error. The model returns `Err(ProductDoesNotExist)` with no write.
- Views.LoginPost: a failed login leaves the session as it was. The source does not call `login` then, so an already signed-in session stays signed in. No new session is ever established on failure.
- Views.Store.Checkout: the snapshot is taken at the start. In the source, the queryset is lazy and is evaluated when the loop starts, after the transaction is saved. Saving a transaction does not touch the cart table, so the rows are the same.
- Views.Store.Checkout: the handler runs as one atomic step. Concurrent requests and a failure partway through the loop are not modelled. Without a database transaction, such a failure would leave some cart items moved and others not.
- `CartItem.objects.filter` has no `order_by`, so the database order is unspecified. The model uses table order, which is insertion order.
- History.SortNewestFirst: the relative order of transactions with equal creation times is not fixed. `order_by('-created_at')` leaves ties to the database, so the model only promises non-increasing creation times, not strictly decreasing ones.
- The models module (`core/models.py`) is not part of this model. Row fields and foreign keys are taken from how the views use them. Primary keys are an auto-incremented counter per table, starting at 1.
- `logout`, which the source imports, is never called by these views.
