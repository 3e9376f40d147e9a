# Sajilo-mart cart and checkout, modelled in Dafny

This project models the cart and order logic of the Sajilo-mart storefront's
Flask views (`website/views.py`). That logic is a small state machine over three
tables: Product, Cart and Order. The views covered are:

- `add_to_cart`: look up the customer's row for a product, then raise its quantity or insert a new row.
- `plus_cart`, `minus_cart` and `remove_cart`: change or delete a cart row chosen by its key alone.
- `show_cart` and `_cart_amount_json`: the cart summary (quantity, amount, and total = amount + 200).
- The cart-to-order conversion in `verify_khalti`. After the payment gateway confirms, it writes one paid
  Order per cart row, lowers stock, deletes the rows and commits once.

Files, one module each:

- `rows.dfy` (`Rows`): the row shapes from `website/models.py`, the key lookup, and the
  key-assignment rule. A table is a sequence of rows with strictly ascending integer keys. A new row
  gets the last key plus one, which is the store's "largest key plus one" rule.
- `cart.dfy` (`Cart`): the customer filter, the JSON summary and the cart page. It also has the row
  updates the plus, minus, remove and add views apply, and lemmas on what each update does to a
  customer's summary and to (customer, product) uniqueness.
- `checkout.dfy` (`Checkout`): the conversion loop as the method `Convert`. The loop runs on the
  session's pending state and returns it, or None when an iteration raises. It is specified by the
  functions `Debited` and `OrdersFor` here and `OtherRows` from `cart.dfy`. The lemmas cover quantity
  conservation, stock accounting, untouched products, and the emptied cart.
- `store.dfy` (`Store`): the class `Database` holds the three tables as fields. It has one method per
  view that writes them. A commit is a single assignment of the fields.

Modelling decisions:

- The logged-in customer is the parameter `customer`.
- The gateway's answer is the boolean `verified`. It stands for `status_code == 200` together with an
  `idx` in the reply, and any network exception counts as false.
- Prices are integers in the smallest currency unit, not floats. `in_stock` is a nullable integer.
- Python exceptions are modelled as outcomes, not as preconditions:
  - A missing cart row in plus, minus or remove raises before the commit, so nothing changes and the
    view fails.
  - A missing product when inserting a cart row also changes nothing. That error is raised outside
    the view's handlers, so add-to-cart ends with `Crashed`, not with its failure message.
  - A missing product, or a NULL stock, inside the checkout loop abandons the whole pending state.
    The view answers `success: False`.
  - A missing product while building a summary or a flash message raises after the commit. The
    change stays and the response fails.
- Query results come back in key order. So `.first()` is the row with the lowest key, and the
  conversion creates orders in the cart rows' key order.
- `db.session.delete(item)` removes that row object. Keys are unique, so it is modelled as removing
  the equal row value.

Behaviour of the code that the model keeps as written:

- Plus, minus and remove look the row up by its key alone. They do not check that it belongs to the
  logged-in customer.
- Minus has no lower bound, so a quantity can reach zero or go below it.
- The total is always the amount plus a fixed 200.
- Checkout lowers stock with no floor, so stock may go negative.

## Model

| member | source | states |
|---|---|---|
| `Rows.NextId` | website/models.py:76 | a new key is larger than every key in an ascending key column and keeps it ascending |
| `Cart.CustomerRows` | website/views.py:49 | a row is in the customer's cart exactly when it is in the table and its customer link is that customer |
| `Cart.FindPair` | website/views.py:24 | returns the earliest row whose (customer, product) pair matches; None exactly when no row matches |
| `Cart.FindCart` | website/views.py:57 | returns a row carrying the requested key; None exactly when no row has it |
| `Cart.CartAmountJson` | website/views.py:80-87 | a summary exists exactly when every row of the customer has a product; quantity is the sum of the customer's row quantities (`CartQuantity`), amount is the sum of their price × quantity charges (`Amount`), total = amount + 200; an empty cart gives 0 / 0 / 200 |
| `Cart.SumsAppend` | website/views.py:82-84 | both sums behind the summary, item count and amount, split over any two parts of the rows, so the summary is additive in the rows |
| `Cart.SingleRowSums` | website/views.py:82-84 | one row contributes its quantity to the item count and its price × quantity to the amount, and is priced exactly when its product exists |
| `Cart.ShowCart` | website/views.py:46-51 | the page shows the customer's rows with the same amount and total as the JSON summary, and fails exactly when the summary does |
| `Cart.ForeignRowsInvisible` | website/views.py:81-87 | rows of other customers appended to the table never change a customer's summary |
| `Cart.Bumped` | website/views.py:58 | row i's quantity moves by delta, its key, customer and product stay, and every other row is unchanged; pair uniqueness is kept |
| `Cart.RemoveAt` | website/views.py:76 | one row fewer; later rows move down by one; ascending keys and pair uniqueness are kept |
| `Cart.RemoveExactlyThatRow` | website/views.py:75-77 | with unique keys, the rows that remain are exactly the old rows with a different key |
| `Cart.Inserted` | website/views.py:36-39 | exactly one new row is appended, with quantity 1 and a fresh key; pair uniqueness holds when the pair was absent |
| `Cart.AddTwiceOneRow` | website/views.py:23-39 | adding a product twice to a cart without it yields one row for the pair with quantity 2, not two rows |
| `Cart.BumpEffect` | website/views.py:57-60 | raising or lowering an owned row by delta moves the owner's summary quantity by delta and amount by delta × price; other customers' rows are untouched |
| `Cart.RemoveEffect` | website/views.py:75-78 | deleting an owned row lowers the owner's quantity by its quantity and amount by its charge; other customers' rows are untouched |
| `Cart.InsertEffect` | website/views.py:36-40 | inserting a row raises its owner's quantity by 1 and amount by the product's price; other customers' rows are untouched |
| `Cart.OtherRowsAscending` | website/views.py:123 | deleting the customer's rows keeps the remaining keys ascending |
| `Cart.OtherRowsUnique` | website/views.py:123 | deleting the customer's rows keeps the remaining (customer, product) pairs unique |
| `Checkout.Convert` | website/views.py:110-123 | the loop succeeds exactly when every row's product exists with a non-NULL stock; then the pending state holds the debited products, only other customers' rows, and the old orders followed by one new order per row |
| `Checkout.Debited` | website/views.py:121-122 | every product keeps its key, name and prices; a non-NULL stock drops by the rows' demand for that product, and a NULL stock stays NULL |
| `Checkout.NoDemand` | website/views.py:121-122 | rows for other products take nothing from a product's stock |
| `Checkout.OrdersFor` | website/views.py:112-120 | one order per row, in loop order, with consecutive keys; each copies its row's quantity, customer and product, takes the product's current price, and carries status Paid and the payment token |
| `Checkout.Discard` | website/views.py:123 | a row remains exactly when it was present and is not among the deleted rows |
| `Checkout.DiscardOwned` | website/views.py:123 | deleting exactly the customer's rows, one by one, leaves the other customers' rows in order |
| `Checkout.NewOrdersAscending` | website/views.py:112-120 | the new orders take keys above every existing order, in loop order |
| `Checkout.OrdersConserveQuantity` | website/views.py:111-120 | the orders created carry in total the quantity the cart rows carried |
| `Checkout.UntouchedProduct` | website/views.py:121-122 | a product that no converted row refers to keeps its stock |
| `Checkout.StockAccounting` | website/views.py:121-122 | the catalogue loses exactly as many units of stock as the converted rows order, with no floor at zero |
| `Checkout.CartEmptied` | website/views.py:110-124 | after conversion the customer has no rows and an empty summary; every other customer's rows are as before |
| `Store.Database.AddToCart` | website/views.py:20-44 | an existing row for the pair gains exactly 1 and nothing is inserted; otherwise one row with quantity 1 is inserted, or, when the product is missing, nothing changes and the view ends in an unhandled error; pair uniqueness is kept |
| `Store.Database.PlusCart` | website/views.py:53-60 | the row with the key, whoever owns it, gains exactly 1, all else is unchanged, and the reply is the new summary; a missing key changes nothing |
| `Store.Database.MinusCart` | website/views.py:62-69 | the row with the key, whoever owns it, loses exactly 1 and is kept at any quantity; all else is unchanged |
| `Store.Database.RemoveCart` | website/views.py:71-78 | exactly the row with the key, whoever owns it, is deleted; every other row is kept |
| `Store.Database.VerifyKhalti` | website/views.py:89-130 | success exactly when verified and the loop cannot raise; on success the tables become the committed pending state; otherwise nothing changes |

## Left out

- The Khalti HTTP request, its secret key and the `amount` field (website/views.py:10, 93-106): network I/O. The gateway's verdict is the input `verified`.
- Flask plumbing: routing, `login_required`, `render_template`, `flash` texts, `redirect`, `jsonify`, `request.args`/`get_json`, and `print` logging. Only the data behind them is modelled: the flash outcome, the JSON summary and the page data.
- Parsing `cart_id` from the query string: the key arrives as an integer, and a missing argument is not modelled.
- Floating-point prices (website/models.py:56-57, 94): prices are integers.
- Datastore failures at commit time, including a NULL `payment_id` when the request carries no token: the model's token is always a string. The only exceptions modelled are the ones that follow from the table contents.
- Concurrency and lost updates between simultaneous requests: these are left to the datastore.
- The read-only views `home`, `wishlist`, `order` and `search` (website/views.py:12-18, 135-157).
- Product columns that no modelled view reads (picture, flash sale, date added, category), and the Customer, Category, Wishlist, ContactMessage and Review models. Password hashing is a foreign library call.
- website/__init__.py: application setup. Its `cart_count` is the same quantity sum as `Cart.CartQuantity`.
- SQL result order is not guaranteed by the query. The model assumes key order.
