# Session shopping cart of the storefront

This project models the shopping cart of a small Flask storefront
(`app/routes.py`). The cart lives in the user's session as a dictionary. Its
keys are the text `str(product_id)` and its values are quantities. Five
request handlers work on it:

- `add_to_cart` adds one unit.
- `update_cart` takes a product id and an `action` form field. "increase"
  adds one unit to an existing line. "decrease" removes one unit and deletes
  the line when it reaches zero.
- `remove_from_cart` deletes a line.
- `clear_cart` stores an empty cart.
- The `cart` page turns the keys back into ids and fetches those products from
  the catalog. It shows one line per fetched product with `qty * price`, and
  adds those amounts into a total. Keys whose product has been deleted are
  skipped.

`logout` clears the whole session, so the cart goes together with the login
entries `user_id`, `username` and `role`.

Files:

- `wrappers.dfy`: `Option`.
- `decimal.dfy` (module `Decimal`): the key text. `Show` is `str(n)` and
  `Parse` is `int(s)` on digit strings. Lemmas prove that both round trips
  hold for the keys the cart stores.
- `cart_store.dfy` (module `CartStore`): the cart as a value (`map<string, int>`)
  and the invariant `WellFormed`: every key is the canonical text of an id and
  every quantity is at least 1. The functions `AddOne`, `Update` and `Remove`
  give the change each handler makes to the dictionary.
- `cart_page.dfy` (module `CartPage`): the catalog as a product table with
  unique ids, the catalog query, and the page loop's sum. `CartTotal` is a
  reference total defined over the set of cart keys, with no order. The lemmas
  prove that the loop's sum over the fetched rows equals that reference.
- `routes.dfy` (module `Routes`): class `Session`, whose fields are the session
  entries and whose methods are the handlers. `CurrentCart()` is the read
  `session.get("cart", {})`. `AddToCart`, `UpdateCart` and `RemoveFromCart`
  update the fields in place and state the new cart through `AddOne`, `Update`
  and `Remove`. `Login`, `Logout` and `ClearCart` give the new fields directly.
  Every method that changes the session ensures `Valid()`. `CartView` only
  reads: it runs the page loop with its invariants.

`app/models.py` declares `Order` and `OrderItem` tables, but no handler in
`app/routes.py` creates them, so there is no order placement to model.

## Model

| member | source | states |
|---|---|---|
| `Decimal.Show` | app/routes.py:180 | `str(product_id)` of a non-negative id is a canonical digit string: only digits, and no leading zero unless it is "0" |
| `Decimal.Parse` | app/routes.py:211 | `int(key)` yields an id exactly when the key is a non-empty digit string |
| `Decimal.ParseShow` | app/routes.py:211 | parsing a stored key gives back the id it was made from: `int(str(n)) == n` |
| `Decimal.ShowParse` | app/routes.py:218 | for every canonical key, `str(int(key)) == key`, so the re-stringified id finds the same entry |
| `Decimal.ShowInjective` | app/routes.py:180 | two ids share a key exactly when they are equal, so one cart line never stands for two products |
| `Decimal.KeyDenotes` | app/routes.py:218 | a canonical key parses to n exactly when it equals `str(n)` |
| `CartStore.AddOne` | app/routes.py:179-181 | an absent key is set to 1 and a present key goes up by exactly 1; every other entry is unchanged; the cart invariant is kept |
| `CartStore.Update` | app/routes.py:189-198 | a key not in the cart, or an action other than "increase"/"decrease", leaves the cart unchanged. "increase" adds 1 and never inserts a line. "decrease" takes 1 away and deletes the line exactly when it was at most 1, so a line at 1 disappears and none is left at 0. Other entries are unchanged and the invariant is kept |
| `CartStore.Remove` | app/routes.py:233-236 | the key is absent afterwards and every other entry is unchanged; an absent key is a no-op; the size drops by one exactly when the key was present; the invariant is kept |
| `CartStore.IncreaseThenDecrease` | app/routes.py:193-198 | "increase" followed by "decrease" on a present line restores the original cart |
| `CartStore.AddThenDecrease` | app/routes.py:179-198 | adding a unit and then "decrease" on that line restores the original cart, whether or not the line existed |
| `CartPage.Lines` | app/routes.py:215-225 | the page lines are one per fetched row, in row order, each the line of that row |
| `CartPage.Catalog` | app/routes.py:212 | looking up the id of any table row gives that row's price |
| `CartPage.CatalogRow` | app/routes.py:212 | every id the catalog knows is the id of some table row |
| `CartPage.CartIds` | app/routes.py:211 | under the cart invariant, the ids parsed from the cart keys are exactly the ids whose key is in the cart |
| `CartPage.Select` | app/routes.py:212 | the query returns exactly the table rows whose id was asked for, and no id twice |
| `CartPage.KeysTotalRemove` | app/routes.py:216-220 | the reference total does not depend on the order in which the lines are added up |
| `CartPage.RowsTotalIsKeysTotal` | app/routes.py:215-220 | the loop's sum over fetched rows equals the reference sum over those rows' cart keys, with one row per key |
| `CartPage.SelectTotal` | app/routes.py:211-220 | the loop's sum over the query result is `CartTotal`, the sum of `cart[k] * price(int(k))` over the keys whose product exists, and the number of fetched rows is the number of such keys |
| `CartPage.RowKeysAreResolvableKeys` | app/routes.py:211-218 | under the cart invariant, the keys of the catalog rows are exactly the cart keys that resolve to a product |
| `CartPage.EmptyCartPage` | app/routes.py:206-208 | an empty cart has no resolvable keys and a total of 0 |
| `CartPage.PageMatchesReference` | app/routes.py:211-227 | what the loop builds is the reference total plus one line per resolvable key. Each line names a table product that is in the cart, shows its stored quantity (at least 1) and `qty * price`. No product appears twice |
| `CartPage.StaleKeyExample` | app/routes.py:205-227 | a cart {"1": 2, "2": 1, "9": 4}, where product 9 was deleted and the prices are 10 and 5, totals 25 over two lines |
| `Routes.Session.Login` | app/routes.py:158-160 | a login sets `user_id`, `username` and `role` and leaves the cart alone |
| `Routes.Session.Logout` | app/routes.py:171 | `session.clear()` removes the cart together with `user_id`, `username` and `role`; the cart then reads as empty |
| `Routes.Session.AddToCart` | app/routes.py:179-182 | the stored cart, read as `CurrentCart()` (`session.get("cart", {})`, empty when absent), becomes `AddOne` of the old cart at `str(product_id)`; the invariant is kept and the login entries are unchanged |
| `Routes.Session.UpdateCart` | app/routes.py:189-199 | the stored cart becomes `Update` of the old cart. It is written back even when nothing changed. The invariant is kept and the login entries are unchanged |
| `Routes.Session.RemoveFromCart` | app/routes.py:233-237 | the cart becomes `Remove` of the old cart. The session is written only when the line existed and is left exactly as it was otherwise |
| `Routes.Session.ClearCart` | app/routes.py:245 | the stored cart is the empty map whatever it held before, so clearing twice gives the same state as clearing once; the login entries are unchanged |
| `Routes.Session.CartView` | app/routes.py:205-227 | an empty cart shows no lines and total 0. Otherwise the total is `CartTotal`, and the page has one line per cart key whose product exists; stale keys are skipped. Each line has the stored quantity (at least 1) and `qty * price`, and no product appears twice |

## Left out

- HTTP and UI plumbing (`redirect`, `url_for`, `render_template`, `flash`, `request.referrer`) is not modelled. It decides where the browser goes next, not what the cart holds.
- The database is not modelled. The product table is a parameter of `CartView`, a sequence of rows with unique ids, and `Select` stands for the `Product.query.filter(...)` query. The query's row order is taken to be table order; the total and the set of lines do not depend on it.
- Prices are exact integers. The source stores them as floats, and the float rounding of `qty * product.price` and of the running total is not modelled.
- `Decimal.Parse` accepts only digit strings. Python's `int()` also accepts a sign, surrounding whitespace and underscores. No stored key contains them, because every key is made by `str` of a non-negative route parameter.
- `Routes.Session.Login` models only the three session writes of a successful login. The user lookup and password check are left out: they are database and werkzeug calls. The product add/edit/delete and registration handlers are also left out: they are plain database CRUD, not cart behaviour.
- The session's signing, cookie storage and Flask's modified-flag are not modelled. The `Session` object stands for the dictionary the handlers see.
