# Shop API order core in Dafny

A Dafny model of the bookkeeping core of a Django e-commerce backend
(shops, products, per-shop stock, orders), with proofs of its properties.

- **Ledger** — `OrderProduct.update_product_quantity`. The action
  `"out_of_stock"` reserves an order line's quantity from its shop's stock.
  It refuses when the stock cannot cover the line. The action `"in_stock"`
  releases the quantity unconditionally. Any other action does nothing.
- **Orders** — `ORDER_STATUS_CHOICES`, the defaults of a new `Order`,
  `get_product_price`, `update_total_price` and `update_status`.
- **Catalog** — the "first `ProductInfo` row of a product" lookup that both
  the order total and the product list price use.
- **Passwords** — `validate_password`: length, then lower-case, upper-case
  and digit checks, in that order. `UserSerializer.validate_password`
  wraps it.
- **Translator** — the alphabet-range tests of `translat_text_ru_en` and
  `translat_text_en_ru`, and the field-name mapping `translator_key`.
- **Serializers** — dropping `None` fields in
  `ParametersSerializer.to_representation`, the required-field check
  `UserSerializer.validate`, and `ProductListSerializer.get_price`.
- **Permissions** — `IsOwnerOrReadOnly.has_object_permission` and
  `IsOwner.has_permission`.
- **Cart** — add-to-cart and remove-from-cart requests built from the
  primitives above (see "Scenarios").

Modelling choices:

- Prices are integers in cents.
- Quantities are Python's unbounded integers. The database columns are
  32-bit `IntegerField`s, but the model never writes to the database.
- `save()` is a no-op on the in-memory state.
- An exception the code raises becomes an `Err` value.
- A Python `None` result becomes `None`.
- Python's `str.isalpha` comes from the Unicode database, so it is a
  parameter.
- The external translation service is also a parameter.

The model follows the code as written:

- `update_status` overwrites every status, `"done"` included. Nothing in the
  code makes `"done"` terminal (`Orders.UpdateStatusReopensDone`). Only the
  Cart scenarios refuse to touch a finished order.
- The code has no add-line, remove-line, place-order or order-listing
  operation; the order view set is empty.
- The order total prices every line at the first line's price (see
  "Findings").

## Model

| member | source | states |
|---|---|---|
| Catalog.FirstInfoFor | backend/models.py:299 | `ProductInfo.objects.filter(product=p).first()` yields the earliest row for `p` in primary-key order, or nothing exactly when `p` has no row |
| Ledger.UpdateProductQuantity | backend/models.py:201-224 | a covered reservation lowers the stock row by exactly the line quantity and returns the new stock; an uncovered one raises and changes nothing; a successful reservation never leaves the row negative; a release raises the row by the line quantity unconditionally; any other action changes nothing and returns `None`; no other row changes |
| Ledger.ReserveThenReleaseRestores | backend/models.py:214-224 | a successful `"out_of_stock"` followed by `"in_stock"` on the same line restores the inventory exactly |
| Ledger.ReleaseThenReserveRestores | backend/models.py:214-224 | on non-negative stock, `"in_stock"` followed by `"out_of_stock"` always succeeds and restores the inventory |
| Ledger.ReplayKeepsStockNonNegative | backend/models.py:214-224 | for any sequence of reservations and releases of non-negative lines run one at a time, each refused reservation leaving stock as it was, stock that starts non-negative stays non-negative |
| Orders.Code | backend/models.py:278-283 | every status's stored code parses back to that status |
| Orders.Label | backend/models.py:278-283 | each status's (code, label) pair is one of the declared choices |
| Orders.ParseStatus | backend/models.py:278-283 | a code names a status exactly when it is one of the declared codes |
| Orders.CodeInjective | backend/models.py:278-283 | distinct statuses have distinct codes |
| Orders.NewOrder | backend/models.py:285-292 | a new order has the first declared status ("empty"), total 0, pickup and no delivery contacts |
| Orders.GetProductPrice | backend/models.py:294-300 | the price is that of the first `ProductInfo` row of the first line's product; it fails when the order has no lines or that product has no row |
| Orders.SumAtPriceFactors | backend/models.py:313 | summing one price times each quantity equals that price times the total quantity |
| Orders.UpdateTotalPrice | backend/models.py:302-314 | total 0 without lines; otherwise it fails exactly when the first-line price lookup fails, and the total is the first line's price times the sum of all quantities; nothing else in the order changes |
| Orders.LinesTotal | backend/models.py:313 | the per-line total is defined exactly when every line's own product has a price |
| Orders.LinesTotalConcat | backend/models.py:313 | the per-line total of concatenated lines is the sum of their totals |
| Orders.LinesTotalOneProduct | backend/models.py:313 | when all lines share one product, the per-line total is its price times the total quantity |
| Orders.UpdateTotalPriceByLine | backend/models.py:302-314 | total 0 without lines; it succeeds exactly when every line's product has a price; only the total changes |
| Orders.AppendLineAddsItsAmount | backend/models.py:313 | appending a line raises the per-line total by exactly that line's price times quantity |
| Orders.TotalsAgreeOnOneProduct | backend/models.py:299-313 | on a single-product order the as-written and per-line totals coincide, failures included |
| Orders.FirstPriceTotalDiffers | backend/models.py:299-313 | two products at 100.00 and 250.00, one unit each: the as-written total is 200.00 where the per-line total is 350.00 |
| Orders.UpdateStatus | backend/models.py:316-325 | the status becomes "empty" exactly when the order has no lines and "new" exactly when it has some, whatever it was; nothing else changes |
| Orders.UpdateStatusReopensDone | backend/models.py:321-324 | a "done" order with lines becomes "new" again |
| Orders.UpdateStatusIdempotent | backend/models.py:321-325 | updating the status twice equals updating it once |
| Passwords.ContainsRange | backend/validators.py:10-17 | `re.search("[lo-hi]", s)` matches exactly when some character of `s` lies in `lo`..`hi` |
| Passwords.ValidatePassword | backend/validators.py:5-17 | accepted exactly when the length is at least 8 and [a-z], [A-Z] and [0-9] each occur; otherwise the first failing check in the order length, lower-case, upper-case, digit names the error |
| Passwords.AcceptedStaysAcceptedWhenExtended | backend/validators.py:5-17 | appending characters to an accepted password keeps it accepted |
| Passwords.FirstFailingCheckReported | backend/validators.py:6-17 | concrete passwords that fail several checks report the earliest one, and one that passes all is accepted |
| Translator.LetterBounds | backend/translator.py:31 | yields the least and greatest code points of the alphabetic characters, both attained; nothing exactly when there is no alphabetic character |
| Translator.InAlphabet | backend/translator.py:31-32 | fails exactly when the text has no alphabetic character (`min` of an empty set); otherwise true exactly when every alphabetic code point lies in the range |
| Translator.TranslateRuEn | backend/translator.py:4-11 | text whose letters all lie in 1040..1103 goes to the translator; other text comes back unchanged |
| Translator.TranslateEnRu | backend/translator.py:14-21 | text whose letters all lie in 65..122 goes to the translator; other text comes back unchanged |
| Translator.Contains | backend/translator.py:35 | `key in text` holds exactly when `key` occurs at some position of `text` |
| Translator.FirstKeyIn | backend/translator.py:34-36 | the result is the value of the first entry, in insertion order, whose key occurs in the text; nothing exactly when no key occurs |
| Translator.TranslatorKey | backend/translator.py:24-40 | fails without letters; non-Russian text is returned unchanged; Russian text maps to the first matching field name, or `None` |
| Translator.NoFieldGivesNone | backend/translator.py:33-38 | Russian text naming no field yields `None` |
| Translator.FirstCharAbsent | backend/translator.py:35 | a key whose first character is absent from the text is not a substring of it |
| Translator.CapacityKeyFound | backend/translator.py:25-36 | the text "Ёмкость" matches no earlier field name, so the first matching entry is "Capacity (GB)" |
| Translator.TranslatorKeyWithYo | backend/translator.py:24-40 | as `translator_key`, but with the range widened to 1025..1105: fails without letters, returns other text unchanged, and maps text in range to the first matching field name |
| Translator.CapacityMappedWithYo | backend/translator.py:30-32 | `translator_key("Ёмкость")` returns the text unchanged, while the widened test returns "Capacity (GB)" |
| Translator.CapacityNeverMatched | backend/translator.py:30-32 | since 'Ё' (1025) is alphabetic and outside 1040..1103, no Russian text yields "Capacity (GB)" |
| Serializers.WithoutNulls | backend/serializers.py:126-130 | keeps exactly the non-`None` entries, values unchanged, and adds no key |
| Serializers.StripsNullsUnique | backend/serializers.py:126-130 | only one representation keeps exactly the non-`None` entries |
| Serializers.WithoutNullsIdempotent | backend/serializers.py:126-130 | dropping `None` fields twice equals dropping them once |
| Serializers.ToRepresentation | backend/serializers.py:116-130 | the key-by-key deletion loop returns exactly the non-`None` entries of its input, unchanged |
| Serializers.ValidateUser | backend/serializers.py:348-365 | missing or falsy username, then email, then password are reported in that order; otherwise the data comes back unchanged |
| Serializers.ValidateUserIgnoresOtherFields | backend/serializers.py:359-365 | changing a field other than the three required ones never changes the verdict |
| Serializers.ValidatePasswordField | backend/serializers.py:367-379 | the value is accepted, and handed back unchanged, exactly when it meets the password rules; otherwise the validator's first failing check is the error |
| Serializers.GetPrice | backend/serializers.py:191-202 | the price of the product's first `ProductInfo` row, or `None` exactly when it has none |
| Permissions.HasObjectPermission | backend/permissions.py:15-27 | GET is always permitted; any other method exactly when the request's user is the object's owner |
| Permissions.ObjectPermissionDependsOnOwnerOnly | backend/permissions.py:15-27 | the decision depends only on the method, the request's user and the object's owner |
| Permissions.AnonymousOnlyReads | backend/permissions.py:25-27 | an anonymous or user-less request is permitted exactly for GET |
| Permissions.HasPermission | backend/permissions.py:40-49 | true exactly when a user object (possibly anonymous) is attached to the request |
| Permissions.AnonymousPassesHasPermission | backend/permissions.py:40-49 | an anonymous request passes the as-written check and fails the intended one |
| Permissions.HasPermissionAuthenticated | backend/permissions.py:40-49 | true exactly when the request's user is an authenticated user |
| Permissions.HasPermissionDiffersOnlyOnAnonymous | backend/permissions.py:40-49 | the as-written and intended checks disagree exactly on the anonymous user |

## Scenarios

The repository declares the ledger and order primitives but no request that
combines them. The `Cart` module composes them into two requests:

- `Cart.AddProduct` lowers the line's stock row by exactly the added units
  and touches no other row, grows or appends a line,
  re-prices per line and re-evaluates the status.
- `Cart.RemoveProduct` raises the line's stock row by exactly the removed
  units and touches no other row, shrinks or drops the line, refuses to
  remove more than the line holds, re-prices and re-evaluates the status.

Both refuse an order whose status is "done", and both are all-or-nothing.
These compositions are this model's own, not code of the repository.

- `Cart.AddThenRemoveRestores` proves that adding `q` units and then removing
  them restores the cart and the stock exactly.
- `Cart.AddAddRemoveScenario` covers this sequence: stock 10, add 4 (stock 6,
  total 4.00), add 3 more (one line of 7, stock 3), remove 7 (no lines,
  stock 10, total 0, "empty").
- `Cart.OversellScenario` covers stock 5, add 6: the add is refused.

## Findings

| source | as written | input that shows it | evidently intended | confidence | as-written member | corrected member |
|---|---|---|---|---|---|---|
| backend/models.py:313 | every line's quantity is multiplied by the first line's product price (`get_product_price`) | an order with one unit of a 100.00 product and one unit of a 250.00 product totals 200.00 | each line priced at its own product's price: 350.00 | medium; not executed | Orders.FirstPriceTotalDiffers | Orders.UpdateTotalPriceByLine |
| backend/translator.py:32 | the Russian test admits only code points 1040..1103, which excludes 'Ё' (1025), so a Russian key containing "Ёмкость" can never match | `translator_key("Ёмкость")` returns "Ёмкость", so the `== "Capacity (GB)"` tests at views.py:131 and tasks.py:115 never succeed for a Russian parameter name (any key containing 'Ё'), and a Russian-keyed catalog never sets `capacity`; a key already written in English ("Capacity (GB)") passes through unchanged and does match | admit 'Ё' and 'ё' (1025..1105) so the field maps to "Capacity (GB)" | medium; not executed | Translator.CapacityMappedWithYo | Translator.TranslatorKeyWithYo |
| backend/permissions.py:49 | `has_permission` returns `request.user`, and Django's `AnonymousUser` is truthy | an unauthenticated request under the default unauthenticated-user setting is permitted | permit authenticated users only, as the class documents | medium; not executed | Permissions.AnonymousPassesHasPermission | Permissions.HasPermissionAuthenticated |

The as-written members (`Orders.UpdateTotalPrice`, `Translator.TranslatorKey`,
`Permissions.HasPermission`) stay in the model next to the corrected ones. The Cart scenarios price orders
with `Orders.UpdateTotalPriceByLine`. `Orders.TotalsAgreeOnOneProduct` shows
that the two totals agree whenever an order holds a single product.

## Left out

- Orders.UpdateTotalPrice: does not model the `DecimalField(max_digits=10)` limit on the stored total, because `save()` is a no-op here and the limit is enforced only when writing to the database.
- Ledger.UpdateProductQuantity: does not model the 32-bit range of the `ShopProduct.quantity` and `OrderProduct.quantity` columns, because `save()` is a no-op here and the range is enforced only when writing to the database.
- Concurrent reservations: `update_product_quantity` checks a cached `shop_product` and then saves it, with no lock. Two requests that both read stock 5 and each reserve 5 both succeed. `Ledger.ReplayKeepsStockNonNegative` covers requests run one at a time only.
- The `price` parameter of `update_total_price`: it is never read.
- Persistence, timestamps (`created_at`, `updated_at`) and database transactions or row locking: `save()` is a no-op on in-memory values.
- The external translation service (`Translator(...).translate`): a function parameter.
- `str.isalpha`: a parameter, since it depends on the Unicode character database.
- The `try`/`except` in `translator_key`: `key in text` cannot raise on strings, so the `"Error: ..."` branch is unreachable and not modelled.
- Python strings holding lone surrogate code points: Dafny characters are Unicode scalar values.
- Serializers.WithoutNulls: a representation is a map, so the order of fields in DRF's ordered representation is not modelled; no property here depends on it.
- Serializers.ToRepresentation: field values have no float case (`screen_size`) and no nested-dictionary case (the items of `dynamic_fields`); only whether a value is `None` matters to the filter.
- Decimal prices: modelled as integers in cents. Float fields such as `screen_size` are not modelled.
- Creating, listing or finalizing orders through the API: no code does it, because `OrderViewSet` is empty (backend/views.py:174-175).
- Bulk YAML import (backend/tasks.py, `ImportProductsView`), the other view sets and URL routing, e-mail sending, task-queue setup, the admin site and the HTTP smoke tests: I/O and framework plumbing outside the order core.
- `CreateProductCardSerializer.create`, `UserSerializer.create` and the `create_auth_token` signal: chains of ORM writes.
- `DeliveryContacts.__str__`: returns a field the model does not have. It is display code outside the core.
