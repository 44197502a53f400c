# lades shop back end in Dafny

This project models the business core of the `lades` Django shop back end:

- **Order placement.** The `create_order` transaction resolves order lines from a "buy now" list or from the user's cart. It then:
  - holds stock line by line, recording a price snapshot per line;
  - deletes the consumed cart items;
  - applies an optional discount code;
  - writes the totals.
- **Order helpers.** Discount activity and amounts, order totals, status writes, status enums and the order-code generator.
- **Cart.** Add-or-merge, quantity update, delete, listing, total and clear.
- **Product catalogue.** Filtering and sorting by sale price, look-up, create, update, the soft-delete toggle, hard delete with its cascades, image records, and the spreadsheet import with its row parser.
- **Accounts.** User creation and the authentication-token life cycle: `get_key`/`generate_key`, e-mail verification, login (credentials and Google), logout, and the password change and reset flows.
- **Router.** Bearer-token authentication and the staff/customer permission split.
- **Error shaping.** The exception handlers' response bodies, the grouping of validation messages by field, and the per-status error documentation.

The whole database is one value, `Schema.Db`:

- Tables keyed by a UUID primary key are maps from `Uid`.
- Append-only tables (tokens, product images, order items) are sequences in insertion order.
- `nextId` stands for uuid4: every new row takes the next unused key.

`Schema.Valid` gathers what the database and the code keep true:

- unique product codes, brand names, e-mails, Google ids, token strings and order codes;
- foreign keys that point at existing rows;
- non-negative `PositiveIntegerField`s;
- one cart per user and one cart item per (cart, product), which the code maintains through `get_or_create` and the merge in `add_cart_item`.

Every operation that writes takes the database and returns the new one. A `transaction.atomic` operation returns the database unchanged together with the error. Operations that are not atomic (`register`, `login_with_google`, `reset_password`) may return a changed database with an error, as the code does.

The clock is a parameter everywhere: instants are integers in microseconds, dates are integer days. The outside world enters as parameters:

- `jwt.encode` is a signing function;
- random choices are a draw function;
- `icontains` is a containment predicate;
- Google's tokeninfo reply is a function of the id token;
- Cloudinary upload results are the image URLs;
- spreadsheet rows are sequences of cells.

Where the code loops over rows, the model has a method with a loop. That method is proved equal to a reference function, and the properties are proved about the function:

- `create_order` is `OrderOrm.CreateOrder` against `OrderOrm.PlaceOrder`;
- `create_multiple` is `ProductImport.CreateMultiple` against `ProductImport.ImportRows`;
- `load_product_infomation` is `ProductUtils.LoadProductInformation` against `ProductUtils.KeptData`;
- `get_key` is `AccountUtils.GetKey`;
- the validation handler is `Exceptions.ValidationHandler`;
- `generate_exception_response` is `Exceptions.GenerateExceptionResponse`.

The authenticated request is a class, `Router.Request`, whose `Authenticate` method sets its fields.

## Model

| member | source | states |
|---|---|---|
| OrderModels.IsActive | src/order/models.py:47-53 | A discount is active iff it has no start date or one not after today, and no end date or one not before today. |
| OrderModels.IsActiveOnBoundaries | src/order/models.py:47-53 | Both boundary days are active; the day before the start and the day after the end are not. |
| OrderModels.IsActiveIgnoresUsageAndMinimum | src/order/models.py:44-53 | Activity does not depend on `max_usage` or `min_order_amount`. |
| OrderModels.CalculateDiscountAmountAsWritten | src/order/models.py:55-61 | As written: amount*value/100 for a type exactly "Percent", the value for exactly "Fixed", 0 for anything else. |
| OrderModels.CalculateDiscountAmountIgnoresStoredKinds | src/order/models.py:32-35 | Both stored type keys ("percent", "fixed") fall into the 0 branch of the as-written amount. |
| OrderModels.CalculateDiscountAmountPercentExample | src/order/models.py:55-61 | A stored 10 percent discount on 1000 gives 0 as written. |
| OrderModels.CalculateDiscountAmount | src/order/models.py:55-61 | Corrected: percent gives the floor of amount*value/100, fixed gives the value, any other type 0. |
| OrderModels.OrderItemTotalPrice | src/order/models.py:149-151 | A line total is non-negative for non-negative price and quantity, and 0 when either is 0. |
| OrderModels.ItemsTotal | src/order/models.py:110-111 | The sum of line totals is non-negative when every line's price and quantity are. |
| OrderModels.ItemsTotalAppend | src/order/models.py:110-111 | The items total distributes over concatenation. |
| OrderModels.ItemsOf | src/order/models.py:124-135 | An order's items are items of the table belonging to that order, no more than the table holds. |
| OrderModels.ItemsOfAppend | src/order/models.py:124-135 | Selecting an order's items distributes over concatenation. |
| OrderModels.ItemsOfAll | src/order/models.py:124-135 | Items that all belong to the order are selected whole. |
| OrderModels.ItemsOfNone | src/order/models.py:124-135 | Items of other orders contribute nothing. |
| OrderModels.CalculateTotalAsWritten | src/order/models.py:110-113 | As written, the total succeeds iff the order has no items, and is then shipping fee minus discount. |
| OrderModels.CalculateTotalAsWrittenFailsWithItems | src/order/models.py:111 | Any order with an item fails as written (`total_price` is an int, called as a function). |
| OrderModels.CalculateTotal | src/order/models.py:110-113 | Corrected: at least shipping fee minus discount (missing discount = 0) for non-negative items, exactly that when there are none. |
| OrderModels.SetStatus | src/order/models.py:115-118 | The status changes to the new value iff it is one of the five lowercase choice keys; otherwise the order is unchanged; no other field changes. |
| OrderModels.SetStatusIgnoresUpperCase | src/order/models.py:115-118 | `set_status("PENDING")` leaves the order unchanged. |
| OrderUtils.OrderStatusValuesDistinct | src/order/utils.py:9-15 | `OrderStatus` has exactly five members, with pairwise distinct values. |
| OrderUtils.PaymentStatusValuesDistinct | src/order/utils.py:18-23 | `PaymentStatus` has exactly four members, with pairwise distinct values. |
| OrderUtils.GenerateCode | src/order/utils.py:26-28 | A code has exactly the requested length (20 by default) and only A-Z and 0-9 characters. |
| OrderUtils.GenerateCodeCoversAlphabet | src/order/utils.py:27-28 | Every allowed character can be drawn. |
| OrderOrm.CartKeysWhere | src/order/orm/order.py:30-33 | The selected cart items are exactly those whose cart belongs to the user and whose product is requested, each once (read in ascending key order, an order the query does not fix). |
| OrderOrm.SelectedCartKeys | src/order/orm/order.py:30-34 | Every selected key is a cart item of the user's cart with a requested product. |
| OrderOrm.ReserveStock | src/order/orm/order.py:78-88 | After holding stock, each product's stock is its old stock minus the total quantity ordered for it; the product set is unchanged. |
| OrderOrm.ReserveItems | src/order/orm/order.py:81-88 | One order item per line, in line order, with the product's sale price at that moment and the line's quantity; every touched stock stays non-negative. |
| OrderOrm.ReserveTotal | src/order/orm/order.py:90 | The accumulated subtotal equals the sum of the created items' totals. |
| OrderOrm.ReserveOkIff | src/order/orm/order.py:73-79 | Holding stock succeeds iff every line names a known product whose stock, after earlier lines, covers its quantity; otherwise the error is the first failing line's. |
| OrderOrm.ReserveErrPersists | src/order/orm/order.py:73-79 | Once a prefix of the lines fails, the whole run fails with the same error. |
| OrderOrm.ApplyDiscount | src/order/orm/order.py:116-125 | No code gives amount 0 and no discount; otherwise the attached discount has that code and is active, and its amount is the floored percentage for "percent" or the value for any other type. |
| OrderOrm.ApplyDiscountRefusesIff | src/order/orm/order.py:117-120 | `DiscountDoesNotExists` iff a code is given and no discount with that code is active. |
| OrderOrm.PlaceOrderAsWritten | src/order/orm/order.py:10 | As written: importing the module fails, so every call answers an `ImportError` and leaves the store unchanged. |
| OrderOrm.PlaceOrderAsWrittenNeverPlaces | src/order/orm/order.py:10 | Every request the corrected placement accepts adds an order to a valid store; the module as written answers an `ImportError` and adds none. |
| OrderOrm.PlaceOrder | src/order/orm/order.py:20-134 | On error the store is unchanged; on success the new order takes a fresh key, which is returned. |
| OrderOrm.CommitKeepsValid | src/order/orm/order.py:130-132 | Committing the order, its items, the new stock and the remaining cart keeps the store valid. |
| OrderOrm.PlaceOrderPreservesValid | src/order/orm/order.py:20-134 | A successful placement keeps every store invariant. |
| OrderOrm.HoldStock | src/order/orm/order.py:65-111 | The loop over lines computes exactly `Reserve`: the reservation, or the first line's error. |
| OrderOrm.CreateOrder | src/order/orm/order.py:20-134 | The transaction returns exactly `PlaceOrder`'s store and result; on error the store is unchanged, on success it is valid. |
| OrderOrm.WriteStatus | src/order/orm/order.py:136-139 | Only that order's status is written, to the enum's value; every other order and table is unchanged. |
| OrderOrm.GetOrderByUid | src/order/orm/order.py:141-150 | The order with that key, or `OrderDoesNotExists` iff there is none. |
| OrderOrm.GetUserOrders | src/order/orm/order.py:152-155 | Exactly the user's orders whose status is not the lowercase "pending". |
| OrderPlacement.PlaceOrderOk | src/order/orm/order.py:39-132 | Success means the shipping info exists, the code is free, stock holds and the discount applies, and the new store is the commit of exactly those results. |
| OrderPlacement.PlaceOrderStock | src/order/orm/order.py:87-107 | Each product's stock drops by exactly the total quantity ordered for it; products not ordered are untouched; ordered ones stay non-negative. |
| OrderPlacement.PlaceOrderItems | src/order/orm/order.py:81-104 | Exactly one order item per resolved line is appended, with the product's sale price and the line quantity; earlier items are untouched. |
| OrderPlacement.PlaceOrderOwnItems | src/order/orm/order.py:81-104 | The new order's items are exactly the appended ones. |
| OrderPlacement.PlaceOrderRecord | src/order/orm/order.py:47-60 | The new order is "PENDING", ships for 15000, pays "cod", carries the note, the user and the shipping info's name, phone and address; other orders are unchanged. |
| OrderPlacement.PlaceOrderTotals | src/order/orm/order.py:130-132 | The total is the items total plus shipping fee minus discount, and agrees with the corrected `calculate_total`. |
| OrderPlacement.PlaceOrderDiscount | src/order/orm/order.py:116-125 | No code: no discount and amount 0; with a code: the active discount with that code, amount floored percentage or fixed value, not capped. |
| OrderPlacement.PlaceOrderRefusesDiscount | src/order/orm/order.py:117-120 | An unknown or inactive code fails with `DiscountDoesNotExists` and changes nothing. |
| OrderPlacement.PlaceOrderShippingInfo | src/order/orm/order.py:39-42 | An unknown shipping info fails and changes nothing; who owns the shipping info does not matter. |
| OrderPlacement.PlaceOrderLineFailure | src/order/orm/order.py:73-79 | The first failing line decides the error, and the store is unchanged. |
| OrderPlacement.CartLines | src/order/orm/order.py:30-34 | Cart mode takes one line per selected cart item, with the cart item's quantity, and skips requested products that have no cart item; line products are distinct. |
| OrderPlacement.RemainingCartItemsExact | src/order/orm/order.py:111 | The cart items kept are exactly the unselected ones (all of them in buy-now mode). |
| OrderPlacement.PlaceOrderCart | src/order/orm/order.py:92-111 | Buy-now leaves the cart alone; cart mode deletes exactly the selected cart items. |
| OrderPlacement.PlaceOrderConsumesCartOnce | src/order/orm/order.py:111 | After a cart-mode order, the same request resolves to no lines. |
| OrderPlacement.NothingSelected | src/order/orm/order.py:30-34 | With no matching cart item, cart mode has no lines. |
| OrderPlacement.PlacedOrderIsListed | src/order/orm/order.py:152-155 | A newly placed order ("PENDING") is listed among the user's orders. |
| OrderPlacement.SharedProductStockScenario | src/order/orm/order.py:68-88 | A product repeated in buy-now sees the earlier line's decrement: 3+3 of a stock of 5 fails, 3 alone leaves 2. |
| OrderService.UpdateOrderStatus | src/order/services/__init__.py:17-22 | An unknown order fails with `OrderDoesNotExists` and changes nothing; a known one has its status written; validity is kept. |
| OrderService.WriteStatusKeepsValid | src/order/orm/order.py:136-139 | A status write keeps the store valid. |
| OrderService.StatusWritesUnrestricted | src/order/orm/order.py:136-139 | The last write wins, with no transition check: COMPLETED can go back to PENDING. |
| OrderService.EnumValuesAreNotChoiceKeys | src/order/models.py:68-74 | No `OrderStatus` value is a `STATUS_CHOICES` key, so `set_status` with an enum value changes nothing. |
| OrderService.WrittenStatusStaysListed | src/order/orm/order.py:152-155 | After any enum status write the order stays in its user's list. |
| CartOrm.CartItemTotalPrice | src/cart/models.py:48-50 | A cart line total is non-negative for non-negative price and quantity, and 0 when either is 0. |
| CartOrm.FindCart | src/cart/orm/cart.py:59-64 | A found cart belongs to the user; none found means the user has no cart. |
| CartOrm.FindItem | src/cart/orm/cart.py:26 | A found item has that cart and product; none found means no such item exists. |
| CartOrm.ExistingItem | src/cart/orm/cart.py:23-26 | The user's item for a product is the item found in the user's cart. |
| CartOrm.CartFor | src/cart/orm/cart.py:23 | `get_or_create`: the user's existing cart, or exactly one new cart under a fresh key. |
| CartOrm.AddToCart | src/cart/orm/cart.py:15-36 | A failed add changes nothing. |
| CartOrm.AddCartItem | src/cart/orm/cart.py:15-36 | The method computes exactly `AddToCart`'s store and outcome, and keeps the store valid. |
| CartOrm.AddToCartKeepsValid | src/cart/orm/cart.py:15-36 | Adding to a cart keeps every store invariant. |
| CartOrm.MergedItemKeepsValid | src/cart/orm/cart.py:25-29 | The merge branch keeps the store valid. |
| CartOrm.CreatedItemKeepsValid | src/cart/orm/cart.py:30-36 | The create branch keeps the store valid, one item per (cart, product) included. |
| CartOrm.ExistingItemAfterGetOrCreate | src/cart/orm/cart.py:23-26 | Looking up the item in the cart `get_or_create` returns finds the user's existing item, if any. |
| CartOrm.GetOrCreateCartFinds | src/cart/orm/cart.py:23 | After `get_or_create` the user's cart is found and is the returned one; cart items are untouched. |
| CartOrm.AddToCartOutcome | src/cart/orm/cart.py:17-36 | `ProductDoesNotExists` iff the product is unknown; an integrity error iff the new quantity or the price would be negative; success otherwise. |
| CartOrm.AddToCartFindsLine | src/cart/orm/cart.py:23-36 | After a successful add, the user's item for the product is the written line. |
| CartOrm.MergedLineFound | src/cart/orm/cart.py:25-29 | Merging keeps the same item as the user's item for the product: no new item. |
| CartOrm.CreatedLineFound | src/cart/orm/cart.py:30-36 | Without an existing item, exactly one new item under the fresh key becomes the user's item for the product. |
| CartOrm.AddToCartLine | src/cart/orm/cart.py:25-36 | The written line holds the old quantity plus the payload quantity and the payload price; every other item is unchanged and no other item appears. |
| CartOrm.NewCartKeepsValid | src/cart/orm/cart.py:23 | Creating the user's first cart keeps the store valid, one cart per user included. |
| CartOrm.NewCartIsFound | src/cart/orm/cart.py:23 | A created cart is the one found for the user. |
| CartOrm.MergeKeepsValid | src/cart/orm/cart.py:27-29 | Rewriting an item's quantity and price keeps the store valid. |
| CartOrm.NewItemKeepsValid | src/cart/orm/cart.py:31-36 | Creating an item for a new (cart, product) pair keeps the store valid. |
| CartOrm.UpdateQuantity | src/cart/orm/cart.py:42-45 | The quantity increases by the given amount (it is not set); a negative result is refused and changes nothing. |
| CartOrm.UpdateQuantityAccumulates | src/cart/orm/cart.py:43-45 | Two updates by a and b equal one update by a+b. |
| CartOrm.UpdateQuantityTouchesOneItem | src/cart/orm/cart.py:43-45 | Only that item changes; every other item and table stays as it was. |
| CartOrm.UpdateQuantityKeepsValid | src/cart/orm/cart.py:43-45 | A quantity update keeps the store valid. |
| CartOrm.DeleteItem | src/cart/orm/cart.py:51-53 | Exactly that item is removed; every other item is unchanged. |
| CartOrm.DeleteItemKeepsValid | src/cart/orm/cart.py:51-53 | Deleting an item keeps the store valid. |
| CartOrm.ItemsOfCart | src/cart/orm/cart.py:66 | Exactly the items of that cart (read in ascending key order, an order the query does not fix). |
| CartOrm.GetCartItems | src/cart/orm/cart.py:59-66 | No cart gives the empty list; otherwise exactly the items of the user's cart. |
| CartOrm.SumTotals | src/cart/orm/cart.py:78 | A sum of line totals is non-negative for non-negative lines, and 0 for no lines. |
| CartOrm.GetCartTotal | src/cart/orm/cart.py:72-78 | Returns (not raises) `CartDoesNotExists` iff the user has no cart; otherwise the sum of the cart's line totals, non-negative. |
| CartOrm.WithoutCart | src/cart/orm/cart.py:88 | Exactly the items of other carts remain, unchanged. |
| CartOrm.ClearCart | src/cart/orm/cart.py:84-90 | `CartDoesNotExists` iff the user has no cart, with nothing changed; otherwise every item of that cart is removed and validity kept. |
| CartOrm.ClearKeepsValid | src/cart/orm/cart.py:88 | Removing one cart's items keeps the store valid. |
| CartOrm.ClearedCartIsEmpty | src/cart/orm/cart.py:84-90 | After clearing, the cart still exists, lists no items and totals 0. |
| CartOrm.AddedLineListed | src/cart/orm/cart.py:59-66 | After a successful add, the written line is listed among the user's cart items. |
| CartService.UpdateQuantityCartItem | src/cart/services/__init__.py:17-22 | An unknown item fails with `CartItemDoesNotExists` and changes nothing; otherwise the ORM update, with no owner check. |
| CartService.DeleteCartItem | src/cart/services/__init__.py:24-29 | An unknown item fails with `CartItemDoesNotExists` and changes nothing; otherwise exactly that item is deleted, with no owner check. |
| CartService.DeletedItemNotListed | src/cart/services/__init__.py:29 | A deleted item is no longer listed in anyone's cart. |
| ProductOrm.InsertByPrice | src/product/orm/product.py:135-147 | Inserting into a price-ordered list keeps it ordered and adds exactly that key. |
| ProductOrm.SortByPrice | src/product/orm/product.py:135-147 | The result is ordered by sale price in the chosen direction and is a permutation of the input. |
| ProductOrm.GetAll | src/product/orm/product.py:124-148 | Ascending by sale price when `sort == "asc"`, descending otherwise, and a permutation of the matching products. |
| ProductOrm.GetAllListsMatches | src/product/orm/product.py:126-134 | A product is listed iff it is not deleted and passes every given filter: name contains the non-empty search, brand, inclusive min and max sale price. |
| ProductOrm.GetAllListsOnce | src/product/orm/product.py:137-147 | No product is listed twice. |
| ProductOrm.GetAllHidesDeleted | src/product/orm/product.py:126 | Soft-deleted products are never listed. |
| ProductOrm.FalsyFilterValues | src/product/orm/product.py:127-134 | An empty search is no filter; a price bound of 0 still filters. |
| ProductOrm.GetByUid | src/product/orm/product.py:150-168 | The product iff it exists and is not soft-deleted. |
| ProductOrm.GetByUidAgreesWithGetAll | src/product/orm/product.py:150-168 | Found by key iff listed by the unfiltered listing. |
| ProductOrm.BrandNamed | src/product/orm/product.py:176 | A found brand has that name; none found means no brand has it. |
| ProductOrm.GetOrCreateBrand | src/product/orm/product.py:52 | The returned brand has the name; an existing brand is reused with nothing changed; otherwise exactly one brand is added. |
| ProductOrm.GetOrCreateBrandKeepsValid | src/product/orm/product.py:52 | `get_or_create` on a brand keeps validity and existing brands, and the name then finds the returned brand. |
| ProductOrm.CreateProduct | src/product/orm/product.py:49-56 | A taken code is refused with an integrity error and nothing changed; otherwise exactly one product is added, with the payload's fields, not deleted, under a brand with the payload's brand name. |
| ProductOrm.CreateProductKeepsValid | src/product/orm/product.py:49-56 | Creating keeps the store valid, and the new product is found by key. |
| ProductOrm.CreateReusesBrand | src/product/orm/product.py:52 | An existing brand name is reused; a new one adds exactly one brand. |
| ProductOrm.UpdateProduct | src/product/orm/product.py:170-179 | Refused, with nothing changed, iff no brand has the payload's brand name (`DoesNotExist`) or another product has the code; on success only that product changes, with the payload's set fields and the named brand. |
| ProductOrm.UpdateProductKeepsValid | src/product/orm/product.py:170-179 | Updating keeps the store valid. |
| ProductOrm.UpdateProductIdempotent | src/product/orm/product.py:170-179 | Updating never adds brands, and repeating a successful update changes nothing more. |
| ProductOrm.OnOff | src/product/orm/product.py:181-185 | Only that product's `deleted` flag flips. |
| ProductOrm.OnOffInvolution | src/product/orm/product.py:181-185 | Toggling twice restores the store; one toggle flips whether the product is found. |
| ProductOrm.OnOffKeepsValid | src/product/orm/product.py:181-185 | Toggling keeps the store valid. |
| ProductOrm.DeleteProduct | src/product/orm/product.py:187-190 | The product is removed, and so are its images, cart items and order items; nothing else changes. |
| ProductOrm.DeleteProductCascades | src/product/orm/product.py:187-190 | No image, cart item or order item of the product remains, and every row of other products stays. |
| ProductOrm.DeleteProductKeepsValid | src/product/orm/product.py:187-190 | A hard delete with its cascades keeps the store valid. |
| ProductOrm.ImagesFor | src/product/orm/product.py:106-120 | One image per uploaded URL, in order, for that product; only the first is the main image. |
| ProductOrm.UploadImage | src/product/orm/product.py:103-122 | The loop appends exactly those images and returns them. |
| ProductOrm.UploadImageKeepsValid | src/product/orm/product.py:103-122 | Adding the images keeps the store valid, and a non-empty upload has a main image. |
| ProductService.GetProduct | src/product/services/__init__.py:29-33 | `ProductDoesNotExist` iff the product is missing or soft-deleted; otherwise that product. |
| ProductService.Update | src/product/services/__init__.py:35-39 | Missing or soft-deleted products are refused first; otherwise the ORM update; validity kept. |
| ProductService.AddImages | src/product/services/__init__.py:22-24 | Missing or soft-deleted products are refused; otherwise the images are appended. |
| ProductService.Toggle | src/product/services/__init__.py:41-42 | An unknown key gives `DoesNotExist` (not `ProductDoesNotExist`); otherwise the deleted flag flips. |
| ProductService.Delete | src/product/services/__init__.py:44-48 | An unknown key gives `ProductDoesNotExist`; otherwise a hard delete whatever the deleted flag. |
| ProductModels.NewVerifyCode | src/product/models.py:59-75 | A new verification code starts with `scan_count` 0 and `max_scan` 3. |
| ProductModels.InsertReview | src/product/models.py:112-113 | A second review of the same product by the same user is refused with an integrity error; otherwise exactly one review is added. |
| ProductModels.InsertReviewKeepsUnique | src/product/models.py:112-113 | Accepted inserts keep at most one review per (product, user). |
| ProductUtils.HeadersMatchColumns | src/product/utils.py:9-18 | Exactly 8 distinct headers, in the order the row is unpacked. |
| ProductUtils.ToRow | src/product/utils.py:60-71 | The dict laid back out as a row has the 8 columns. |
| ProductUtils.ToDataRoundTrip | src/product/utils.py:60-71 | The dict carries the row's values unchanged, except that a missing description becomes "". |
| ProductUtils.DataRows | src/product/utils.py:42-45 | Rows are read from the second row on. |
| ProductUtils.KeptPositions | src/product/utils.py:57-58 | The positions kept are exactly the rows whose name, code, both prices, type and stock are all truthy, in increasing order. |
| ProductUtils.KeptData | src/product/utils.py:57-71 | Every output dict has name, code, both prices, type and stock truthy. |
| ProductUtils.KeptDataFollowsPositions | src/product/utils.py:57-71 | One dict per kept row, in input order, built from that row. |
| ProductUtils.NothingKeptNoData | src/product/utils.py:57-58 | When every row is skipped, there is no output. |
| ProductUtils.AllKeptAllData | src/product/utils.py:57-71 | When no row is skipped, there is one dict per row. |
| ProductUtils.NoKeptRowNoPosition | src/product/utils.py:57-58 | When every row is skipped, no position is kept. |
| ProductUtils.LoadProductInformation | src/product/utils.py:36-73 | Fails with a `ValueError` iff some data row does not unpack into 8 values; otherwise exactly the kept dicts. |
| ProductImport.RowFields | src/product/orm/product.py:86-96 | A kept row converts iff its price and stock cells are numbers and it has a brand name; the code is the row's code. |
| ProductImport.RowCode | src/product/orm/product.py:87 | A kept row's code is non-empty. |
| ProductImport.UpsertProductWrites | src/product/orm/product.py:86-97 | `update_or_create` by code writes the row's fields to the product with that code, or to one new product; products with other codes are unchanged. |
| ProductImport.UpsertRowWrites | src/product/orm/product.py:82-97 | One row's brand get-or-create and upsert: the written product carries the row; other codes and existing brands are unchanged. |
| ProductImport.UpsertRowKeepsValid | src/product/orm/product.py:82-97 | One row's upsert keeps the store valid. |
| ProductImport.ImportStep | src/product/orm/product.py:65-99 | A step that fails leaves the starting store, unless an earlier row had already failed. |
| ProductImport.ImportRows | src/product/orm/product.py:58-101 | A failed import leaves the store as it was (atomic). |
| ProductImport.ImportErrorSticks | src/product/orm/product.py:58-101 | An error in a prefix of the rows is the import's error, and nothing is written. |
| ProductImport.CreateMultiple | src/product/orm/product.py:58-101 | The loop computes exactly `ImportRows`, and keeps the store valid. |
| ProductImport.ImportSucceedsIff | src/product/orm/product.py:65-97 | The import succeeds iff every row unpacks into 8 values and every kept row converts. |
| ProductImport.ImportKeepsValid | src/product/orm/product.py:58-101 | An import keeps every store invariant. |
| ProductImport.KeptFields | src/product/orm/product.py:77-80 | The converted kept rows are no more than the rows. |
| ProductImport.KeptFieldsFollowsPositions | src/product/orm/product.py:77-96 | One converted record per kept row, in row order. |
| ProductImport.ImportHolds | src/product/orm/product.py:86-99 | Each returned product has its row's code, and the last row with a code decides that product's fields. |
| ProductImport.ImportFollowsRows | src/product/orm/product.py:86-101 | One returned product per kept row, in row order, with that row's code. |
| ProductImport.ImportLastRowWins | src/product/orm/product.py:86-97 | The product returned for the last kept row with a given code carries that row's fields. |
| ProductImport.ImportExtends | src/product/orm/product.py:82-97 | Existing products and brands are only overwritten by rows with their code or name. |
| ProductImport.ImportLeavesOthers | src/product/orm/product.py:86-97 | Only brands, products and the key counter change; existing brands stay; products whose code no kept row names stay unchanged. |
| ProductImport.SameCodeSameProduct | src/product/orm/product.py:86-97 | Rows with the same code return the same product. |
| ProductImport.ImportMatchesLoad | src/product/orm/product.py:77-99 | The import keeps the same rows as the row parser, with the same codes, in the same order. |
| AccountModels.AvailabilityOverTime | src/account/models.py:94-98 | A blacklisted token is never available; an available token was available earlier too; a token without expiry is never available. |
| AccountModels.PasswordOf | src/account/models.py:20 | `set_password(None)` stores an unusable password, and only `None` does. |
| AccountModels.SetDefault | src/account/models.py:25-26 | `setdefault` keeps a given value and fills a missing one with the default. |
| AccountModels.SaveNewUser | src/account/models.py:35-36 | Saving a user whose e-mail or Google id is taken is an integrity error and changes nothing; otherwise exactly that user is added under a fresh key. |
| AccountModels.SaveNewUserKeepsValid | src/account/models.py:35-36 | Saving a user keeps the store valid. |
| AccountModels.CreateUserAsWritten | src/account/models.py:16-22 | As written: an empty identifier is a `ValueError`; any other is a `TypeError` from the model constructor; nothing is saved. |
| AccountModels.CreateUserAsWrittenNeverCreates | src/account/models.py:19 | `create_user("a@b.c", "pw")` raises the `TypeError` and leaves the users unchanged. |
| AccountModels.CreateUser | src/account/models.py:16-22 | Corrected: an empty identifier is a `ValueError` with nothing created; otherwise one user with the identifier as e-mail, the given or default flags, and an unusable password iff none was given. |
| AccountModels.CreateUserDefaults | src/account/models.py:38-39 | A user created without flags is active, not staff and not superuser. |
| AccountModels.SuperuserFlags | src/account/models.py:24-27 | `create_superuser` makes staff and superuser unless the caller supplies those flags, in which case they are kept. |
| AccountModels.CreateUserKeepsValid | src/account/models.py:16-22 | Creating a user keeps the store valid. |
| AccountUtils.Timestamp | src/account/utils.py:23-24 | `int(t.timestamp())` is the whole number of seconds at or before a non-negative instant. |
| AccountUtils.GenerateKey | src/account/utils.py:11-35 | An unset or empty `SECRET_KEY` is a `ValueError`; a clashing token string is an integrity error; on error nothing changes; otherwise exactly one token is appended. |
| AccountUtils.GenerateKeyMints | src/account/utils.py:16-35 | The new token belongs to the user, is not blacklisted, expires the configured minutes (1440 by default) after now, signs the user, `iat` and `exp`, and is available when created. |
| AccountUtils.PayloadSpan | src/account/utils.py:19-24 | `exp` is `iat` plus the configured minutes in seconds. |
| AccountUtils.Newest | src/account/utils.py:39-45 | The token chosen is the user's unrevoked, unexpired token with the latest creation time, and none is chosen iff none exists. |
| AccountUtils.GetKeyAsWritten | src/account/utils.py:38 | As its callers invoke it, without the required `key_type`: a `TypeError`, with the store unchanged. |
| AccountUtils.GetKey | src/account/utils.py:38-46 | An existing usable token is returned with nothing changed; otherwise one new token of the user is minted. |
| AccountUtils.GetKeyReusesMinted | src/account/utils.py:38-46 | Calling `get_key` again right after it minted returns the same token and adds none. |
| AccountUtils.GenerateKeyKeepsValid | src/account/utils.py:11-35 | Minting keeps the store valid. |
| AccountUtils.GetKeyKeepsValid | src/account/utils.py:38-46 | `get_key` keeps the store valid. |
| AccountOrm.FindToken | src/account/orm/account.py:35-44 | The first token satisfying the filter, and none found iff no token does. |
| AccountOrm.SpentTokenIsGone | src/account/orm/account.py:54-55 | After blacklisting a token, no token with its string is available or unrevoked. |
| AccountOrm.BlacklistKeepsValid | src/account/orm/account.py:54-55 | Blacklisting keeps the store valid. |
| AccountOrm.RewriteUserKeepsValid | src/account/orm/account.py:50-52 | Rewriting a user's non-unique fields keeps the store valid. |
| AccountOrm.Register | src/account/orm/account.py:19-31 | Corrected: the inactive user is saved before `BACKEND_URL` is checked, so it persists even when registration then fails; a taken e-mail changes nothing; success needs a token and the URL. |
| AccountOrm.VerifyEmailRegister | src/account/orm/account.py:34-55 | Fails with nothing changed iff no available token has the string; otherwise the user becomes active and the token is spent, so it cannot verify twice. |
| AccountOrm.ActivateAndSpend | src/account/orm/account.py:49-55 | Activating and blacklisting leaves the user active, the token unusable, and the store valid. |
| AccountOrm.ActivateKeepsValid | src/account/orm/account.py:50-52 | Activating a user leaves the tokens as they were and keeps the store valid. |
| AccountOrm.VerifyActiveUserOnlySpendsToken | src/account/orm/account.py:50-55 | Verifying for an already active user changes no user. |
| AccountOrm.LoginWithCredential | src/account/orm/account.py:62-64 | Corrected: returns the string of a stored token of that user, or `get_key`'s error. |
| AccountOrm.KeyIsStored | src/account/utils.py:38-46 | The token `get_key` returns is stored and belongs to the user. |
| AccountOrm.LoginWithGoogle | src/account/orm/account.py:67-78 | Corrected: a known Google id reuses its user, adds none, and the result is `get_key`'s for that user. Otherwise a taken e-mail or Google id is an `IntegrityError` with nothing changed. Else exactly one active user with that Google id, e-mail and name and a password no raw string checks against is created under the fresh key; the store and result are `get_key`'s for that key, and the user stays when `get_key` fails. |
| AccountOrm.Logout | src/account/orm/account.py:85-95 | Fails with nothing changed iff no unrevoked token has the string (expiry is not checked); otherwise that token is blacklisted. |
| AccountOrm.LogoutIgnoresExpiry | src/account/orm/account.py:87-90 | An expired but unrevoked token can log out, though it is no longer available. |
| AccountOrm.ChangePassword | src/account/orm/account.py:102-104 | The new password checks afterwards. |
| AccountOrm.ResetPassword | src/account/orm/account.py:111-129 | Corrected: an unknown e-mail is `EmailNotExists` and an unset `BACKEND_URL` is a configuration error, both with nothing changed; otherwise `get_key` runs for the user. |
| AccountOrm.VerifyEmailResetPassword | src/account/orm/account.py:132-151 | Fails with nothing changed iff no available token matches; otherwise the token is spent and its user returned. |
| AccountOrm.SavePassword | src/account/orm/account.py:154-172 | Fails with nothing changed iff no available token matches; otherwise the token's user gets the new password and the token is spent. |
| AccountOrm.RegisterAsWritten | src/account/orm/account.py:19-23 | As written: a taken e-mail is an `IntegrityError` with nothing changed; otherwise the inactive user is saved and the call fails with `TypeError`. |
| AccountOrm.RegisterAsWrittenKeepsUser | src/account/orm/account.py:19-23 | Where the corrected registration gets the fresh user a token, the code as written keeps the same inactive user, stores one token fewer, and fails with `TypeError`. |
| AccountOrm.LoginWithCredentialAsWritten | src/account/orm/account.py:62-64 | As written: every call fails with `TypeError`, and the store is unchanged. |
| AccountOrm.LoginWithGoogleAsWritten | src/account/orm/account.py:67-78 | As written: a known Google id fails with `TypeError` and changes nothing. An unknown one fails with `IntegrityError` when the save is refused; otherwise the user is saved and the call fails with `TypeError`. |
| AccountOrm.LoginWithGoogleAsWrittenKeepsUser | src/account/orm/account.py:67-78 | For an unknown Google id and a free e-mail, the code as written keeps the new active user, adds no token, and fails with `TypeError`. |
| AccountOrm.ResetPasswordAsWritten | src/account/orm/account.py:111-121 | As written: the e-mail and `BACKEND_URL` checks work as intended; past them the call fails with `TypeError`. The store never changes. |
| AccountOrm.TokenHandOutsAsWrittenFail | src/account/orm/account.py:62-64 | Wherever the corrected `get_key` gives a known user a token, the login as written fails. The reset as written, with `BACKEND_URL` set, fails with `TypeError`. |
| AccountService.Register | src/account/services/__init__.py:23-30 | Empty e-mail, then empty password, then a taken e-mail are refused in that order with nothing changed; otherwise an inactive user is saved. |
| AccountService.VerifyEmailRegister | src/account/services/__init__.py:32-35 | An empty token or no available match is `InvalidOrExpiredToken` with nothing changed. |
| AccountService.LoginWithCredential | src/account/services/__init__.py:37-47 | An unknown e-mail and a wrong password give the same `EmailOrPasswordInvalid`; `UserNotActive` only after a correct password; success only for an active user with the right password. |
| AccountService.VerifyIdToken | src/account/services/__init__.py:49-72 | Accepted iff Google answers 200, `GOOGLE_CLIENT_ID` is set and `aud` equals it; an unset client id is a configuration error; every other refusal is `InvalidOrExpiredToken`. |
| AccountService.LoginWithGoogle | src/account/services/__init__.py:74-91 | An empty id token, an unaccepted one, or data without `sub` or `email` are refused with nothing changed; `name` defaults to "". |
| AccountService.Logout | src/account/services/__init__.py:93-98 | An empty token or no unrevoked match is refused with nothing changed; afterwards the token neither logs out nor authenticates. |
| AccountService.ChangePassword | src/account/services/__init__.py:100-103 | A wrong old password is `OldPasswordInvalid` and the password stays; otherwise the new password checks. |
| AccountService.ResetPassword | src/account/services/__init__.py:105-108 | An empty e-mail is `EmailRequired` and an unknown one `EmailNotExists`, with nothing changed. |
| AccountService.VerifyEmailResetPassword | src/account/services/__init__.py:110-113 | An empty token or no available match is refused with nothing changed; otherwise an existing user is returned. |
| AccountService.SavePassword | src/account/services/__init__.py:115-120 | Empty token, then empty new password, are refused; any failure leaves every password as it was; success sets the token user's password. |
| Router.VerifyToken | src/router/authenticate.py:20-28 | A token with exactly that string that is available now, and `InvalidOrExpiredToken` iff there is none. |
| Router.LoggedOutTokenRejected | src/router/authenticate.py:21-23 | A blacklisted token's string is rejected at any moment. |
| Router.ExpiredTokenRejected | src/router/authenticate.py:21-23 | A token expired before now is rejected. |
| Router.Request.Authenticate | src/router/authenticate.py:31-37 | A rejected token leaves the request as it was; an accepted one puts the token and its user on the request. |
| Router.IsUser | src/router/authorize.py:10-18 | A 403 refusal iff the user is staff. |
| Router.IsAdmin | src/router/authorize.py:21-29 | A 403 refusal iff the user is not staff. |
| Router.ExactlyOneRolePasses | src/router/authorize.py:10-29 | Every user passes exactly one of the two checks, and a refusal is a 403. |
| Exceptions.GroupLookup | src/exceptions/exception.py:96-100 | Each group holds exactly the values appended under its key, in input order. |
| Exceptions.GroupKeys | src/exceptions/exception.py:96-100 | The groups' keys are the input's keys, each once, in order of first appearance. |
| Exceptions.CreateResponse | src/exceptions/exception.py:35-47 | The body carries the message, the code and the detail; the error code defaults to 500 and the data to null. |
| Exceptions.Describe | src/exceptions/exception.py:58-62 | The string form is the message code, ": ", then the message. |
| Exceptions.DescribeRoundTrip | src/exceptions/exception.py:58-62 | For a message code without a colon, the code and message can be read back from the string form. |
| Exceptions.DefaultResponse | src/exceptions/exception.py:78-84 | 500, "CONTACT_ADMIN_FOR_SUPPORT", no data. |
| Exceptions.AuthenticationResponse | src/exceptions/exception.py:87-91 | 401, "UNAUTHORIZED", no data. |
| Exceptions.HttpErrorResponse | src/exceptions/exception.py:110-117 | The error's own status, "HTTP_ERROR", its text as data. |
| Exceptions.CustomResponse | src/exceptions/exception.py:120-127 | The exception's message, message code, error code and detail, copied. |
| Exceptions.ValidationHandler | src/exceptions/exception.py:94-107 | The loop builds exactly `ValidationResponse`, the grouping by field, with 401 and "VALIDATION_ERROR". |
| Exceptions.FieldMessagesAt | src/exceptions/exception.py:97-100 | The messages kept under a field are exactly those of entries with a `msg` and a non-empty `loc` ending in that field, in input order. |
| Exceptions.ValidationGroupsByField | src/exceptions/exception.py:96-107 | The response lists each field once, in first-appearance order, with exactly its messages in order. |
| Exceptions.Handle | src/exceptions/exception.py:130-138 | API exceptions get the custom response; database and any other errors get the default one. |
| Exceptions.ResponseStatus | src/exceptions/exception.py:130-138 | Every modelled error gets its class's status and code, an HttpError its own status, anything else 500; no API error answers 200. |
| Exceptions.StatusSchemas | src/exceptions/exception.py:150-163 | One (status, schema) pair per exception, in order, with its message and message code. |
| Exceptions.GenerateExceptionResponse | src/exceptions/exception.py:145-172 | The loop builds exactly the documentation of the grouped schemas. |
| Exceptions.DocsByStatus | src/exceptions/exception.py:163-172 | A status is documented iff it is 200 or some exception's status; 200 is the success schema unless an exception claims it; each other status is the non-empty union of its schemas in order. |
| Exceptions.ModelErrorsKeepSuccess | src/exceptions/exception.py:166-172 | Documenting this model's errors always keeps the success entry. |

## Left out

- Concurrency: `select_for_update` row locks and cross-request races are not modelled. Every operation runs alone, and `transaction.atomic` is an all-or-nothing return of the old store.
- OrderModels.CalculateDiscountAmountAsWritten: the percent branch of `calculate_discount_amount` divides with `/`, a float; it is modelled with exact rationals, not IEEE doubles. The corrected `OrderModels.CalculateDiscountAmount` floors the percentage instead, as `create_order` does with `//` (src/order/orm/order.py:123).
- I/O and foreign calls:
  - e-mail sending and its templates;
  - Cloudinary uploads (their URLs are inputs);
  - workbook loading and building;
  - logging;
  - JSON responses and `current_time` stamps.
- Password hashing: `set_password` stores `Hashed(raw)`, and `check_password` compares with it.
- `jwt.encode` is an arbitrary signing function; token uniqueness rests on the database constraint.
- The environment is a record of optional strings. `AUTHENTICATE_TOKEN_EXPIRES_IN` is already an integer there: a value `int()` would reject is not modelled.
- Google's tokeninfo reply is a status and a map of strings; non-string JSON values are not modelled.
- `key_type` is dropped from `get_key` and `generate_key`: it has no effect in the code. Its four callers leave it out; that defect is a Findings row per caller.
- AccountOrm.Register: models the intended `get_key` call. As written, the call fails with `TypeError` after the user is saved; see `AccountOrm.RegisterAsWritten`.
- AccountOrm.LoginWithCredential: models the intended `get_key` call. As written, it always fails with `TypeError`; see `AccountOrm.LoginWithCredentialAsWritten`.
- AccountOrm.LoginWithGoogle: models the intended `get_key` call. As written, it fails with `TypeError`, after creating the user when the Google id is unknown; see `AccountOrm.LoginWithGoogleAsWritten`.
- AccountOrm.ResetPassword: models the intended `get_key` call. As written, it fails with `TypeError` once the e-mail and `BACKEND_URL` checks pass; see `AccountOrm.ResetPasswordAsWritten`.
- The account service members build on the corrected account members.
- OrderOrm.PlaceOrder, CartOrm.AddToCart, ProductImport.RowFields, ProductOrm.CreateProduct and ProductOrm.UpdateProduct: integer columns are unbounded and text columns have no length limit. The database refuses a value out of range or too long (`DataError`), and an atomic operation then rolls back; the model accepts such a value. Not modelled:
  - the range of the `IntegerField` and `PositiveIntegerField` columns (prices, quantities, totals, stock), which depends on the database backend;
  - the `max_length` of the `CharField` columns (e.g. order code 20, phone 20, note 255, product code 50, brand name 100).
- Exceptions: router/exception.py is not part of this model. src/router/api.py:9 takes its handlers from there, and the API exception classes subclass its `APIException` (e.g. src/account/exceptions.py:3). The `Exceptions` module models src/exceptions/exception.py and assumes router/exception.py behaves the same.
- The registration endpoint that passes `identifier=` to the `register` service is not part of this model: it lies in the API layer.
- `icontains` is a containment predicate given as a parameter; case folding is not modelled.
- The order of products with equal sale prices is not fixed by the code, and it is not stated.
- ProductImport.RowFields: a text cell in a numeric column is refused as `int()` would refuse it. Numeric text that `int()` would accept ("12") is not parsed.
- ProductUtils.Cell: a cell is blank, text or a whole number. The float, boolean and date cells a workbook can also hold are not modelled, so neither is `int()` truncating 12.5 to 12 or turning `True` into 1 in `ProductImport.RowFields`.
- OrderOrm.CartKeysWhere and CartOrm.ItemsOfCart: the cart-item querysets of src/order/orm/order.py:31-33 and src/cart/orm/cart.py:66 have no `order_by`, so the database fixes no order. The model reads them in ascending key order, a choice the code does not make.
- The validation handler's `loc` elements are strings; numeric positions in `loc` are not modelled.
- `HTTPStatus(...)` rejecting an unknown status code in `generate_exception_response` is not modelled: statuses are plain integers.
- `Schema.ShippingInfo` (the name src/order/orm/order.py imports) and the store's `shippingInfos` table stand for the `ShippingAddress` model of src/account/models.py:49-65. The placement members model the intended lookup; the failing import is the `OrderOrm.PlaceOrderAsWritten` finding.
- `VerifyCode` and `Review` are kept outside the store, so product deletion does not cascade to them.
- The order service's `create_order`, `get_order_by_uid` and `get_user_orders`, and the product service's `create`, `create_multiple` and `get_all`, pass straight through to the ORM. The ORM members stand for them.
- `set_status` saves the order it is called on; the model returns the updated order value, as every write in this model returns the new store.
- Routing, controllers and pagination are not part of this model, nor are the admin classes, request and response schemas, and chat.

## Findings

| source | as written | input that shows it | evidently intended | confidence | as-written member | corrected member |
|---|---|---|---|---|---|---|
| src/order/models.py:55-61 | compares `type` with the display labels "Percent" and "Fixed", but the stored values are "percent" and "fixed" (lines 32-35) | a discount of type "percent", value 10, amount 1000: gives 0, not 100 | dispatch on the stored keys, and floor the percentage as `create_order` does with `//` (src/order/orm/order.py:123) | not executed | OrderModels.CalculateDiscountAmountAsWritten | OrderModels.CalculateDiscountAmount |
| src/order/models.py:110-113 | calls `item.total_price()`, but `total_price` is a property, so the call is made on an int | any order with at least one item raises `TypeError` | sum the `total_price` property | not executed | OrderModels.CalculateTotalAsWritten | OrderModels.CalculateTotal |
| src/account/models.py:16-22 | builds `User(identifier=...)`, but the model has no `identifier` field (its username field is `email`) | `create_user("a@b.c", "pw")` raises `TypeError` and saves nothing | store the identifier in the username field `email` | not executed | AccountModels.CreateUserAsWritten | AccountModels.CreateUser |
| src/account/orm/account.py:23 | calls `get_key(user=user)` without `key_type`, a required parameter of `get_key` (src/account/utils.py:38) | `register` with a fresh e-mail: the inactive user is saved, then `TypeError`; no token, no e-mail | pass the key type, so the new user gets a token | not executed | AccountOrm.RegisterAsWritten | AccountOrm.Register |
| src/account/orm/account.py:63 | calls `get_key(user=user)` without the required `key_type` | any call of `login_with_credential` raises `TypeError` | pass the key type, so the user's token is returned | not executed | AccountOrm.LoginWithCredentialAsWritten | AccountOrm.LoginWithCredential |
| src/account/orm/account.py:78 | calls `get_key(user=user)` without the required `key_type` | an unknown Google id with a free e-mail: the user is created, then `TypeError` | pass the key type, so the user's token is returned | not executed | AccountOrm.LoginWithGoogleAsWritten | AccountOrm.LoginWithGoogle |
| src/account/orm/account.py:121 | calls `get_key(user=user)` without the required `key_type` | a known e-mail with `BACKEND_URL` set raises `TypeError`, and no link is sent | pass the key type, so a token is got and mailed | not executed | AccountOrm.ResetPasswordAsWritten | AccountOrm.ResetPassword |
| src/order/orm/order.py:10 | imports `ShippingInfo` from `account.models`, which defines no such class; its shipping-address model is `ShippingAddress` (src/account/models.py:49) | any call of `create_order`: importing the module raises `ImportError`, so no order is ever placed | look up the `ShippingAddress` row by id | not executed | OrderOrm.PlaceOrderAsWritten | OrderOrm.PlaceOrder |
