/**
 * The order ORM of order/orm/order.py: the order-placement transaction
 * `create_order`, the unchecked status write and the two order queries.
 *
 * `create_order` runs under `transaction.atomic`. The store is a value here:
 * `CreateOrder` works on local copies and returns either the committed store
 * or, on any error, the store it was given. `PlaceOrder` is its specification.
 */
module OrderOrm {
  import opened Common
  import opened Errors
  import opened Schema
  import opened OrderModels
  import opened OrderUtils

  /** `OrderRequestSchema.source`: "buy_now" or "cart". */
  datatype Source = BuyNow | FromCart

  datatype LineRequest = LineRequest(productUid: Uid, quantity: int)

  datatype OrderRequest = OrderRequest(
    source: Source,
    shippingInfoId: int,
    note: Option<string>,
    discountCode: Option<string>,
    orderItems: seq<LineRequest>)

  const OrderShippingFee: int := 15000
  const CashOnDelivery: string := "cod"
  /** The literal `create_order` writes: the upper-case `OrderStatus.PENDING` value. */
  const PendingStatus: string := "PENDING"

  /** A resolved line: the product to reserve and the quantity to take. */
  datatype Line = Line(product: Uid, quantity: int)

  function RequestedUids(req: OrderRequest): seq<Uid> {
    seq(|req.orderItems|, i requires 0 <= i < |req.orderItems| => req.orderItems[i].productUid)
  }

  /** `CartItem.objects.filter(cart__user=user, product__uid__in=product_uids)`. */
  predicate SelectedIn(carts: map<Uid, Cart>, user: Uid, uids: seq<Uid>, item: CartItem) {
    item.cart in carts && carts[item.cart].user == user && item.product in uids
  }

  predicate Selected(db: Db, user: Uid, uids: seq<Uid>, item: CartItem) {
    SelectedIn(db.carts, user, uids, item)
  }

  function CartKeysWhere(carts: map<Uid, Cart>, cartItems: map<Uid, CartItem>, bound: nat, user: Uid, uids: seq<Uid>): (keys: seq<Uid>)
    ensures forall i :: 0 <= i < |keys| ==> keys[i] in cartItems && SelectedIn(carts, user, uids, cartItems[keys[i]])
    ensures forall k :: k in cartItems && k < bound && SelectedIn(carts, user, uids, cartItems[k]) ==> k in keys
    ensures forall i, j :: 0 <= i < j < |keys| ==> keys[i] < keys[j]
    ensures (forall k :: k in cartItems ==> !SelectedIn(carts, user, uids, cartItems[k])) ==> keys == []
  {
    KeysWhere(cartItems, (item: CartItem) => SelectedIn(carts, user, uids, item), bound)
  }

  /** The user's cart items selected by the request, in ascending key order. */
  function SelectedCartKeys(db: Db, user: Uid, req: OrderRequest): (keys: seq<Uid>)
    ensures forall i :: 0 <= i < |keys| ==> keys[i] in db.cartItems && Selected(db, user, RequestedUids(req), db.cartItems[keys[i]])
  {
    CartKeysWhere(db.carts, db.cartItems, db.nextId, user, RequestedUids(req))
  }

  /**
   * Step 1 of `create_order`: in buy-now mode the request's lines as given; in cart
   * mode the selected cart items, each with the cart item's own quantity.
   */
  function ResolveLines(db: Db, user: Uid, req: OrderRequest): seq<Line> {
    match req.source
    case BuyNow =>
      seq(|req.orderItems|, i requires 0 <= i < |req.orderItems| =>
        Line(req.orderItems[i].productUid, req.orderItems[i].quantity))
    case FromCart =>
      var keys := SelectedCartKeys(db, user, req);
      seq(|keys|, i requires 0 <= i < |keys| =>
        Line(db.cartItems[keys[i]].product, db.cartItems[keys[i]].quantity))
  }

  /** The stock held so far, the order items created so far, and `items_total`. */
  datatype Reservation = Reservation(products: map<Uid, Product>, items: seq<OrderItem>, itemsTotal: int)

  /** The total quantity the lines ask of product `p`. */
  function QtyOf(lines: seq<Line>, p: Uid): int {
    if lines == [] then 0
    else QtyOf(lines[..|lines| - 1], p) + (if lines[|lines| - 1].product == p then lines[|lines| - 1].quantity else 0)
  }

  /**
   * One iteration of step 4: the product must be present, the quantity must not
   * exceed the stock as already reduced by earlier lines, and the order item's
   * PositiveIntegerField columns reject a negative price or quantity.
   */
  function ReserveLine(res: Reservation, order: Uid, line: Line): Result<Reservation> {
    if line.product !in res.products then Err(ProductDoesNotExists)
    else
      var p := res.products[line.product];
      if line.quantity > p.quantityInStock then Err(ProductOutOfStock)
      else if p.salePrice < 0 || line.quantity < 0 then Err(IntegrityError)
      else Ok(Reservation(
        res.products[line.product := p.(quantityInStock := p.quantityInStock - line.quantity)],
        res.items + [OrderItem(order, line.product, p.salePrice, line.quantity)],
        res.itemsTotal + p.salePrice * line.quantity))
  }

  /** Step 4 over the first lines, stopping at the first line that raises. */
  function Reserve(products: map<Uid, Product>, order: Uid, lines: seq<Line>): Result<Reservation> {
    if lines == [] then Ok(Reservation(products, [], 0))
    else
      match Reserve(products, order, lines[..|lines| - 1])
      case Err(e) => Err(e)
      case Ok(res) => ReserveLine(res, order, lines[|lines| - 1])
  }

  /**
   * A successful reservation changes only stock, and each product's stock drops by
   * exactly what the lines asked of it.
   */
  lemma {:induction false} ReserveStock(products: map<Uid, Product>, order: Uid, lines: seq<Line>)
    requires Reserve(products, order, lines).Ok?
    ensures Reserve(products, order, lines).value.products.Keys == products.Keys
    ensures forall k :: k in products ==>
      Reserve(products, order, lines).value.products[k]
        == products[k].(quantityInStock := products[k].quantityInStock - QtyOf(lines, k))
    decreases |lines|
  {
    if lines != [] {
      var pre, last := lines[..|lines| - 1], lines[|lines| - 1];
      ReserveStock(products, order, pre);
      var res := Reserve(products, order, pre).value;
      var p := res.products[last.product];
      assert Reserve(products, order, lines).value.products
        == res.products[last.product := p.(quantityInStock := p.quantityInStock - last.quantity)];
      forall k | k in products
        ensures Reserve(products, order, lines).value.products[k]
          == products[k].(quantityInStock := products[k].quantityInStock - QtyOf(lines, k))
      {
        assert QtyOf(lines, k) == QtyOf(pre, k) + (if last.product == k then last.quantity else 0);
      }
    }
  }

  /**
   * A successful reservation records one order item per line, in line order, with
   * the product's sale price and the line's quantity, both non-negative; every
   * product it touched keeps a non-negative stock.
   */
  lemma {:induction false} ReserveItems(products: map<Uid, Product>, order: Uid, lines: seq<Line>)
    requires Reserve(products, order, lines).Ok?
    ensures |Reserve(products, order, lines).value.items| == |lines|
    ensures forall i :: 0 <= i < |lines| ==>
      && lines[i].product in products
      && Reserve(products, order, lines).value.items[i]
           == OrderItem(order, lines[i].product, products[lines[i].product].salePrice, lines[i].quantity)
      && products[lines[i].product].salePrice >= 0 && lines[i].quantity >= 0
      && lines[i].product in Reserve(products, order, lines).value.products
      && Reserve(products, order, lines).value.products[lines[i].product].quantityInStock >= 0
    decreases |lines|
  {
    if lines != [] {
      var n := |lines| - 1;
      var pre, last := lines[..n], lines[n];
      ReserveItems(products, order, pre);
      ReserveStock(products, order, pre);
      var res := Reserve(products, order, pre).value;
      var res' := Reserve(products, order, lines).value;
      ReserveLineFacts(res, order, last);
      PrefixesAgree(lines, n);
      forall i | 0 <= i < |lines|
        ensures lines[i].product in res'.products && res'.products[lines[i].product].quantityInStock >= 0
      {
      }
      forall i | 0 <= i < n
        ensures res'.items[i] == res.items[i]
      {
      }
    }
  }

  /** One successful line: its order item is appended at the stock's price, and only its product's stock moves, staying non-negative. */
  lemma {:induction false} ReserveLineFacts(res: Reservation, order: Uid, line: Line)
    requires ReserveLine(res, order, line).Ok?
    ensures var r := ReserveLine(res, order, line).value;
      && line.product in res.products
      && r.items == res.items + [OrderItem(order, line.product, res.products[line.product].salePrice, line.quantity)]
      && res.products[line.product].salePrice >= 0 && line.quantity >= 0
      && r.products.Keys == res.products.Keys
      && r.products[line.product].quantityInStock >= 0
      && (forall k :: k in res.products && k != line.product ==> r.products[k] == res.products[k])
  {
  }

  /** `items_total` is the sum of the created items' `total_price`. */
  lemma {:induction false} ReserveTotal(products: map<Uid, Product>, order: Uid, lines: seq<Line>)
    requires Reserve(products, order, lines).Ok?
    ensures Reserve(products, order, lines).value.itemsTotal == ItemsTotal(Reserve(products, order, lines).value.items)
    decreases |lines|
  {
    if lines != [] {
      var pre, last := lines[..|lines| - 1], lines[|lines| - 1];
      ReserveTotal(products, order, pre);
      var res := Reserve(products, order, pre).value;
      var res' := Reserve(products, order, lines).value;
      var p := res.products[last.product];
      var item := OrderItem(order, last.product, p.salePrice, last.quantity);
      assert res'.items == res.items + [item];
      ItemsTotalAppend(res.items, [item]);
      assert ItemsTotal([item]) == OrderItemTotalPrice(item) by {
        assert [item][..0] == [];
      }
    }
  }

  /** The error, if any, that a line raises given the lines before it. */
  function LineCheck(products: map<Uid, Product>, earlier: seq<Line>, line: Line): Option<Error> {
    if line.product !in products then Some(ProductDoesNotExists)
    else if line.quantity > products[line.product].quantityInStock - QtyOf(earlier, line.product) then Some(ProductOutOfStock)
    else if products[line.product].salePrice < 0 || line.quantity < 0 then Some(IntegrityError)
    else None
  }

  /**
   * The reservation succeeds iff every line passes its check against the stock left
   * by the lines before it; when it fails, the error is the first failing line's.
   */
  lemma {:induction false} ReserveOkIff(products: map<Uid, Product>, order: Uid, lines: seq<Line>)
    ensures Reserve(products, order, lines).Ok? <==> AllLinesPass(products, lines)
    ensures Reserve(products, order, lines).Err? ==> FailsFirstWith(products, lines, Reserve(products, order, lines).error)
    decreases |lines|
  {
    if lines != [] {
      var n := |lines| - 1;
      ReserveOkIff(products, order, lines[..n]);
      if Reserve(products, order, lines[..n]).Err? {
        FailedPrefixStep(products, order, lines);
      } else {
        PassedPrefixStep(products, order, lines);
      }
    }
  }

  /** Every line passes its check against the lines before it. */
  predicate AllLinesPass(products: map<Uid, Product>, lines: seq<Line>) {
    forall i :: 0 <= i < |lines| ==> LineCheck(products, lines[..i], lines[i]).None?
  }

  /** Some line fails with `e` and every line before it passes. */
  predicate FailsFirstWith(products: map<Uid, Product>, lines: seq<Line>, e: Error) {
    exists i :: 0 <= i < |lines|
      && (forall j :: 0 <= j < i ==> LineCheck(products, lines[..j], lines[j]).None?)
      && LineCheck(products, lines[..i], lines[i]) == Some(e)
  }

  lemma {:induction false} FailedPrefixStep(products: map<Uid, Product>, order: Uid, lines: seq<Line>)
    requires |lines| > 0 && Reserve(products, order, lines[..|lines| - 1]).Err?
    requires FailsFirstWith(products, lines[..|lines| - 1], Reserve(products, order, lines[..|lines| - 1]).error)
    ensures Reserve(products, order, lines).Err? && !AllLinesPass(products, lines)
    ensures FailsFirstWith(products, lines, Reserve(products, order, lines).error)
  {
    var n := |lines| - 1;
    var pre := lines[..n];
    var e := Reserve(products, order, pre).error;
    PrefixesAgree(lines, n);
    var i :| 0 <= i < n
      && (forall j :: 0 <= j < i ==> LineCheck(products, pre[..j], pre[j]).None?)
      && LineCheck(products, pre[..i], pre[i]) == Some(e);
    assert LineCheck(products, lines[..i], lines[i]) == Some(e);
    assert forall j :: 0 <= j < i ==> LineCheck(products, lines[..j], lines[j]).None?;
  }

  lemma {:induction false} PassedPrefixStep(products: map<Uid, Product>, order: Uid, lines: seq<Line>)
    requires |lines| > 0 && Reserve(products, order, lines[..|lines| - 1]).Ok?
    requires AllLinesPass(products, lines[..|lines| - 1])
    ensures Reserve(products, order, lines).Ok? <==> AllLinesPass(products, lines)
    ensures Reserve(products, order, lines).Err? ==> FailsFirstWith(products, lines, Reserve(products, order, lines).error)
  {
    var n := |lines| - 1;
    var pre := lines[..n];
    PrefixesAgree(lines, n);
    LastLineCheck(products, order, pre, lines[n]);
    assert forall j :: 0 <= j < n ==> LineCheck(products, lines[..j], lines[j]).None?;
  }

  lemma {:induction false} PrefixesAgree(lines: seq<Line>, n: nat)
    requires n <= |lines|
    ensures forall j :: 0 <= j <= n ==> lines[..j] == lines[..n][..j]
    ensures forall j :: 0 <= j < n ==> lines[j] == lines[..n][j]
  {
  }

  /** The line after a successful prefix raises exactly what its check against the prefix says. */
  lemma {:induction false} LastLineCheck(products: map<Uid, Product>, order: Uid, pre: seq<Line>, last: Line)
    requires Reserve(products, order, pre).Ok?
    ensures var r := ReserveLine(Reserve(products, order, pre).value, order, last);
      && (r.Ok? <==> LineCheck(products, pre, last).None?)
      && (r.Err? ==> LineCheck(products, pre, last) == Some(r.error))
  {
    ReserveStock(products, order, pre);
    var res := Reserve(products, order, pre).value;
    if last.product in products {
      assert res.products[last.product].quantityInStock
        == products[last.product].quantityInStock - QtyOf(pre, last.product);
    }
  }

  /** Once a prefix of the lines fails, the whole reservation fails with that error. */
  lemma {:induction false} ReserveErrPersists(products: map<Uid, Product>, order: Uid, lines: seq<Line>, n: nat)
    requires n <= |lines| && Reserve(products, order, lines[..n]).Err?
    ensures Reserve(products, order, lines) == Reserve(products, order, lines[..n])
    decreases |lines|
  {
    if n == |lines| {
      assert lines[..n] == lines;
    } else {
      var pre := lines[..|lines| - 1];
      assert pre[..n] == lines[..n];
      ReserveErrPersists(products, order, pre, n);
    }
  }

  /** A code already used by an order: the unique constraint on `Order.code` rejects it. */
  predicate CodeTaken(orders: map<Uid, Order>, code: string) {
    exists k :: k in orders && orders[k].code == code
  }

  datatype Applied = Applied(discount: Option<Uid>, amount: int)

  /**
   * Step 5: no code (None or "") gives no discount and an amount of 0; otherwise the
   * first discount with that code must exist and be active, and a "percent" discount
   * takes the floor of `items_total * value / 100` while any other kind takes `value`.
   */
  function ApplyDiscount(discounts: map<Uid, Discount>, code: Option<string>, itemsTotal: int, today: Date, bound: nat): (r: Result<Applied>)
    ensures !Truthy(code) ==> r == Ok(Applied(None, 0))
    ensures Truthy(code) && r.Ok? ==>
      && r.value.discount.Some?
      && r.value.discount.value in discounts
      && discounts[r.value.discount.value].code == code.value
      && IsActive(discounts[r.value.discount.value], today)
    ensures Truthy(code) && r.Ok? && discounts[r.value.discount.value].kind == PercentKind ==>
      r.value.amount * 100 <= itemsTotal * discounts[r.value.discount.value].value < r.value.amount * 100 + 100
    ensures Truthy(code) && r.Ok? && discounts[r.value.discount.value].kind != PercentKind ==>
      r.value.amount == discounts[r.value.discount.value].value
    ensures r.Err? ==> r.error == DiscountDoesNotExists && Truthy(code)
  {
    if !Truthy(code) then Ok(Applied(None, 0))
    else
      match FirstWhere(discounts, (d: Discount) => d.code == code.value, bound)
      case None => Err(DiscountDoesNotExists)
      case Some(k) =>
        var d := discounts[k];
        if !IsActive(d, today) then Err(DiscountDoesNotExists)
        else Ok(Applied(Some(k), if d.kind == PercentKind then itemsTotal * d.value / 100 else d.value))
  }

  /** With unique codes, a code is refused iff no discount with that code is active today. */
  lemma {:induction false} ApplyDiscountRefusesIff(discounts: map<Uid, Discount>, code: Option<string>, itemsTotal: int, today: Date, bound: nat)
    requires DiscountCodesUnique(discounts)
    requires forall k :: k in discounts ==> k < bound
    ensures ApplyDiscount(discounts, code, itemsTotal, today, bound).Err? <==>
      Truthy(code) && forall k :: k in discounts && discounts[k].code == code.value ==> !IsActive(discounts[k], today)
  {
    if Truthy(code) {
      var found := FirstWhere(discounts, (d: Discount) => d.code == code.value, bound);
      if found.Some? {
        forall k | k in discounts && discounts[k].code == code.value
          ensures k == found.value
        {
        }
      }
    }
  }

  /** The order row `create_order` saves. */
  function NewOrder(db: Db, user: Uid, req: OrderRequest, today: Date, code: string, itemsTotal: int, applied: Applied): Order
    requires req.shippingInfoId in db.shippingInfos
  {
    var si := db.shippingInfos[req.shippingInfoId];
    Order(code, today, None, CashOnDelivery, itemsTotal + OrderShippingFee - applied.amount, Some(applied.amount),
      OrderShippingFee, PendingStatus, req.note, si.name, si.phone, si.address, user, applied.discount)
  }

  /** What is left of the cart items after step 4: cart mode deletes the selected ones. */
  function RemainingCartItems(db: Db, user: Uid, req: OrderRequest): map<Uid, CartItem> {
    if req.source == FromCart then db.cartItems - SeqToSet(SelectedCartKeys(db, user, req)) else db.cartItems
  }

  /**
   * `create_order` as order/orm/order.py is written: the module imports `ShippingInfo`
   * from account/models.py, which defines no such class (its shipping-address model is
   * `ShippingAddress`), so importing the module fails and no placement ever runs.
   */
  function PlaceOrderAsWritten(db: Db, user: Uid, req: OrderRequest, today: Date, code: string): (out: (Db, Result<Uid>))
    ensures out.0 == db
    ensures out.1.Err? && out.1.error.ImportError?
  {
    (db, Err(ImportError("cannot import name 'ShippingInfo' from 'account.models'")))
  }

  /**
   * The discrepancy: every request the intended placement accepts adds an order to a
   * valid store, and the module as written adds none and answers an ImportError.
   */
  lemma PlaceOrderAsWrittenNeverPlaces(db: Db, user: Uid, req: OrderRequest, today: Date, code: string)
    requires Valid(db)
    requires PlaceOrder(db, user, req, today, code).1.Ok?
    ensures PlaceOrderAsWritten(db, user, req, today, code).1.Err?
    ensures PlaceOrderAsWritten(db, user, req, today, code).0.orders.Keys < PlaceOrder(db, user, req, today, code).0.orders.Keys
  {
  }

  /**
   * `create_order` as one all-or-nothing step: the committed store and the new
   * order's key, or the error with the store given. The shipping info is looked up
   * by id alone; the order key comes from `nextId` and the code from the caller
   * (it is drawn by `generate_code`).
   */
  function PlaceOrder(db: Db, user: Uid, req: OrderRequest, today: Date, code: string): (out: (Db, Result<Uid>))
    ensures out.1.Err? ==> out.0 == db
    ensures out.1.Ok? ==> out.1.value == db.nextId && out.0.nextId == db.nextId + 1 && db.nextId in out.0.orders
  {
    if req.shippingInfoId !in db.shippingInfos then (db, Err(ShippingInfoDoesNotExists))
    else if CodeTaken(db.orders, code) then (db, Err(IntegrityError))
    else
      var uid := db.nextId;
      match Reserve(db.products, uid, ResolveLines(db, user, req))
      case Err(e) => (db, Err(e))
      case Ok(res) =>
        match ApplyDiscount(db.discounts, req.discountCode, res.itemsTotal, today, db.nextId)
        case Err(e) => (db, Err(e))
        case Ok(applied) =>
          (Commit(db, res.products, res.items, RemainingCartItems(db, user, req),
                  NewOrder(db, user, req, today, code, res.itemsTotal, applied)),
           Ok(uid))
  }

  /** The store a successful placement commits. */
  function Commit(db: Db, products: map<Uid, Product>, items: seq<OrderItem>, cartItems: map<Uid, CartItem>, order: Order): Db {
    db.(products := products, orderItems := db.orderItems + items, cartItems := cartItems,
        orders := db.orders[db.nextId := order], nextId := db.nextId + 1)
  }

  /**
   * What a placement's commit satisfies: stock-only product changes, a fresh order
   * with an unused code, items that point at it and at existing products with
   * non-negative columns, and a subset of the cart items.
   */
  ghost predicate CommitFits(db: Db, products: map<Uid, Product>, items: seq<OrderItem>, cartItems: map<Uid, CartItem>, order: Order) {
    && Valid(db)
    && products.Keys == db.products.Keys
    && (forall k :: k in products ==> products[k] == db.products[k].(quantityInStock := products[k].quantityInStock))
    && (forall i :: 0 <= i < |items| ==>
          items[i].order == db.nextId && items[i].product in db.products && items[i].price >= 0 && items[i].quantity >= 0)
    && (forall k :: k in cartItems ==> k in db.cartItems && cartItems[k] == db.cartItems[k])
    && order.user in db.users
    && (order.discount.Some? ==> order.discount.value in db.discounts)
    && !CodeTaken(db.orders, order.code)
  }

  lemma {:induction false} CommitKeepsUnique(db: Db, products: map<Uid, Product>, items: seq<OrderItem>, cartItems: map<Uid, CartItem>, order: Order)
    requires CommitFits(db, products, items, cartItems, order)
    ensures KeysBelow(Commit(db, products, items, cartItems, order))
    ensures Unique(Commit(db, products, items, cartItems, order))
  {
    var db' := Commit(db, products, items, cartItems, order);
    assert db.nextId !in db.orders;
    forall a, b | a in products && b in products && products[a].code == products[b].code
      ensures a == b
    {
      assert products[a].code == db.products[a].code;
      assert products[b].code == db.products[b].code;
    }
    assert OrderCodesUnique(db'.orders);
  }

  lemma {:induction false} CommitKeepsRefs(db: Db, products: map<Uid, Product>, items: seq<OrderItem>, cartItems: map<Uid, CartItem>, order: Order)
    requires CommitFits(db, products, items, cartItems, order)
    ensures Refs(Commit(db, products, items, cartItems, order))
  {
    var db' := Commit(db, products, items, cartItems, order);
    forall k | k in products ensures products[k].brand in db.brands {
      assert products[k].brand == db.products[k].brand;
    }
    forall i | 0 <= i < |db'.orderItems|
      ensures db'.orderItems[i].order in db'.orders && db'.orderItems[i].product in db'.products
    {
      if i < |db.orderItems| {
        assert db'.orderItems[i] == db.orderItems[i];
      } else {
        assert db'.orderItems[i] == items[i - |db.orderItems|];
      }
    }
  }

  lemma {:induction false} CommitKeepsShape(db: Db, products: map<Uid, Product>, items: seq<OrderItem>, cartItems: map<Uid, CartItem>, order: Order)
    requires CommitFits(db, products, items, cartItems, order)
    ensures CartShape(Commit(db, products, items, cartItems, order))
    ensures NonNegative(Commit(db, products, items, cartItems, order))
  {
    var db' := Commit(db, products, items, cartItems, order);
    forall i | 0 <= i < |db'.orderItems|
      ensures db'.orderItems[i].price >= 0 && db'.orderItems[i].quantity >= 0
    {
      if i < |db.orderItems| {
        assert db'.orderItems[i] == db.orderItems[i];
      } else {
        assert db'.orderItems[i] == items[i - |db.orderItems|];
      }
    }
  }

  /** The commit of a placement keeps every database constraint. */
  lemma {:induction false} CommitKeepsValid(db: Db, products: map<Uid, Product>, items: seq<OrderItem>, cartItems: map<Uid, CartItem>, order: Order)
    requires CommitFits(db, products, items, cartItems, order)
    ensures Valid(Commit(db, products, items, cartItems, order))
  {
    CommitKeepsUnique(db, products, items, cartItems, order);
    CommitKeepsRefs(db, products, items, cartItems, order);
    CommitKeepsShape(db, products, items, cartItems, order);
  }

  /** A successful placement keeps every database constraint. */
  lemma {:induction false} PlaceOrderPreservesValid(db: Db, user: Uid, req: OrderRequest, today: Date, code: string)
    requires Valid(db) && user in db.users
    ensures PlaceOrder(db, user, req, today, code).1.Ok? ==> Valid(PlaceOrder(db, user, req, today, code).0)
  {
    if PlaceOrder(db, user, req, today, code).1.Ok? {
      var uid := db.nextId;
      var lines := ResolveLines(db, user, req);
      var res := Reserve(db.products, uid, lines).value;
      var applied := ApplyDiscount(db.discounts, req.discountCode, res.itemsTotal, today, db.nextId).value;
      ReserveStock(db.products, uid, lines);
      ReserveItems(db.products, uid, lines);
      CommitKeepsValid(db, res.products, res.items, RemainingCartItems(db, user, req),
        NewOrder(db, user, req, today, code, res.itemsTotal, applied));
    }
  }

  /**
   * Step 4 of `create_order`: for each line in turn, check the stock of the (possibly
   * already reduced) product, record the order item with the sale price, reduce the
   * stock and add to `items_total`; the first failing line stops the loop.
   */
  method HoldStock(products: map<Uid, Product>, order: Uid, lines: seq<Line>) returns (r: Result<Reservation>)
    ensures r == Reserve(products, order, lines)
  {
    var held: map<Uid, Product> := products;
    var items: seq<OrderItem> := [];
    var itemsTotal := 0;
    var i := 0;
    while i < |lines|
      invariant 0 <= i <= |lines|
      invariant Reserve(products, order, lines[..i]) == Ok(Reservation(held, items, itemsTotal))
    {
      var line := lines[i];
      assert lines[..i + 1][..i] == lines[..i];
      assert Reserve(products, order, lines[..i + 1]) == ReserveLine(Reservation(held, items, itemsTotal), order, line);
      if line.product !in held {
        ReserveErrPersists(products, order, lines, i + 1);
        return Err(ProductDoesNotExists);
      }
      var product := held[line.product];
      if line.quantity > product.quantityInStock {
        ReserveErrPersists(products, order, lines, i + 1);
        return Err(ProductOutOfStock);
      }
      if product.salePrice < 0 || line.quantity < 0 {
        ReserveErrPersists(products, order, lines, i + 1);
        return Err(IntegrityError);
      }
      items := items + [OrderItem(order, line.product, product.salePrice, line.quantity)];
      held := held[line.product := product.(quantityInStock := product.quantityInStock - line.quantity)];
      itemsTotal := itemsTotal + product.salePrice * line.quantity;
      i := i + 1;
    }
    assert lines[..|lines|] == lines;
    return Ok(Reservation(held, items, itemsTotal));
  }

  /**
   * `OrderORM.create_order`: resolve the lines, look up the shipping info, create the
   * order, hold the stock line by line, delete the consumed cart items, apply the
   * discount and compute the total.
   */
  method CreateOrder(db: Db, user: Uid, req: OrderRequest, today: Date, code: string) returns (db': Db, r: Result<Uid>)
    requires Valid(db) && user in db.users
    ensures (db', r) == PlaceOrder(db, user, req, today, code)
    ensures r.Err? ==> db' == db
    ensures r.Ok? ==> Valid(db')
  {
    var lines := ResolveLines(db, user, req);
    if req.shippingInfoId !in db.shippingInfos {
      return db, Err(ShippingInfoDoesNotExists);
    }
    if CodeTaken(db.orders, code) {
      return db, Err(IntegrityError);
    }
    var uid := db.nextId;
    var held := HoldStock(db.products, uid, lines);
    if held.Err? {
      return db, Err(held.error);
    }
    var products, items, itemsTotal := held.value.products, held.value.items, held.value.itemsTotal;

    var cartItems := db.cartItems;
    if req.source == FromCart {
      cartItems := cartItems - SeqToSet(SelectedCartKeys(db, user, req));
    }

    var applied := Applied(None, 0);
    if Truthy(req.discountCode) {
      var found := FirstWhere(db.discounts, (d: Discount) => d.code == req.discountCode.value, db.nextId);
      if found.None? || !IsActive(db.discounts[found.value], today) {
        return db, Err(DiscountDoesNotExists);
      }
      var discount := db.discounts[found.value];
      var amount := if discount.kind == PercentKind then itemsTotal * discount.value / 100 else discount.value;
      applied := Applied(found, amount);
    }

    var order := NewOrder(db, user, req, today, code, itemsTotal, applied);
    db' := Commit(db, products, items, cartItems, order);
    r := Ok(uid);
    PlaceOrderPreservesValid(db, user, req, today, code);
  }

  /** `OrderORM.update_order_status`: writes the enum's value, whatever the current status. */
  function WriteStatus(db: Db, uid: Uid, status: OrderStatus): (db': Db)
    requires uid in db.orders
    ensures db'.orders.Keys == db.orders.Keys
    ensures db'.orders[uid] == db.orders[uid].(status := status.Value())
    ensures forall k :: k in db.orders && k != uid ==> db'.orders[k] == db.orders[k]
    ensures db' == db.(orders := db'.orders)
  {
    db.(orders := db.orders[uid := db.orders[uid].(status := status.Value())])
  }

  /** `OrderORM.get_order_by_uid`. */
  function GetOrderByUid(db: Db, uid: Uid): (r: Result<Order>)
    ensures r.Ok? <==> uid in db.orders
    ensures r.Ok? ==> r.value == db.orders[uid]
    ensures r.Err? ==> r.error == OrderDoesNotExists
  {
    if uid in db.orders then Ok(db.orders[uid]) else Err(OrderDoesNotExists)
  }

  /**
   * `OrderORM.get_user_orders`: the user's orders, excluding those whose status is
   * the lower-case "pending" choice key.
   */
  function GetUserOrders(db: Db, user: Uid): (r: seq<Uid>)
    ensures forall i :: 0 <= i < |r| ==> r[i] in db.orders && db.orders[r[i]].user == user && db.orders[r[i]].status != "pending"
    ensures KeysBelow(db) ==> forall k :: k in db.orders && db.orders[k].user == user && db.orders[k].status != "pending" ==> k in r
  {
    KeysWhere(db.orders, (o: Order) => o.user == user && o.status != "pending", db.nextId)
  }
}
