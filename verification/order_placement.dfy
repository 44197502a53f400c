/**
 * What a successful or failed `create_order` (order/orm/order.py) does to the store,
 * stated over `OrderOrm.PlaceOrder`, the specification `OrderOrm.CreateOrder` is
 * proved against.
 */
module OrderPlacement {
  import opened Common
  import opened Errors
  import opened Schema
  import opened OrderModels
  import opened OrderOrm

  /** The successful path of `PlaceOrder`, taken apart once for the lemmas below. */
  lemma {:induction false} PlaceOrderOk(db: Db, user: Uid, req: OrderRequest, today: Date, code: string)
    requires PlaceOrder(db, user, req, today, code).1.Ok?
    ensures req.shippingInfoId in db.shippingInfos && !CodeTaken(db.orders, code)
    ensures Reserve(db.products, db.nextId, ResolveLines(db, user, req)).Ok?
    ensures ApplyDiscount(db.discounts, req.discountCode,
              Reserve(db.products, db.nextId, ResolveLines(db, user, req)).value.itemsTotal, today, db.nextId).Ok?
    ensures
      var res := Reserve(db.products, db.nextId, ResolveLines(db, user, req)).value;
      var applied := ApplyDiscount(db.discounts, req.discountCode, res.itemsTotal, today, db.nextId).value;
      PlaceOrder(db, user, req, today, code).0
        == Commit(db, res.products, res.items, RemainingCartItems(db, user, req),
                  NewOrder(db, user, req, today, code, res.itemsTotal, applied))
  {
  }

  /**
   * Stock: every product's `quantity_in_stock` drops by exactly the quantity the
   * resolved lines asked of it (products not ordered are untouched), every ordered
   * product ends with a non-negative stock, and nothing else about a product changes.
   */
  lemma {:induction false} PlaceOrderStock(db: Db, user: Uid, req: OrderRequest, today: Date, code: string)
    requires PlaceOrder(db, user, req, today, code).1.Ok?
    ensures var db' := PlaceOrder(db, user, req, today, code).0;
      var lines := ResolveLines(db, user, req);
      && db'.products.Keys == db.products.Keys
      && (forall k :: k in db.products ==>
            db'.products[k] == db.products[k].(quantityInStock := db.products[k].quantityInStock - QtyOf(lines, k)))
      && (forall i :: 0 <= i < |lines| ==>
            lines[i].product in db'.products && db'.products[lines[i].product].quantityInStock >= 0)
  {
    PlaceOrderOk(db, user, req, today, code);
    ReserveStock(db.products, db.nextId, ResolveLines(db, user, req));
    ReserveItems(db.products, db.nextId, ResolveLines(db, user, req));
  }

  /** A product no line asks for keeps its stock. */
  lemma {:induction false} QtyOfUnordered(lines: seq<Line>, p: Uid)
    requires forall i :: 0 <= i < |lines| ==> lines[i].product != p
    ensures QtyOf(lines, p) == 0
    decreases |lines|
  {
    if lines != [] {
      QtyOfUnordered(lines[..|lines| - 1], p);
    }
  }

  /**
   * Items: exactly one order item per resolved line is appended, in line order, with
   * the product's sale price and the line's quantity; the existing items stay.
   */
  lemma {:induction false} PlaceOrderItems(db: Db, user: Uid, req: OrderRequest, today: Date, code: string)
    requires PlaceOrder(db, user, req, today, code).1.Ok?
    ensures var db' := PlaceOrder(db, user, req, today, code).0;
      var lines := ResolveLines(db, user, req);
      && |db'.orderItems| == |db.orderItems| + |lines|
      && db'.orderItems[..|db.orderItems|] == db.orderItems
      && (forall i :: 0 <= i < |lines| ==>
            lines[i].product in db.products
            && db'.orderItems[|db.orderItems| + i]
                 == OrderItem(db.nextId, lines[i].product, db.products[lines[i].product].salePrice, lines[i].quantity))
  {
    PlaceOrderOk(db, user, req, today, code);
    var lines := ResolveLines(db, user, req);
    ReserveItems(db.products, db.nextId, lines);
    var items := Reserve(db.products, db.nextId, lines).value.items;
    var db' := PlaceOrder(db, user, req, today, code).0;
    assert db'.orderItems == db.orderItems + items;
    forall i | 0 <= i < |lines|
      ensures db'.orderItems[|db.orderItems| + i] == items[i]
    {
    }
  }

  /** The new order's items are exactly the appended ones. */
  lemma {:induction false} PlaceOrderOwnItems(db: Db, user: Uid, req: OrderRequest, today: Date, code: string)
    requires Valid(db)
    requires PlaceOrder(db, user, req, today, code).1.Ok?
    ensures var db' := PlaceOrder(db, user, req, today, code).0;
      ItemsOf(db'.orderItems, db.nextId) == db'.orderItems[|db.orderItems|..]
  {
    PlaceOrderOk(db, user, req, today, code);
    var lines := ResolveLines(db, user, req);
    ReserveItems(db.products, db.nextId, lines);
    var items := Reserve(db.products, db.nextId, lines).value.items;
    var db' := PlaceOrder(db, user, req, today, code).0;
    assert db'.orderItems == db.orderItems + items;
    assert db'.orderItems[|db.orderItems|..] == items;
    assert db.nextId !in db.orders;
    ItemsOfAppend(db.orderItems, items, db.nextId);
    ItemsOfNone(db.orderItems, db.nextId);
    ItemsOfAll(items, db.nextId);
  }

  /**
   * The order row: a fresh key, the caller's code, today's date, status "PENDING",
   * a 15000 shipping fee, cash on delivery, the request's note, the shipping info's
   * name, phone and address, the requesting user; no other order changes.
   */
  lemma {:induction false} PlaceOrderRecord(db: Db, user: Uid, req: OrderRequest, today: Date, code: string)
    requires Valid(db)
    requires PlaceOrder(db, user, req, today, code).1.Ok?
    ensures var got := PlaceOrder(db, user, req, today, code);
      var db', r := got.0, got.1;
      var o := db'.orders[r.value];
      var si := db.shippingInfos[req.shippingInfoId];
      && r.value !in db.orders
      && db'.orders.Keys == db.orders.Keys + {r.value}
      && (forall k :: k in db.orders ==> db'.orders[k] == db.orders[k])
      && o.code == code && o.orderDate == today && o.receiveDate.None?
      && o.status == "PENDING" && o.shippingFee == 15000 && o.paymentMethod == "cod"
      && o.note == req.note && o.user == user
      && o.name == si.name && o.phone == si.phone && o.address == si.address
      && o.discountAmount.Some?
  {
    PlaceOrderOk(db, user, req, today, code);
    assert db.nextId !in db.orders;
  }

  /**
   * The totals add up: `total_amount` is the items' total plus the shipping fee minus
   * the discount amount, and it agrees with the intended `calculate_total` over the
   * order's own items.
   */
  lemma {:induction false} PlaceOrderTotals(db: Db, user: Uid, req: OrderRequest, today: Date, code: string)
    requires Valid(db)
    requires PlaceOrder(db, user, req, today, code).1.Ok?
    ensures var got := PlaceOrder(db, user, req, today, code);
      var db', r := got.0, got.1;
      var o := db'.orders[r.value];
      var mine := ItemsOf(db'.orderItems, r.value);
      && o.totalAmount == ItemsTotal(mine) + o.shippingFee - o.discountAmount.value
      && o.totalAmount == CalculateTotal(o, mine)
  {
    PlaceOrderOk(db, user, req, today, code);
    PlaceOrderOwnItems(db, user, req, today, code);
    var lines := ResolveLines(db, user, req);
    ReserveTotal(db.products, db.nextId, lines);
    var db' := PlaceOrder(db, user, req, today, code).0;
    var items := Reserve(db.products, db.nextId, lines).value.items;
    assert db'.orderItems[|db.orderItems|..] == items;
  }

  /**
   * The discount: without a code (None or "") no discount is attached and the amount
   * is 0; with one, the attached discount has that code and is active today, and the
   * amount is the floor of the percentage of the items' total for "percent" and the
   * discount's value, uncapped, for any other kind.
   */
  lemma {:induction false} PlaceOrderDiscount(db: Db, user: Uid, req: OrderRequest, today: Date, code: string)
    requires PlaceOrder(db, user, req, today, code).1.Ok?
    ensures var got := PlaceOrder(db, user, req, today, code);
      var db', r := got.0, got.1;
      var o := db'.orders[r.value];
      var itemsTotal := ItemsTotal(db'.orderItems[|db.orderItems|..]);
      && (!Truthy(req.discountCode) ==> o.discount.None? && o.discountAmount == Some(0))
      && (Truthy(req.discountCode) ==>
            && o.discount.Some? && o.discount.value in db.discounts
            && db.discounts[o.discount.value].code == req.discountCode.value
            && IsActive(db.discounts[o.discount.value], today)
            && (db.discounts[o.discount.value].kind == PercentKind ==>
                  o.discountAmount.value * 100 <= itemsTotal * db.discounts[o.discount.value].value < o.discountAmount.value * 100 + 100)
            && (db.discounts[o.discount.value].kind != PercentKind ==>
                  o.discountAmount.value == db.discounts[o.discount.value].value))
  {
    PlaceOrderOk(db, user, req, today, code);
    var lines := ResolveLines(db, user, req);
    ReserveTotal(db.products, db.nextId, lines);
    var db' := PlaceOrder(db, user, req, today, code).0;
    var items := Reserve(db.products, db.nextId, lines).value.items;
    assert db'.orderItems[|db.orderItems|..] == items;
  }

  /**
   * An unknown or inactive discount code fails the whole placement once everything
   * before it succeeded, and the store is left as it was.
   */
  lemma {:induction false} PlaceOrderRefusesDiscount(db: Db, user: Uid, req: OrderRequest, today: Date, code: string)
    requires Valid(db)
    requires req.shippingInfoId in db.shippingInfos && !CodeTaken(db.orders, code)
    requires Reserve(db.products, db.nextId, ResolveLines(db, user, req)).Ok?
    requires Truthy(req.discountCode)
    requires forall k :: k in db.discounts && db.discounts[k].code == req.discountCode.value ==> !IsActive(db.discounts[k], today)
    ensures PlaceOrder(db, user, req, today, code) == (db, Err(DiscountDoesNotExists))
  {
    var res := Reserve(db.products, db.nextId, ResolveLines(db, user, req)).value;
    ApplyDiscountRefusesIff(db.discounts, req.discountCode, res.itemsTotal, today, db.nextId);
  }

  /**
   * The shipping info is looked up by id alone: one owned by another user serves
   * just as well, and an unknown id is the first error raised.
   */
  lemma {:induction false} PlaceOrderShippingInfo(db: Db, user: Uid, req: OrderRequest, today: Date, code: string, owner: Uid)
    ensures req.shippingInfoId !in db.shippingInfos ==>
      PlaceOrder(db, user, req, today, code) == (db, Err(ShippingInfoDoesNotExists))
    ensures req.shippingInfoId in db.shippingInfos ==>
      var si := db.shippingInfos[req.shippingInfoId];
      var other := db.(shippingInfos := db.shippingInfos[req.shippingInfoId := si.(user := owner)]);
      PlaceOrder(other, user, req, today, code).1 == PlaceOrder(db, user, req, today, code).1
  {
    if req.shippingInfoId in db.shippingInfos {
      var si := db.shippingInfos[req.shippingInfoId];
      var other := db.(shippingInfos := db.shippingInfos[req.shippingInfoId := si.(user := owner)]);
      assert SelectedCartKeys(other, user, req) == SelectedCartKeys(db, user, req);
      assert ResolveLines(other, user, req) == ResolveLines(db, user, req);
    }
  }

  /**
   * A line that fails its stock check fails the placement with that line's error
   * (the first failing line wins) and the store is left as it was.
   */
  lemma {:induction false} PlaceOrderLineFailure(db: Db, user: Uid, req: OrderRequest, today: Date, code: string, i: nat)
    requires req.shippingInfoId in db.shippingInfos && !CodeTaken(db.orders, code)
    requires i < |ResolveLines(db, user, req)|
    requires var lines := ResolveLines(db, user, req);
      (forall j :: 0 <= j < i ==> LineCheck(db.products, lines[..j], lines[j]).None?)
      && LineCheck(db.products, lines[..i], lines[i]).Some?
    ensures var lines := ResolveLines(db, user, req);
      PlaceOrder(db, user, req, today, code) == (db, Err(LineCheck(db.products, lines[..i], lines[i]).value))
  {
    var lines := ResolveLines(db, user, req);
    var prefix := lines[..i + 1];
    ReserveOkIff(db.products, db.nextId, lines[..i]);
    ReserveOkIff(db.products, db.nextId, prefix);
    assert forall j :: 0 <= j <= i ==> prefix[..j] == lines[..j];
    assert prefix[..i] == lines[..i];
    assert Reserve(db.products, db.nextId, prefix).Err?;
    var e := Reserve(db.products, db.nextId, prefix).error;
    var k :| 0 <= k < |prefix|
      && (forall j :: 0 <= j < k ==> LineCheck(db.products, prefix[..j], prefix[j]).None?)
      && LineCheck(db.products, prefix[..k], prefix[k]) == Some(e);
    assert k == i;
    ReserveErrPersists(db.products, db.nextId, lines, i + 1);
  }

  /** The lines of a cart-mode order. */
  lemma {:induction false} CartLines(db: Db, user: Uid, req: OrderRequest)
    requires Valid(db) && req.source == FromCart
    ensures var lines := ResolveLines(db, user, req);
      var keys := SelectedCartKeys(db, user, req);
      && |lines| == |keys|
      // one line per selected cart item, with the cart item's product and quantity
      && (forall i :: 0 <= i < |lines| ==>
            keys[i] in db.cartItems
            && db.carts[db.cartItems[keys[i]].cart].user == user
            && lines[i] == Line(db.cartItems[keys[i]].product, db.cartItems[keys[i]].quantity)
            && lines[i].product in RequestedUids(req))
      // every cart item of the user whose product is requested is selected; other uids are skipped
      && (forall k :: k in db.cartItems && Selected(db, user, RequestedUids(req), db.cartItems[k]) ==> k in keys)
      // one user has one cart and a cart holds a product once: the lines' products are distinct
      && (forall i, j :: 0 <= i < j < |lines| ==> lines[i].product != lines[j].product)
  {
    var lines := ResolveLines(db, user, req);
    var keys := SelectedCartKeys(db, user, req);
    forall i, j | 0 <= i < j < |lines|
      ensures lines[i].product != lines[j].product
    {
      var a, b := db.cartItems[keys[i]], db.cartItems[keys[j]];
      assert keys[i] < keys[j];
      assert a.cart == b.cart;
    }
  }

  /** Cart mode removes exactly the selected cart items and keeps the rest as they were. */
  lemma {:induction false} RemainingCartItemsExact(db: Db, user: Uid, req: OrderRequest)
    requires KeysBelow(db)
    ensures var rest := RemainingCartItems(db, user, req);
      && (forall k :: k in rest ==> k in db.cartItems && rest[k] == db.cartItems[k])
      && (forall k :: k in db.cartItems ==>
            (k in rest <==> req.source == BuyNow || !Selected(db, user, RequestedUids(req), db.cartItems[k])))
  {
    if req.source == FromCart {
      var keys := SelectedCartKeys(db, user, req);
      assert forall k :: k in db.cartItems && Selected(db, user, RequestedUids(req), db.cartItems[k]) ==> k in keys;
    }
  }

  /**
   * The cart: buy-now leaves it alone; cart mode deletes exactly the user's cart items
   * whose product was requested and keeps every other item as it was.
   */
  lemma {:induction false} PlaceOrderCart(db: Db, user: Uid, req: OrderRequest, today: Date, code: string)
    requires Valid(db)
    requires PlaceOrder(db, user, req, today, code).1.Ok?
    ensures var db' := PlaceOrder(db, user, req, today, code).0;
      && (req.source == BuyNow ==> db'.cartItems == db.cartItems)
      && (forall k :: k in db'.cartItems ==> k in db.cartItems && db'.cartItems[k] == db.cartItems[k])
      && (req.source == FromCart ==>
            forall k :: k in db.cartItems ==>
              (k in db'.cartItems <==> !Selected(db, user, RequestedUids(req), db.cartItems[k])))
  {
    PlaceOrderOk(db, user, req, today, code);
    RemainingCartItemsExact(db, user, req);
  }

  /** The cart is consumed once: after a cart-mode placement the same request selects nothing. */
  lemma {:induction false} PlaceOrderConsumesCartOnce(db: Db, user: Uid, req: OrderRequest, today: Date, code: string)
    requires Valid(db) && req.source == FromCart
    requires PlaceOrder(db, user, req, today, code).1.Ok?
    ensures ResolveLines(PlaceOrder(db, user, req, today, code).0, user, req) == []
  {
    PlaceOrderCart(db, user, req, today, code);
    var db' := PlaceOrder(db, user, req, today, code).0;
    PlaceOrderOk(db, user, req, today, code);
    assert db'.carts == db.carts;
    NothingSelected(db', user, req);
  }

  /** With no selected cart item left, cart mode resolves no line. */
  lemma {:induction false} NothingSelected(db: Db, user: Uid, req: OrderRequest)
    requires req.source == FromCart
    requires forall k :: k in db.cartItems ==> !Selected(db, user, RequestedUids(req), db.cartItems[k])
    ensures ResolveLines(db, user, req) == []
  {
  }

  /** A placed order is in the store with status "PENDING", which `get_user_orders` does not exclude. */
  lemma {:induction false} PlacedOrderIsListed(db: Db, user: Uid, req: OrderRequest, today: Date, code: string)
    requires Valid(db) && user in db.users
    requires PlaceOrder(db, user, req, today, code).1.Ok?
    ensures var got := PlaceOrder(db, user, req, today, code);
      var db', r := got.0, got.1;
      r.value in GetUserOrders(db', user)
  {
    PlaceOrderRecord(db, user, req, today, code);
    PlaceOrderPreservesValid(db, user, req, today, code);
    var got := PlaceOrder(db, user, req, today, code);
    var db', r := got.0, got.1;
    assert db'.orders[r.value].status != "pending" by {
      assert db'.orders[r.value].status[0] == 'P';
    }
  }

  /**
   * A repeated uid in buy-now sees the stock left by its earlier line: against a stock
   * of 5, two lines of 3 for the same product fail on the second line, while one line
   * of 3 leaves 2 in stock and records one item at the sale price.
   */
  lemma SharedProductStockScenario()
    ensures var pen := Product("P1", "Pen", None, 12, 10, None, 5, 1, false);
      && Reserve(map[2 := pen], 3, [Line(2, 3), Line(2, 3)]) == Err(ProductOutOfStock)
      && Reserve(map[2 := pen], 3, [Line(2, 3)])
           == Ok(Reservation(map[2 := pen.(quantityInStock := 2)], [OrderItem(3, 2, 10, 3)], 30))
  {
    var pen := Product("P1", "Pen", None, 12, 10, None, 5, 1, false);
    var one := [Line(2, 3)];
    var two := [Line(2, 3), Line(2, 3)];
    var m := map[2 := pen];
    var held := Reservation(map[2 := pen.(quantityInStock := 2)], [OrderItem(3, 2, 10, 3)], 30);
    assert one[..0] == [];
    assert Reserve(m, 3, []) == Ok(Reservation(m, [], 0));
    assert m[2 := pen.(quantityInStock := 2)] == map[2 := pen.(quantityInStock := 2)];
    assert 2 in m && m[2] == pen && pen.quantityInStock - 3 == 2;
    assert [] + [OrderItem(3, 2, 10, 3)] == [OrderItem(3, 2, 10, 3)];
    assert ReserveLine(Reservation(m, [], 0), 3, Line(2, 3)) == Ok(held);
    assert Reserve(m, 3, one) == Ok(held);
    assert two[..1] == one;
    assert ReserveLine(held, 3, Line(2, 3)) == Err(ProductOutOfStock);
  }
}
