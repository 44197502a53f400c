/**
 * The cart ORM of cart/orm/cart.py and the `total_price` of cart/models.py:
 * add-or-merge by (cart, product), listing, the cart total and clearing.
 */
module CartOrm {
  import opened Common
  import opened Errors
  import opened Schema

  /** `CartItem.total_price`: price times quantity. */
  function CartItemTotalPrice(item: CartItem): (r: int)
    ensures item.price >= 0 && item.quantity >= 0 ==> r >= 0
    ensures item.quantity == 0 || item.price == 0 ==> r == 0
  {
    item.price * item.quantity
  }

  /** `Cart.objects.get(user=user)`: the user's cart, if any. */
  function FindCart(db: Db, user: Uid): (r: Option<Uid>)
    ensures r.Some? ==> r.value in db.carts && db.carts[r.value].user == user
    ensures r.None? && KeysUnder(db.carts, db.nextId) ==> forall k :: k in db.carts ==> db.carts[k].user != user
  {
    FirstWhere(db.carts, (c: Cart) => c.user == user, db.nextId)
  }

  /** `CartItem.objects.get(cart=cart, product=product)`. */
  function FindItem(db: Db, cart: Uid, product: Uid): (r: Option<Uid>)
    ensures r.Some? ==> r.value in db.cartItems && db.cartItems[r.value].cart == cart && db.cartItems[r.value].product == product
    ensures r.None? && KeysUnder(db.cartItems, db.nextId) ==>
      forall k :: k in db.cartItems ==> db.cartItems[k].cart != cart || db.cartItems[k].product != product
  {
    FirstWhere(db.cartItems, (i: CartItem) => i.cart == cart && i.product == product, db.nextId)
  }

  /** The item `add_cart_item` would merge into: the user's cart's item for the product. */
  function ExistingItem(db: Db, user: Uid, product: Uid): (r: Option<Uid>)
    ensures r.Some? ==> FindCart(db, user).Some? && r == FindItem(db, FindCart(db, user).value, product)
    ensures r.Some? ==> r.value in db.cartItems && db.cartItems[r.value].product == product
    ensures r.None? && FindCart(db, user).Some? ==> FindItem(db, FindCart(db, user).value, product).None?
  {
    match FindCart(db, user)
    case None => None
    case Some(c) => FindItem(db, c, product)
  }

  /** `Cart.objects.get_or_create(user=user)`: the user's cart, or a new one under a fresh key. */
  function CartFor(db: Db, user: Uid): (out: (Db, Uid))
    ensures FindCart(db, user).Some? ==> out.0 == db && out.1 == FindCart(db, user).value
    ensures FindCart(db, user).None? ==>
      out.0 == db.(carts := db.carts[db.nextId := Cart(user)], nextId := db.nextId + 1) && out.1 == db.nextId
  {
    match FindCart(db, user)
    case Some(c) => (db, c)
    case None => (db.(carts := db.carts[db.nextId := Cart(user)], nextId := db.nextId + 1), db.nextId)
  }

  /**
   * What `CartORM.add_cart_item` does to the store (atomic): the product must exist
   * (a soft-deleted one does); an item of the user's cart for the same product has
   * the payload quantity added and its price replaced by the payload price; otherwise
   * the cart is fetched or created and one item is created in it. A negative price or
   * quantity is refused by the column's CHECK constraint, and then nothing, not even a
   * new cart, is kept.
   */
  function AddToCart(db: Db, user: Uid, product: Uid, price: int, quantity: int): (out: (Db, Outcome))
    ensures out.1.Fail? ==> out.0 == db
  {
    if product !in db.products then (db, Fail(ProductDoesNotExists))
    else match ExistingItem(db, user, product)
      case Some(k) =>
        var item := db.cartItems[k];
        if item.quantity + quantity < 0 || price < 0 then (db, Fail(IntegrityError))
        else (db.(cartItems := db.cartItems[k := item.(quantity := item.quantity + quantity, price := price)]), Pass)
      case None =>
        if quantity < 0 || price < 0 then (db, Fail(IntegrityError))
        else
          var got := CartFor(db, user);
          var work, cart := got.0, got.1;
          (work.(cartItems := work.cartItems[work.nextId := CartItem(cart, product, price, quantity)], nextId := work.nextId + 1), Pass)
  }

  /**
   * `CartORM.add_cart_item`, step by step: product lookup, `get_or_create` of the
   * cart, lookup of the item, then the merge or the create; a failed step rolls the
   * whole transaction back.
   */
  method AddCartItem(db: Db, user: Uid, product: Uid, price: int, quantity: int) returns (db': Db, r: Outcome)
    requires Valid(db) && user in db.users
    ensures db' == AddToCart(db, user, product, price, quantity).0
    ensures r == AddToCart(db, user, product, price, quantity).1
    ensures Valid(db')
  {
    if product !in db.products {
      return db, Fail(ProductDoesNotExists);
    }
    var got := CartFor(db, user);
    var work, cart := got.0, got.1;
    var existing := FindItem(work, cart, product);
    ExistingItemAfterGetOrCreate(db, user, product);
    assert existing == ExistingItem(db, user, product);
    if existing.Some? {
      var item := work.cartItems[existing.value];
      if item.quantity + quantity < 0 || price < 0 {
        return db, Fail(IntegrityError);
      }
      db' := work.(cartItems := work.cartItems[existing.value := item.(quantity := item.quantity + quantity, price := price)]);
    } else {
      if quantity < 0 || price < 0 {
        return db, Fail(IntegrityError);
      }
      db' := work.(cartItems := work.cartItems[work.nextId := CartItem(cart, product, price, quantity)], nextId := work.nextId + 1);
    }
    r := Pass;
    assert db' == AddToCart(db, user, product, price, quantity).0;
    AddToCartKeepsValid(db, user, product, price, quantity);
  }

  /** `add_cart_item` keeps every constraint of the store, one item per (cart, product) included. */
  lemma {:induction false} AddToCartKeepsValid(db: Db, user: Uid, product: Uid, price: int, quantity: int)
    requires Valid(db) && user in db.users
    ensures Valid(AddToCart(db, user, product, price, quantity).0)
  {
    if product !in db.products || AddToCart(db, user, product, price, quantity).1.Fail? {
    } else if ExistingItem(db, user, product).Some? {
      MergedItemKeepsValid(db, user, product, price, quantity);
    } else {
      CreatedItemKeepsValid(db, user, product, price, quantity);
    }
  }

  lemma {:induction false} MergedItemKeepsValid(db: Db, user: Uid, product: Uid, price: int, quantity: int)
    requires Valid(db) && product in db.products && ExistingItem(db, user, product).Some?
    ensures Valid(AddToCart(db, user, product, price, quantity).0)
  {
    var k := ExistingItem(db, user, product).value;
    var item := db.cartItems[k];
    if item.quantity + quantity >= 0 && price >= 0 {
      var merged := item.(quantity := item.quantity + quantity, price := price);
      assert AddToCart(db, user, product, price, quantity).0 == db.(cartItems := db.cartItems[k := merged]);
      MergeKeepsValid(db, k, merged);
    }
  }

  lemma {:induction false} CreatedItemKeepsValid(db: Db, user: Uid, product: Uid, price: int, quantity: int)
    requires Valid(db) && user in db.users && product in db.products && ExistingItem(db, user, product).None?
    ensures Valid(AddToCart(db, user, product, price, quantity).0)
  {
    if quantity >= 0 && price >= 0 {
      var got := CartFor(db, user);
      var work, cart := got.0, got.1;
      var item := CartItem(cart, product, price, quantity);
      GetOrCreateCartFinds(db, user);
      assert cart in work.carts && product in work.products;
      ExistingItemAfterGetOrCreate(db, user, product);
      assert FindItem(work, cart, product).None?;
      NewItemKeepsValid(work, item);
      assert AddToCart(db, user, product, price, quantity).0
        == work.(cartItems := work.cartItems[work.nextId := item], nextId := work.nextId + 1);
    }
  }

  /**
   * Looking the item up in the cart `get_or_create` returned finds what `ExistingItem`
   * finds in the store before: a freshly made cart holds nothing.
   */
  lemma {:induction false} ExistingItemAfterGetOrCreate(db: Db, user: Uid, product: Uid)
    requires Valid(db)
    ensures FindItem(CartFor(db, user).0, CartFor(db, user).1, product) == ExistingItem(db, user, product)
  {
    if FindCart(db, user).None? {
      var got := CartFor(db, user);
      var work, cart := got.0, got.1;
      assert forall k :: k in work.cartItems ==> work.cartItems[k].cart != cart;
      assert FindItem(work, cart, product).None?;
    }
  }

  /** Under the store's constraints `Cart.objects.get(user=user)` finds the user's one cart. */
  lemma {:induction false} FindCartUnique(db: Db, user: Uid, c: Uid)
    requires KeysUnder(db.carts, db.nextId) && OneCartPerUser(db.carts) && c in db.carts && db.carts[c].user == user
    ensures FindCart(db, user) == Some(c)
  {
    assert FindCart(db, user).Some?;
  }

  /** Under the store's constraints the item lookup finds the cart's one item for the product. */
  lemma {:induction false} FindItemUnique(db: Db, c: Uid, product: Uid, k: Uid)
    requires KeysUnder(db.cartItems, db.nextId) && OneItemPerProduct(db.cartItems)
    requires k in db.cartItems && db.cartItems[k].cart == c && db.cartItems[k].product == product
    ensures FindItem(db, c, product) == Some(k)
  {
    assert FindItem(db, c, product).Some?;
  }

  /** `get_or_create` keeps the store valid, and afterwards the user's cart is the one it returned. */
  lemma {:induction false} GetOrCreateCartFinds(db: Db, user: Uid)
    requires Valid(db) && user in db.users
    ensures Valid(CartFor(db, user).0)
    ensures FindCart(CartFor(db, user).0, user) == Some(CartFor(db, user).1)
    ensures CartFor(db, user).0.cartItems == db.cartItems && CartFor(db, user).0.nextId >= db.nextId
  {
    if FindCart(db, user).None? {
      NewCartKeepsValid(db, user);
      NewCartIsFound(db, user);
    }
  }

  /** How many of the product the user's cart holds: 0 without a cart or an item. */
  function HeldQuantity(db: Db, user: Uid, product: Uid): (q: int)
    ensures Valid(db) ==> q >= 0
    ensures ExistingItem(db, user, product).None? ==> q == 0
  {
    match ExistingItem(db, user, product)
    case None => 0
    case Some(k) => db.cartItems[k].quantity
  }

  /**
   * The outcome of `add_cart_item`: a missing product, then a negative resulting
   * quantity or a negative price, are the only refusals.
   */
  lemma {:induction false} AddToCartOutcome(db: Db, user: Uid, product: Uid, price: int, quantity: int)
    ensures AddToCart(db, user, product, price, quantity).1 == Fail(ProductDoesNotExists) <==> product !in db.products
    ensures AddToCart(db, user, product, price, quantity).1 == Fail(IntegrityError) <==>
      product in db.products && (HeldQuantity(db, user, product) + quantity < 0 || price < 0)
    ensures AddToCart(db, user, product, price, quantity).1 == Pass <==>
      product in db.products && HeldQuantity(db, user, product) + quantity >= 0 && price >= 0
  {
  }

  /** Replacing an item by one for the same (cart, product) keeps one item per product. */
  lemma {:induction false} ReplaceKeepsOneItem(m: map<Uid, CartItem>, k: Uid, v: CartItem)
    requires OneItemPerProduct(m) && k in m && v.cart == m[k].cart && v.product == m[k].product
    ensures OneItemPerProduct(m[k := v])
  {
  }

  /** The key of the line `add_cart_item` writes: the merged item, or the fresh key of the new one. */
  function LineKey(db: Db, db': Db, user: Uid, product: Uid): Uid
    requires db'.nextId > 0
  {
    ExistingItem(db, user, product).GetOr(db'.nextId - 1)
  }

  /** After a successful `add_cart_item` the lookup for the user's line finds the line written. */
  lemma {:induction false} AddToCartFindsLine(db: Db, user: Uid, product: Uid, price: int, quantity: int)
    requires Valid(db) && user in db.users && AddToCart(db, user, product, price, quantity).1.Pass?
    ensures var db' := AddToCart(db, user, product, price, quantity).0;
      db'.nextId > 0 && ExistingItem(db', user, product) == Some(LineKey(db, db', user, product))
  {
    if ExistingItem(db, user, product).Some? {
      MergedLineFound(db, user, product, price, quantity);
    } else {
      CreatedLineFound(db, user, product, price, quantity);
    }
  }

  lemma {:induction false} MergedLineFound(db: Db, user: Uid, product: Uid, price: int, quantity: int)
    requires KeysUnder(db.carts, db.nextId) && KeysUnder(db.cartItems, db.nextId) && OneItemPerProduct(db.cartItems) && AddToCart(db, user, product, price, quantity).1.Pass?
    requires ExistingItem(db, user, product).Some?
    ensures ExistingItem(AddToCart(db, user, product, price, quantity).0, user, product) == ExistingItem(db, user, product)
  {
    var db' := AddToCart(db, user, product, price, quantity).0;
    var c := FindCart(db, user).value;
    var k := ExistingItem(db, user, product).value;
    var item := db.cartItems[k];
    AddToCartOutcome(db, user, product, price, quantity);
    assert product in db.products && item.quantity + quantity >= 0 && price >= 0;
    var merged := item.(quantity := item.quantity + quantity, price := price);
    assert db' == db.(cartItems := db.cartItems[k := merged]);
    FindCartFrame(db, db', user);
    ReplaceKeepsOneItem(db.cartItems, k, merged);
    assert KeysUnder(db'.cartItems, db'.nextId);
    FindItemUnique(db', c, product, k);
  }

  lemma {:induction false} CreatedLineFound(db: Db, user: Uid, product: Uid, price: int, quantity: int)
    requires Valid(db) && user in db.users && AddToCart(db, user, product, price, quantity).1.Pass?
    requires ExistingItem(db, user, product).None?
    ensures var db' := AddToCart(db, user, product, price, quantity).0;
      db'.nextId > 0 && ExistingItem(db', user, product) == Some(db'.nextId - 1)
  {
    var db' := AddToCart(db, user, product, price, quantity).0;
    var got := CartFor(db, user);
    var work, cart := got.0, got.1;
    var item := CartItem(cart, product, price, quantity);
    AddToCartOutcome(db, user, product, price, quantity);
    assert db' == work.(cartItems := work.cartItems[work.nextId := item], nextId := work.nextId + 1);
    GetOrCreateCartFinds(db, user);
    ExistingItemAfterGetOrCreate(db, user, product);
    NewItemFacts(work.cartItems, item, work.carts, work.products, work.nextId);
    NewLineFoundIn(work, user, item);
    assert db'.nextId == work.nextId + 1;
    assert ExistingItem(work.(cartItems := work.cartItems[work.nextId := item], nextId := work.nextId + 1), user, product) == Some(work.nextId);
    assert ExistingItem(db', user, product) == Some(work.nextId);
  }

  /** In a store whose user's cart is `item.cart`, an item written under the next key is the line found. */
  lemma {:induction false} NewLineFoundIn(work: Db, user: Uid, item: CartItem)
    requires KeysUnder(work.carts, work.nextId) && FindCart(work, user) == Some(item.cart)
    requires KeysUnder(work.cartItems[work.nextId := item], work.nextId + 1) && OneItemPerProduct(work.cartItems[work.nextId := item])
    ensures ExistingItem(work.(cartItems := work.cartItems[work.nextId := item], nextId := work.nextId + 1), user, item.product) == Some(work.nextId)
  {
    var db' := work.(cartItems := work.cartItems[work.nextId := item], nextId := work.nextId + 1);
    FindCartFrame(work, db', user);
    FindItemUnique(db', item.cart, item.product, work.nextId);
  }

  /**
   * After a successful `add_cart_item` the user's line for the product holds the old
   * quantity plus the added one, at the payload price; every other cart item is
   * untouched and no other item appears.
   */
  lemma {:induction false} AddToCartLine(db: Db, user: Uid, product: Uid, price: int, quantity: int)
    requires Valid(db) && user in db.users && AddToCart(db, user, product, price, quantity).1.Pass?
    ensures var db' := AddToCart(db, user, product, price, quantity).0;
      && db'.nextId > 0
      && var k := LineKey(db, db', user, product);
      && ExistingItem(db', user, product) == Some(k)
      && (ExistingItem(db, user, product).None? ==> k !in db.cartItems)
      && k in db'.cartItems
      && db'.cartItems[k].quantity == HeldQuantity(db, user, product) + quantity
      && db'.cartItems[k].price == price
      && (forall j :: j in db.cartItems && j != k ==> j in db'.cartItems && db'.cartItems[j] == db.cartItems[j])
      && (forall j :: j in db'.cartItems ==> j in db.cartItems || j == k)
  {
    AddToCartFindsLine(db, user, product, price, quantity);
    LineWritten(db, user, product, price, quantity);
  }

  lemma {:induction false} LineWritten(db: Db, user: Uid, product: Uid, price: int, quantity: int)
    requires KeysUnder(db.cartItems, db.nextId) && AddToCart(db, user, product, price, quantity).1.Pass?
    ensures var db' := AddToCart(db, user, product, price, quantity).0;
      && db'.nextId > 0
      && var k := LineKey(db, db', user, product);
      && (ExistingItem(db, user, product).None? ==> k !in db.cartItems)
      && k in db'.cartItems
      && db'.cartItems[k].quantity == HeldQuantity(db, user, product) + quantity
      && db'.cartItems[k].price == price
      && (forall j :: j in db.cartItems && j != k ==> j in db'.cartItems && db'.cartItems[j] == db.cartItems[j])
      && (forall j :: j in db'.cartItems ==> j in db.cartItems || j == k)
  {
    AddToCartOutcome(db, user, product, price, quantity);
    var db' := AddToCart(db, user, product, price, quantity).0;
    if ExistingItem(db, user, product).Some? {
      var k := ExistingItem(db, user, product).value;
      var item := db.cartItems[k];
      assert product in db.products && item.quantity + quantity >= 0 && price >= 0;
      var merged := item.(quantity := item.quantity + quantity, price := price);
      assert db'.cartItems == db.cartItems[k := merged];
      UpdateFrame(db.cartItems, k, merged);
    } else {
      var got := CartFor(db, user);
      var work, cart := got.0, got.1;
      assert product in db.products && quantity >= 0 && price >= 0;
      assert db' == work.(cartItems := work.cartItems[work.nextId := CartItem(cart, product, price, quantity)], nextId := work.nextId + 1);
      assert work.cartItems == db.cartItems && work.nextId !in db.cartItems;
      UpdateFrame(db.cartItems, work.nextId, CartItem(cart, product, price, quantity));
    }
  }

  /** What a write of one key leaves of a table. */
  lemma {:induction false} UpdateFrame<V>(m: map<Uid, V>, k: Uid, v: V)
    ensures k in m[k := v] && m[k := v][k] == v
    ensures forall j :: j in m && j != k ==> j in m[k := v] && m[k := v][j] == m[j]
    ensures forall j :: j in m[k := v] ==> j in m || j == k
  {
  }

  /** Queries for a user's cart do not see writes to other tables or a raised key counter. */
  lemma {:induction false} FindCartFrame(db: Db, db': Db, user: Uid)
    requires KeysUnder(db.carts, db.nextId) && db'.carts == db.carts && db.nextId <= db'.nextId
    ensures FindCart(db', user) == FindCart(db, user)
  {
    FirstWhereBeyond(db.carts, (c: Cart) => c.user == user, db.nextId, db'.nextId);
  }

  /** `get_or_create` of a missing cart keeps the store valid. */
  lemma {:induction false} NewCartKeepsValid(db: Db, user: Uid)
    requires Valid(db) && user in db.users && FindCart(db, user).None?
    ensures Valid(db.(carts := db.carts[db.nextId := Cart(user)], nextId := db.nextId + 1))
  {
    var db' := db.(carts := db.carts[db.nextId := Cart(user)], nextId := db.nextId + 1);
    assert OneCartPerUser(db'.carts);
    assert CartRefs(db'.carts, db'.users);
    assert CartItemRefs(db'.cartItems, db'.carts, db'.products);
    assert KeysBelow(db');
    assert Unique(db') && NonNegative(db');
  }

  /** After `get_or_create` made it, the new cart is the one the user's queries find. */
  lemma {:induction false} NewCartIsFound(db: Db, user: Uid)
    requires KeysUnder(db.carts, db.nextId) && FindCart(db, user).None?
    ensures FindCart(db.(carts := db.carts[db.nextId := Cart(user)], nextId := db.nextId + 1), user) == Some(db.nextId)
  {
    var db' := db.(carts := db.carts[db.nextId := Cart(user)], nextId := db.nextId + 1);
    assert db.nextId in db'.carts && db'.carts[db.nextId].user == user;
    var found := FindCart(db', user);
    assert found.Some?;
  }

  /** Writing an item's quantity and price in place keeps the store valid. */
  lemma {:induction false} MergeKeepsValid(db: Db, k: Uid, merged: CartItem)
    requires Valid(db) && k in db.cartItems
    requires merged.cart == db.cartItems[k].cart && merged.product == db.cartItems[k].product
    requires merged.price >= 0 && merged.quantity >= 0
    ensures Valid(db.(cartItems := db.cartItems[k := merged]))
  {
    MergedItemFacts(db.cartItems, k, merged, db.carts, db.products, db.nextId);
    CartItemsWriteKeepsValid(db, db.cartItems[k := merged], db.nextId);
    assert db.(cartItems := db.cartItems[k := merged]) == db.(cartItems := db.cartItems[k := merged], nextId := db.nextId);
  }

  /** Replacing an item by one for the same (cart, product) keeps the cart item constraints. */
  lemma {:induction false} MergedItemFacts(items: map<Uid, CartItem>, k: Uid, merged: CartItem,
                                           carts: map<Uid, Cart>, products: map<Uid, Product>, bound: nat)
    requires k in items && KeysUnder(items, bound) && OneItemPerProduct(items)
    requires CartItemRefs(items, carts, products) && CartItemsNonNegative(items)
    requires merged.cart == items[k].cart && merged.product == items[k].product
    requires merged.price >= 0 && merged.quantity >= 0
    ensures KeysUnder(items[k := merged], bound) && OneItemPerProduct(items[k := merged])
    ensures CartItemRefs(items[k := merged], carts, products) && CartItemsNonNegative(items[k := merged])
  {
  }

  /** A new item for a product its cart does not hold yet keeps the store valid. */
  lemma {:induction false} NewItemKeepsValid(db: Db, item: CartItem)
    requires Valid(db) && item.cart in db.carts && item.product in db.products
    requires FindItem(db, item.cart, item.product).None?
    requires item.price >= 0 && item.quantity >= 0
    ensures Valid(db.(cartItems := db.cartItems[db.nextId := item], nextId := db.nextId + 1))
  {
    assert KeysUnder(db.cartItems, db.nextId);
    NewItemFacts(db.cartItems, item, db.carts, db.products, db.nextId);
    CartItemsWriteKeepsValid(db, db.cartItems[db.nextId := item], db.nextId + 1);
  }

  /** An item under the next key, for a (cart, product) not held yet, keeps the cart item constraints. */
  lemma {:induction false} NewItemFacts(items: map<Uid, CartItem>, item: CartItem,
                                        carts: map<Uid, Cart>, products: map<Uid, Product>, bound: nat)
    requires KeysUnder(items, bound) && OneItemPerProduct(items)
    requires CartItemRefs(items, carts, products) && CartItemsNonNegative(items)
    requires item.cart in carts && item.product in products && item.price >= 0 && item.quantity >= 0
    requires forall k :: k in items ==> items[k].cart != item.cart || items[k].product != item.product
    ensures KeysUnder(items[bound := item], bound + 1) && OneItemPerProduct(items[bound := item])
    ensures CartItemRefs(items[bound := item], carts, products) && CartItemsNonNegative(items[bound := item])
  {
    assert bound !in items;
  }

  /**
   * `CartORM.update_quantity_cart_item`: the quantity is increased by the argument (it
   * is a delta, not a new value); the save is refused when the result is negative.
   */
  function UpdateQuantity(db: Db, uid: Uid, quantity: int): (out: (Db, Outcome))
    requires uid in db.cartItems
    ensures out.1.Pass? <==> db.cartItems[uid].quantity + quantity >= 0
    ensures out.1.Fail? ==> out.1 == Fail(IntegrityError) && out.0 == db
    ensures out.1.Pass? ==> uid in out.0.cartItems && out.0.cartItems[uid].quantity == db.cartItems[uid].quantity + quantity
  {
    var item := db.cartItems[uid];
    if item.quantity + quantity < 0 then (db, Fail(IntegrityError))
    else (db.(cartItems := db.cartItems[uid := item.(quantity := item.quantity + quantity)]), Pass)
  }

  /** Two successful updates add up: the quantity argument accumulates. */
  lemma {:induction false} UpdateQuantityAccumulates(db: Db, uid: Uid, a: int, b: int)
    requires uid in db.cartItems
    requires UpdateQuantity(db, uid, a).1.Pass?
    ensures uid in UpdateQuantity(db, uid, a).0.cartItems
    ensures UpdateQuantity(UpdateQuantity(db, uid, a).0, uid, b).1 == UpdateQuantity(db, uid, a + b).1
    ensures UpdateQuantity(db, uid, a + b).1.Pass? ==>
      UpdateQuantity(UpdateQuantity(db, uid, a).0, uid, b).0 == UpdateQuantity(db, uid, a + b).0
  {
    var item := db.cartItems[uid];
    var once := db.(cartItems := db.cartItems[uid := item.(quantity := item.quantity + a)]);
    assert UpdateQuantity(db, uid, a).0 == once;
    if item.quantity + a + b >= 0 {
      assert once.cartItems[uid := item.(quantity := item.quantity + a + b)]
        == db.cartItems[uid := item.(quantity := item.quantity + a + b)];
    }
  }

  /** A quantity update changes no other item and no other table. */
  lemma {:induction false} UpdateQuantityTouchesOneItem(db: Db, uid: Uid, quantity: int)
    requires uid in db.cartItems
    ensures UpdateQuantity(db, uid, quantity).0.(cartItems := db.cartItems) == db
    ensures forall k :: k in db.cartItems && k != uid ==>
      k in UpdateQuantity(db, uid, quantity).0.cartItems && UpdateQuantity(db, uid, quantity).0.cartItems[k] == db.cartItems[k]
    ensures forall k :: k in UpdateQuantity(db, uid, quantity).0.cartItems <==> k in db.cartItems
  {
  }

  /** A quantity update keeps the store valid. */
  lemma {:induction false} UpdateQuantityKeepsValid(db: Db, uid: Uid, quantity: int)
    requires Valid(db) && uid in db.cartItems
    ensures Valid(UpdateQuantity(db, uid, quantity).0)
  {
    var item := db.cartItems[uid];
    if item.quantity + quantity >= 0 {
      var updated := item.(quantity := item.quantity + quantity);
      assert UpdateQuantity(db, uid, quantity).0 == db.(cartItems := db.cartItems[uid := updated]);
      MergeKeepsValid(db, uid, updated);
    }
  }

  /** `CartORM.delete_cart_item`: the row goes; nothing refers to a cart item. */
  function DeleteItem(db: Db, uid: Uid): (db': Db)
    requires uid in db.cartItems
    ensures uid !in db'.cartItems
    ensures forall k :: k in db'.cartItems <==> k in db.cartItems && k != uid
    ensures forall k :: k in db'.cartItems ==> db'.cartItems[k] == db.cartItems[k]
  {
    db.(cartItems := db.cartItems - {uid})
  }

  lemma {:induction false} DeleteItemKeepsValid(db: Db, uid: Uid)
    requires Valid(db) && uid in db.cartItems
    ensures Valid(DeleteItem(db, uid))
  {
    var db' := DeleteItem(db, uid);
    assert db' == db.(cartItems := db.cartItems - {uid});
    assert KeysBelow(db');
    assert OneItemPerProduct(db'.cartItems);
    assert CartItemRefs(db'.cartItems, db'.carts, db'.products);
    assert CartItemsNonNegative(db'.cartItems);
  }

  /** The keys of a cart's items, in ascending key order (`cart.cart_item_fk_cart.all()`). */
  function ItemsOfCart(db: Db, cart: Uid): (keys: seq<Uid>)
    ensures forall i :: 0 <= i < |keys| ==> keys[i] in db.cartItems && db.cartItems[keys[i]].cart == cart
    ensures KeysUnder(db.cartItems, db.nextId) ==> forall k :: k in db.cartItems && db.cartItems[k].cart == cart ==> k in keys
    ensures forall i, j :: 0 <= i < j < |keys| ==> keys[i] < keys[j]
    ensures (forall k :: k in db.cartItems ==> db.cartItems[k].cart != cart) ==> keys == []
  {
    KeysWhere(db.cartItems, (i: CartItem) => i.cart == cart, db.nextId)
  }

  /** `CartORM.get_cart_items`: the items of the user's cart, or an empty list without a cart. */
  function GetCartItems(db: Db, user: Uid): (keys: seq<Uid>)
    ensures FindCart(db, user).None? ==> keys == []
    ensures forall i :: 0 <= i < |keys| ==>
      keys[i] in db.cartItems && db.cartItems[keys[i]].cart in db.carts && db.carts[db.cartItems[keys[i]].cart].user == user
    ensures Valid(db) ==> forall k ::
      (k in db.cartItems && db.cartItems[k].cart in db.carts && db.carts[db.cartItems[k].cart].user == user) ==> k in keys
  {
    match FindCart(db, user)
    case None => []
    case Some(c) =>
      assert Valid(db) ==> forall k ::
        (k in db.cartItems && db.cartItems[k].cart in db.carts && db.carts[db.cartItems[k].cart].user == user)
        ==> db.cartItems[k].cart == c;
      ItemsOfCart(db, c)
  }

  /** The sum of `total_price` over some cart items. */
  function SumTotals(items: map<Uid, CartItem>, keys: seq<Uid>): (r: int)
    requires forall i :: 0 <= i < |keys| ==> keys[i] in items
    ensures (forall i :: 0 <= i < |keys| ==> items[keys[i]].price >= 0 && items[keys[i]].quantity >= 0) ==> r >= 0
    ensures keys == [] ==> r == 0
  {
    if keys == [] then 0
    else SumTotals(items, keys[..|keys| - 1]) + CartItemTotalPrice(items[keys[|keys| - 1]])
  }

  /** `get_cart_total` hands back, rather than raises, `CartDoesNotExists` when there is no cart. */
  datatype CartTotal = Total(amount: int) | ReturnedCartDoesNotExists

  /** `CartORM.get_cart_total`: the sum of the cart's item totals. */
  function GetCartTotal(db: Db, user: Uid): (r: CartTotal)
    ensures r.ReturnedCartDoesNotExists? <==> FindCart(db, user).None?
    ensures r.Total? ==> r.amount == SumTotals(db.cartItems, GetCartItems(db, user))
    ensures r.Total? && Valid(db) ==> r.amount >= 0
  {
    match FindCart(db, user)
    case None => ReturnedCartDoesNotExists
    case Some(_) => Total(SumTotals(db.cartItems, GetCartItems(db, user)))
  }

  /** The cart items that survive deleting every item of cart `c`. */
  function WithoutCart(cartItems: map<Uid, CartItem>, c: Uid): (r: map<Uid, CartItem>)
    ensures forall k :: k in r <==> k in cartItems && cartItems[k].cart != c
    ensures forall k :: k in r ==> r[k] == cartItems[k]
  {
    map k | k in cartItems && cartItems[k].cart != c :: cartItems[k]
  }

  /**
   * `CartORM.clear_cart`: deletes every item of the user's cart and keeps the cart;
   * without a cart it raises `CartDoesNotExists`.
   */
  method ClearCart(db: Db, user: Uid) returns (db': Db, r: Outcome)
    requires Valid(db)
    ensures FindCart(db, user).None? <==> r == Fail(CartDoesNotExists)
    ensures r.Fail? ==> db' == db
    ensures r.Pass? ==> db' == db.(cartItems := WithoutCart(db.cartItems, FindCart(db, user).value))
    ensures r.Pass? ==> Valid(db')
  {
    var cart := FindCart(db, user);
    if cart.None? {
      return db, Fail(CartDoesNotExists);
    }
    db' := db.(cartItems := WithoutCart(db.cartItems, cart.value));
    r := Pass;
    ClearKeepsValid(db, cart.value);
  }

  lemma {:induction false} ClearKeepsValid(db: Db, c: Uid)
    requires Valid(db)
    ensures Valid(db.(cartItems := WithoutCart(db.cartItems, c)))
  {
    var db' := db.(cartItems := WithoutCart(db.cartItems, c));
    assert KeysBelow(db');
    assert OneItemPerProduct(db'.cartItems);
    assert CartItemRefs(db'.cartItems, db'.carts, db'.products);
    assert CartItemsNonNegative(db'.cartItems);
  }

  /** After `clear_cart` the user's cart is still there, lists no item and totals zero. */
  lemma {:induction false} ClearedCartIsEmpty(db: Db, user: Uid)
    requires Valid(db) && FindCart(db, user).Some?
    ensures var db' := db.(cartItems := WithoutCart(db.cartItems, FindCart(db, user).value));
      && FindCart(db', user) == FindCart(db, user)
      && GetCartItems(db', user) == []
      && GetCartTotal(db', user) == Total(0)
  {
    var c := FindCart(db, user).value;
    var db' := db.(cartItems := WithoutCart(db.cartItems, c));
    FindCartFrame(db, db', user);
    assert forall k :: k in db'.cartItems ==> db'.cartItems[k].cart != c;
    assert ItemsOfCart(db', c) == [];
  }

  /** The line `add_cart_item` wrote is listed by `get_cart_items` for that user. */
  lemma {:induction false} AddedLineListed(db: Db, user: Uid, product: Uid, price: int, quantity: int)
    requires Valid(db) && user in db.users && AddToCart(db, user, product, price, quantity).1.Pass?
    ensures var db' := AddToCart(db, user, product, price, quantity).0;
      db'.nextId > 0 && LineKey(db, db', user, product) in GetCartItems(db', user)
  {
    AddToCartFindsLine(db, user, product, price, quantity);
    AddToCartKeepsValid(db, user, product, price, quantity);
  }
}
