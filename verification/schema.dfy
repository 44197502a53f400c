/**
 * The persistent store: one row datatype per model of account/models.py,
 * product/models.py, cart/models.py and order/models.py, and the database as
 * one value holding every table. Tables keyed by a UUID primary key are maps
 * from `Uid`; tables whose rows are only appended (tokens, images, order items)
 * are sequences in insertion order. `Valid` gathers the constraints the database
 * and the code that writes it keep true.
 */
module Schema {
  import opened Common

  /** A primary key. Fresh keys come from `nextId`, which stands for uuid4. */
  type Uid = nat

  /** `set_password(None)` stores an unusable password; hashing itself is not modelled. */
  datatype PasswordHash = Unusable | Hashed(raw: string)

  datatype User = User(
    email: Option<string>,
    googleId: Option<string>,
    name: string,
    password: PasswordHash,
    isStaff: bool,
    isSuperuser: bool,
    isActive: bool)

  datatype AuthToken = AuthToken(
    user: Uid,
    token: string,
    expiresAt: Option<Instant>,
    blacklistedAt: Option<Instant>,
    createdAt: Instant)

  datatype Brand = Brand(name: string)

  datatype Product = Product(
    code: string,
    name: string,
    kind: Option<string>,
    originPrice: int,
    salePrice: int,
    description: Option<string>,
    quantityInStock: int,
    brand: Uid,
    deleted: bool)

  datatype ProductImage = ProductImage(product: Uid, url: Option<string>, isMain: bool)

  datatype Cart = Cart(user: Uid)

  datatype CartItem = CartItem(cart: Uid, product: Uid, price: int, quantity: int)

  /** A row of the `ShippingAddress` model, under the name the order module imports it by; keyed by its integer id. */
  datatype ShippingInfo = ShippingInfo(user: Uid, name: string, phone: string, address: string, isDefault: bool)

  datatype Discount = Discount(
    name: string,
    code: string,
    kind: string,
    value: int,
    startTime: Option<Date>,
    endTime: Option<Date>,
    maxUsage: Option<int>,
    minOrderAmount: int)

  datatype Order = Order(
    code: string,
    orderDate: Date,
    receiveDate: Option<Date>,
    paymentMethod: string,
    totalAmount: int,
    discountAmount: Option<int>,
    shippingFee: int,
    status: string,
    note: Option<string>,
    name: string,
    phone: string,
    address: string,
    user: Uid,
    discount: Option<Uid>)

  datatype OrderItem = OrderItem(order: Uid, product: Uid, price: int, quantity: int)

  datatype Db = Db(
    users: map<Uid, User>,
    tokens: seq<AuthToken>,
    brands: map<Uid, Brand>,
    products: map<Uid, Product>,
    images: seq<ProductImage>,
    carts: map<Uid, Cart>,
    cartItems: map<Uid, CartItem>,
    shippingInfos: map<int, ShippingInfo>,
    discounts: map<Uid, Discount>,
    orders: map<Uid, Order>,
    orderItems: seq<OrderItem>,
    nextId: nat)

  /** Every key of a table is below `bound`. */
  ghost predicate KeysUnder<V>(m: map<Uid, V>, bound: nat) {
    forall k :: k in m ==> k < bound
  }

  /** Every primary key in use is below `nextId`, so `nextId` is always free. */
  ghost predicate KeysBelow(db: Db) {
    && KeysUnder(db.users, db.nextId)
    && KeysUnder(db.brands, db.nextId)
    && KeysUnder(db.products, db.nextId)
    && KeysUnder(db.carts, db.nextId)
    && KeysUnder(db.cartItems, db.nextId)
    && KeysUnder(db.discounts, db.nextId)
    && KeysUnder(db.orders, db.nextId)
  }

  ghost predicate ProductCodesUnique(products: map<Uid, Product>) {
    forall a, b :: a in products && b in products && products[a].code == products[b].code ==> a == b
  }

  ghost predicate BrandNamesUnique(brands: map<Uid, Brand>) {
    forall a, b :: a in brands && b in brands && brands[a].name == brands[b].name ==> a == b
  }

  ghost predicate DiscountCodesUnique(discounts: map<Uid, Discount>) {
    forall a, b :: a in discounts && b in discounts && discounts[a].code == discounts[b].code ==> a == b
  }

  ghost predicate OrderCodesUnique(orders: map<Uid, Order>) {
    forall a, b :: a in orders && b in orders && orders[a].code == orders[b].code ==> a == b
  }

  ghost predicate TokensUnique(tokens: seq<AuthToken>) {
    forall i, j :: 0 <= i < |tokens| && 0 <= j < |tokens| && tokens[i].token == tokens[j].token ==> i == j
  }

  /** `email` and `google_id` are unique where present (NULLs never clash). */
  ghost predicate UserIdentitiesUnique(users: map<Uid, User>) {
    && (forall a, b :: a in users && b in users && users[a].email.Some? && users[a].email == users[b].email ==> a == b)
    && (forall a, b :: a in users && b in users && users[a].googleId.Some? && users[a].googleId == users[b].googleId ==> a == b)
  }

  ghost predicate Unique(db: Db) {
    && ProductCodesUnique(db.products)
    && BrandNamesUnique(db.brands)
    && DiscountCodesUnique(db.discounts)
    && OrderCodesUnique(db.orders)
    && TokensUnique(db.tokens)
    && UserIdentitiesUnique(db.users)
  }

  /** At most one cart per user: only `get_or_create` makes carts. */
  ghost predicate OneCartPerUser(carts: map<Uid, Cart>) {
    forall a, b :: a in carts && b in carts && carts[a].user == carts[b].user ==> a == b
  }

  /** At most one item per (cart, product): `add_cart_item` merges into an existing one. */
  ghost predicate OneItemPerProduct(cartItems: map<Uid, CartItem>) {
    forall a, b ::
      (a in cartItems && b in cartItems && cartItems[a].cart == cartItems[b].cart
       && cartItems[a].product == cartItems[b].product) ==> a == b
  }

  ghost predicate CartShape(db: Db) {
    OneCartPerUser(db.carts) && OneItemPerProduct(db.cartItems)
  }

  ghost predicate ProductRefs(products: map<Uid, Product>, brands: map<Uid, Brand>) {
    forall k :: k in products ==> products[k].brand in brands
  }

  ghost predicate CartRefs(carts: map<Uid, Cart>, users: map<Uid, User>) {
    forall k :: k in carts ==> carts[k].user in users
  }

  ghost predicate CartItemRefs(cartItems: map<Uid, CartItem>, carts: map<Uid, Cart>, products: map<Uid, Product>) {
    forall k :: k in cartItems ==> cartItems[k].cart in carts && cartItems[k].product in products
  }

  ghost predicate OrderRefs(orders: map<Uid, Order>, users: map<Uid, User>, discounts: map<Uid, Discount>) {
    forall k :: k in orders ==> orders[k].user in users && (orders[k].discount.Some? ==> orders[k].discount.value in discounts)
  }

  ghost predicate OrderItemRefs(orderItems: seq<OrderItem>, orders: map<Uid, Order>, products: map<Uid, Product>) {
    forall i :: 0 <= i < |orderItems| ==> orderItems[i].order in orders && orderItems[i].product in products
  }

  ghost predicate TokenRefs(tokens: seq<AuthToken>, users: map<Uid, User>) {
    forall i :: 0 <= i < |tokens| ==> tokens[i].user in users
  }

  ghost predicate ImageRefs(images: seq<ProductImage>, products: map<Uid, Product>) {
    forall i :: 0 <= i < |images| ==> images[i].product in products
  }

  /** Foreign keys point at existing rows. */
  ghost predicate Refs(db: Db) {
    && ProductRefs(db.products, db.brands)
    && CartRefs(db.carts, db.users)
    && CartItemRefs(db.cartItems, db.carts, db.products)
    && OrderRefs(db.orders, db.users, db.discounts)
    && OrderItemRefs(db.orderItems, db.orders, db.products)
    && TokenRefs(db.tokens, db.users)
    && ImageRefs(db.images, db.products)
  }

  ghost predicate CartItemsNonNegative(cartItems: map<Uid, CartItem>) {
    forall k :: k in cartItems ==> cartItems[k].price >= 0 && cartItems[k].quantity >= 0
  }

  ghost predicate OrderItemsNonNegative(orderItems: seq<OrderItem>) {
    forall i :: 0 <= i < |orderItems| ==> orderItems[i].price >= 0 && orderItems[i].quantity >= 0
  }

  /** The CHECK constraints of the PositiveIntegerField columns. */
  ghost predicate NonNegative(db: Db) {
    CartItemsNonNegative(db.cartItems) && OrderItemsNonNegative(db.orderItems)
  }

  ghost predicate Valid(db: Db) {
    KeysBelow(db) && Unique(db) && CartShape(db) && Refs(db) && NonNegative(db)
  }

  /** The empty database satisfies every constraint. */
  function EmptyDb(): (db: Db)
    ensures Valid(db)
    ensures db.nextId == 0 && db.products == map[] && db.orders == map[]
  {
    Db(map[], [], map[], map[], [], map[], map[], map[], map[], map[], [], 0)
  }
  /**
   * Writing the cart items table, with the key counter possibly raised, keeps the store
   * valid as long as the new table keeps the cart item constraints.
   */
  lemma {:induction false} CartItemsWriteKeepsValid(db: Db, items: map<Uid, CartItem>, next: nat)
    requires Valid(db) && db.nextId <= next
    requires KeysUnder(items, next) && OneItemPerProduct(items)
    requires CartItemRefs(items, db.carts, db.products) && CartItemsNonNegative(items)
    ensures Valid(db.(cartItems := items, nextId := next))
  {
    var db' := db.(cartItems := items, nextId := next);
    assert KeysBelow(db');
    assert Unique(db') && CartShape(db');
    assert Refs(db') && NonNegative(db');
  }
}
