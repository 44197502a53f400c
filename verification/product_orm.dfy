/**
 * `ProductORM` of product/orm/product.py: the catalogue query (`get_all`), the
 * lookup of a visible product (`get_by_uid`), single-product `create` and `update`,
 * the soft-delete switch (`on_off`), hard deletion with its cascades, and the image
 * rows written by `upload_image`. The spreadsheet import `create_multiple` is in
 * module ProductImport.
 */
module ProductOrm {
  import opened Common
  import opened Errors
  import opened Schema

  /** `SearchFilterSortSchema`; `sort` defaults to "asc" in the schema. */
  datatype SearchFilter = SearchFilter(
    search: Option<string>,
    brand: Option<Uid>,
    minPrice: Option<int>,
    maxPrice: Option<int>,
    sort: string)

  /** The filter with every field at its default. */
  const NoFilter: SearchFilter := SearchFilter(None, None, None, None, "asc")

  /**
   * The `Q` object of `get_all`. `icontains(name, needle)` stands for the database's
   * case-insensitive containment; case folding is not modelled. The search applies
   * only to a non-empty string, the brand to a given uid, and the price bounds to any
   * given value, 0 included.
   */
  predicate Matches(f: SearchFilter, icontains: (string, string) -> bool, p: Product) {
    && !p.deleted
    && (Truthy(f.search) ==> icontains(p.name, f.search.value))
    && (f.brand.Some? ==> p.brand == f.brand.value)
    && (f.minPrice.Some? ==> p.salePrice >= f.minPrice.value)
    && (f.maxPrice.Some? ==> p.salePrice <= f.maxPrice.value)
  }

  /** `a` may come before `b` in an `order_by("sale_price")` (asc) or `order_by("-sale_price")` listing. */
  predicate Before(products: map<Uid, Product>, asc: bool, a: Uid, b: Uid)
    requires a in products && b in products
  {
    if asc then products[a].salePrice <= products[b].salePrice
    else products[a].salePrice >= products[b].salePrice
  }

  predicate Ordered(products: map<Uid, Product>, asc: bool, s: seq<Uid>) {
    && (forall i :: 0 <= i < |s| ==> s[i] in products)
    && (forall i, j :: 0 <= i < j < |s| ==> Before(products, asc, s[i], s[j]))
  }

  /** Inserts `k` into an ordered listing, ahead of the first product it may precede. */
  function InsertByPrice(products: map<Uid, Product>, asc: bool, k: Uid, sorted: seq<Uid>): (r: seq<Uid>)
    requires k in products && Ordered(products, asc, sorted)
    ensures Ordered(products, asc, r)
    ensures multiset(r) == multiset(sorted) + multiset{k}
    ensures forall x :: x in r <==> x == k || x in sorted
    decreases |sorted|
  {
    if |sorted| == 0 || Before(products, asc, k, sorted[0]) then [k] + sorted
    else
      var rest := InsertByPrice(products, asc, k, sorted[1..]);
      assert sorted == [sorted[0]] + sorted[1..];
      assert forall x :: x in rest ==> Before(products, asc, sorted[0], x);
      [sorted[0]] + rest
  }

  /** Orders a listing by sale price; the database leaves the order of equal prices open, and so does this contract. */
  function SortByPrice(products: map<Uid, Product>, asc: bool, ks: seq<Uid>): (r: seq<Uid>)
    requires forall i :: 0 <= i < |ks| ==> ks[i] in products
    ensures Ordered(products, asc, r)
    ensures multiset(r) == multiset(ks)
    ensures forall x :: x in r <==> x in ks
    decreases |ks|
  {
    if |ks| == 0 then []
    else
      assert ks == [ks[0]] + ks[1..];
      InsertByPrice(products, asc, ks[0], SortByPrice(products, asc, ks[1..]))
  }

  /** The keys of the products the filter selects, in key order, before sorting. */
  function Selected(db: Db, f: SearchFilter, icontains: (string, string) -> bool): seq<Uid> {
    KeysWhere(db.products, (p: Product) => Matches(f, icontains, p), db.nextId)
  }

  /**
   * `get_all`: the selected products, ascending by sale price when `sort` is exactly
   * "asc" and descending for any other value.
   */
  function GetAll(db: Db, f: SearchFilter, icontains: (string, string) -> bool): (r: seq<Uid>)
    ensures forall i :: 0 <= i < |r| ==> r[i] in db.products
    ensures f.sort == "asc" ==> forall i, j :: 0 <= i < j < |r| ==> db.products[r[i]].salePrice <= db.products[r[j]].salePrice
    ensures f.sort != "asc" ==> forall i, j :: 0 <= i < j < |r| ==> db.products[r[i]].salePrice >= db.products[r[j]].salePrice
    ensures multiset(r) == multiset(Selected(db, f, icontains))
  {
    var r := SortByPrice(db.products, f.sort == "asc", Selected(db, f, icontains));
    assert Ordered(db.products, f.sort == "asc", r);
    r
  }

  /** Every product whose key is in use is listed iff it matches the filter. */
  lemma {:induction false} GetAllListsMatches(db: Db, f: SearchFilter, icontains: (string, string) -> bool)
    requires KeysUnder(db.products, db.nextId)
    ensures forall k :: k in GetAll(db, f, icontains) <==> k in db.products && Matches(f, icontains, db.products[k])
  {
    var r := GetAll(db, f, icontains);
    var sel := Selected(db, f, icontains);
    assert r == SortByPrice(db.products, f.sort == "asc", sel);
    forall k
      ensures k in r <==> k in db.products && Matches(f, icontains, db.products[k])
    {
      assert k in r <==> k in sel;
    }
  }

  /** No product is listed twice. */
  lemma {:induction false} GetAllListsOnce(db: Db, f: SearchFilter, icontains: (string, string) -> bool)
    ensures forall i, j :: 0 <= i < j < |GetAll(db, f, icontains)| ==> GetAll(db, f, icontains)[i] != GetAll(db, f, icontains)[j]
  {
    var r := GetAll(db, f, icontains);
    var sel := Selected(db, f, icontains);
    forall i, j | 0 <= i < j < |r| ensures r[i] != r[j] {
      TwiceInSeq(r, i, j);
      OnceInIncreasing(sel, r[i]);
    }
  }

  lemma {:induction false} TwiceInSeq(s: seq<Uid>, i: nat, j: nat)
    requires i < j < |s|
    ensures s[i] == s[j] ==> multiset(s)[s[i]] >= 2
  {
    assert s == s[..i] + [s[i]] + s[i + 1..j] + [s[j]] + s[j + 1..];
  }

  lemma {:induction false} OnceInIncreasing(s: seq<Uid>, x: Uid)
    requires forall i, j :: 0 <= i < j < |s| ==> s[i] < s[j]
    ensures multiset(s)[x] <= 1
    decreases |s|
  {
    if |s| > 0 {
      var n := |s| - 1;
      assert s == s[..n] + [s[n]];
      OnceInIncreasing(s[..n], x);
      if s[n] == x {
        assert x !in s[..n];
      }
    }
  }

  /** Soft-deleted products are never listed, whatever the filter. */
  lemma {:induction false} GetAllHidesDeleted(db: Db, f: SearchFilter, icontains: (string, string) -> bool)
    requires KeysUnder(db.products, db.nextId)
    ensures forall k :: k in GetAll(db, f, icontains) ==> !db.products[k].deleted
  {
    GetAllListsMatches(db, f, icontains);
  }

  /**
   * An empty search string filters nothing (it is falsy), while a price bound of 0 does
   * filter (it is compared with `is not None`).
   */
  lemma {:induction false} FalsyFilterValues(db: Db, f: SearchFilter, icontains: (string, string) -> bool)
    requires KeysUnder(db.products, db.nextId)
    ensures GetAll(db, f.(search := Some("")), icontains) == GetAll(db, f.(search := None), icontains)
    ensures forall k :: k in GetAll(db, f.(minPrice := Some(0)), icontains) ==> db.products[k].salePrice >= 0
    ensures forall k :: k in GetAll(db, f.(maxPrice := Some(0)), icontains) ==> db.products[k].salePrice <= 0
  {
    var f1, f2 := f.(search := Some("")), f.(search := None);
    KeysWhereSamePredicate(db.products, (p: Product) => Matches(f1, icontains, p), (p: Product) => Matches(f2, icontains, p), db.nextId);
    assert Selected(db, f1, icontains) == Selected(db, f2, icontains);
    GetAllListsMatches(db, f.(minPrice := Some(0)), icontains);
    GetAllListsMatches(db, f.(maxPrice := Some(0)), icontains);
  }

  /** `get_by_uid` of the ORM: the product, unless it is missing or soft-deleted. */
  function GetByUid(db: Db, uid: Uid): (r: Option<Product>)
    ensures r.Some? <==> uid in db.products && !db.products[uid].deleted
    ensures r.Some? ==> r.value == db.products[uid]
  {
    if uid in db.products && !db.products[uid].deleted then Some(db.products[uid]) else None
  }

  /** `get_by_uid` finds exactly the products that an unfiltered `get_all` lists. */
  lemma {:induction false} GetByUidAgreesWithGetAll(db: Db, uid: Uid, icontains: (string, string) -> bool)
    requires KeysUnder(db.products, db.nextId)
    ensures GetByUid(db, uid).Some? <==> uid in GetAll(db, NoFilter, icontains)
  {
    GetAllListsMatches(db, NoFilter, icontains);
  }

  /** The brand with this name, if any (`Brand.objects.get(name=...)`; names are unique). */
  function BrandNamed(db: Db, name: string): (r: Option<Uid>)
    ensures r.Some? ==> r.value in db.brands && db.brands[r.value].name == name
    ensures r.None? ==> forall b :: b in db.brands && b < db.nextId ==> db.brands[b].name != name
  {
    FirstWhere(db.brands, (b: Brand) => b.name == name, db.nextId)
  }

  /** `Brand.objects.get_or_create(name=...)`. */
  function GetOrCreateBrand(db: Db, name: string): (out: (Db, Uid))
    ensures out.1 in out.0.brands && out.0.brands[out.1].name == name
    ensures out.0.products == db.products && out.0.nextId >= db.nextId
    ensures BrandNamed(db, name).Some? ==> out.0 == db
    ensures BrandNamed(db, name).None? ==>
      out.0 == db.(brands := db.brands[db.nextId := Brand(name)], nextId := db.nextId + 1) && out.1 == db.nextId
  {
    match BrandNamed(db, name)
    case Some(b) => (db, b)
    case None => (db.(brands := db.brands[db.nextId := Brand(name)], nextId := db.nextId + 1), db.nextId)
  }

  lemma {:induction false} NewBrandKeepsValid(db: Db, name: string)
    requires Valid(db)
    requires BrandNamed(db, name).None?
    ensures Valid(db.(brands := db.brands[db.nextId := Brand(name)], nextId := db.nextId + 1))
  {
    var db' := db.(brands := db.brands[db.nextId := Brand(name)], nextId := db.nextId + 1);
    assert BrandNamesUnique(db'.brands);
    assert ProductRefs(db'.products, db'.brands);
  }

  /** get_or_create keeps the store consistent and finds its brand afterwards. */
  lemma {:induction false} GetOrCreateBrandKeepsValid(db: Db, name: string)
    requires Valid(db)
    ensures Valid(GetOrCreateBrand(db, name).0)
    ensures GetOrCreateBrand(db, name).0.nextId >= db.nextId
    ensures db.brands.Keys <= GetOrCreateBrand(db, name).0.brands.Keys
    ensures GetOrCreateBrand(db, name).0.products == db.products
    ensures BrandNamed(GetOrCreateBrand(db, name).0, name) == Some(GetOrCreateBrand(db, name).1)
  {
    var out := GetOrCreateBrand(db, name);
    if BrandNamed(db, name).None? {
      NewBrandKeepsValid(db, name);
      var b := BrandNamed(out.0, name);
      assert b.Some? by {
        assert out.1 in out.0.brands && out.1 < out.0.nextId;
      }
      assert b.value == out.1;
    }
  }

  /** A request field the client may leave unset (`exclude_unset=True`) or set, possibly to null. */
  datatype Patch<T> = Unset | Set(value: Option<T>) {
    function Or(current: Option<T>): Option<T> {
      match this
      case Unset => current
      case Set(v) => v
    }
  }

  /**
   * `ProductRequestSchema`: the product's own fields plus `brand_name`. The nullable
   * `type` and `description` may be left unset; the others are required.
   */
  datatype ProductRequest = ProductRequest(
    code: string,
    name: string,
    kind: Patch<string>,
    originPrice: int,
    salePrice: int,
    description: Patch<string>,
    quantityInStock: int,
    brandName: string)

  predicate CodeTaken(products: map<Uid, Product>, code: string) {
    exists k :: k in products && products[k].code == code
  }

  predicate CodeTakenByOther(products: map<Uid, Product>, uid: Uid, code: string) {
    exists k :: k in products && k != uid && products[k].code == code
  }

  /** The product `Product(**payload)` builds: unset fields are null, `deleted` is False. */
  function NewProduct(req: ProductRequest, brand: Uid): (p: Product) {
    Product(req.code, req.name, req.kind.Or(None), req.originPrice, req.salePrice,
            req.description.Or(None), req.quantityInStock, brand, false)
  }

  /**
   * `create`, atomic: get-or-create the brand by name, then insert the product; a
   * code already in use violates the unique constraint and rolls the brand back too.
   */
  function CreateProduct(db: Db, req: ProductRequest): (out: (Db, Result<Uid>))
    ensures out.1.Err? <==> CodeTaken(db.products, req.code)
    ensures out.1.Err? ==> out.1.error == IntegrityError && out.0 == db
    ensures out.1.Ok? ==>
      && out.1.value >= db.nextId
      && out.1.value in out.0.products
      && out.0.products == db.products[out.1.value := out.0.products[out.1.value]]
      && out.0.products[out.1.value] == NewProduct(req, out.0.products[out.1.value].brand)
      && out.0.products[out.1.value].brand in out.0.brands
      && out.0.brands[out.0.products[out.1.value].brand].name == req.brandName
  {
    if CodeTaken(db.products, req.code) then (db, Err(IntegrityError))
    else
      var got := GetOrCreateBrand(db, req.brandName);
      var db1, brand := got.0, got.1;
      var p := NewProduct(req, brand);
      var db2 := db1.(products := db1.products[db1.nextId := p], nextId := db1.nextId + 1);
      assert db2.products[db1.nextId] == p && db2.brands == db1.brands;
      (db2, Ok(db1.nextId))
  }

  lemma {:induction false} AddProductKeepsValid(db: Db, p: Product)
    requires Valid(db)
    requires p.brand in db.brands && !CodeTaken(db.products, p.code)
    ensures Valid(db.(products := db.products[db.nextId := p], nextId := db.nextId + 1))
  {
    var db' := db.(products := db.products[db.nextId := p], nextId := db.nextId + 1);
    assert ProductCodesUnique(db'.products);
    assert KeysBelow(db');
  }

  lemma {:induction false} ReplaceProductKeepsValid(db: Db, k: Uid, p: Product)
    requires Valid(db) && k in db.products
    requires p.brand in db.brands && !CodeTakenByOther(db.products, k, p.code)
    ensures Valid(db.(products := db.products[k := p]))
  {
    var db' := db.(products := db.products[k := p]);
    assert ProductCodesUnique(db'.products);
    assert db'.products.Keys == db.products.Keys;
  }

  /** `create` keeps the store consistent, and the new product is visible at once. */
  lemma {:induction false} CreateProductKeepsValid(db: Db, req: ProductRequest)
    requires Valid(db)
    ensures Valid(CreateProduct(db, req).0)
    ensures CreateProduct(db, req).1.Ok? ==> GetByUid(CreateProduct(db, req).0, CreateProduct(db, req).1.value).Some?
  {
    var out := CreateProduct(db, req);
    if out.1.Ok? {
      var got := GetOrCreateBrand(db, req.brandName);
      var db1, brand := got.0, got.1;
      GetOrCreateBrandKeepsValid(db, req.brandName);
      assert out.0 == db1.(products := db1.products[db1.nextId := NewProduct(req, brand)], nextId := db1.nextId + 1);
      AddProductKeepsValid(db1, NewProduct(req, brand));
    }
  }

  /** `create` reuses a brand of that name and adds one only when there is none. */
  lemma {:induction false} CreateReusesBrand(db: Db, req: ProductRequest)
    requires CreateProduct(db, req).1.Ok?
    ensures BrandNamed(db, req.brandName).Some? ==> CreateProduct(db, req).0.brands == db.brands
    ensures BrandNamed(db, req.brandName).None? ==>
      CreateProduct(db, req).0.brands == db.brands[db.nextId := Brand(req.brandName)]
  {
  }

  /**
   * The fields `update` writes: every required field of the request, `type` and
   * `description` only when set, and the brand; `deleted` is kept.
   */
  function Patched(p: Product, req: ProductRequest, brand: Uid): (q: Product) {
    p.(code := req.code, name := req.name, kind := req.kind.Or(p.kind),
       originPrice := req.originPrice, salePrice := req.salePrice,
       description := req.description.Or(p.description),
       quantityInStock := req.quantityInStock, brand := brand)
  }

  /**
   * `update` of the ORM on a stored product: the brand must already exist
   * (`Brand.objects.get` raises DoesNotExist), and the code must not belong to
   * another product. Nothing is written before the save.
   */
  function UpdateProduct(db: Db, uid: Uid, req: ProductRequest): (out: (Db, Result<Uid>))
    requires uid in db.products
    ensures out.1.Err? <==> BrandNamed(db, req.brandName).None? || CodeTakenByOther(db.products, uid, req.code)
    ensures BrandNamed(db, req.brandName).None? ==> out.1 == Err(ObjectDoesNotExist)
    ensures out.1.Err? ==> out.0 == db
    ensures out.1.Ok? ==>
      && out.1.value == uid
      && uid in out.0.products
      && out.0 == db.(products := db.products[uid := out.0.products[uid]])
      && out.0.products[uid] == Patched(db.products[uid], req, out.0.products[uid].brand)
      && out.0.products[uid].brand in out.0.brands
      && out.0.brands[out.0.products[uid].brand].name == req.brandName
  {
    match BrandNamed(db, req.brandName)
    case None => (db, Err(ObjectDoesNotExist))
    case Some(b) =>
      if CodeTakenByOther(db.products, uid, req.code) then (db, Err(IntegrityError))
      else (db.(products := db.products[uid := Patched(db.products[uid], req, b)]), Ok(uid))
  }

  lemma {:induction false} UpdateProductKeepsValid(db: Db, uid: Uid, req: ProductRequest)
    requires Valid(db) && uid in db.products
    ensures Valid(UpdateProduct(db, uid, req).0)
  {
    var out := UpdateProduct(db, uid, req);
    if out.1.Ok? {
      var b := BrandNamed(db, req.brandName).value;
      assert out.0 == db.(products := db.products[uid := Patched(db.products[uid], req, b)]);
      ReplaceProductKeepsValid(db, uid, Patched(db.products[uid], req, b));
    }
  }

  /**
   * Unlike `create`, `update` never adds a brand; and sending the same request twice
   * has the effect of sending it once.
   */
  lemma {:induction false} UpdateProductIdempotent(db: Db, uid: Uid, req: ProductRequest)
    requires uid in db.products
    ensures UpdateProduct(db, uid, req).0.brands == db.brands
    ensures UpdateProduct(db, uid, req).1.Ok? ==>
      UpdateProduct(UpdateProduct(db, uid, req).0, uid, req) == UpdateProduct(db, uid, req)
  {
    var out := UpdateProduct(db, uid, req);
    if out.1.Ok? {
      var db1 := out.0;
      assert BrandNamed(db1, req.brandName) == BrandNamed(db, req.brandName);
      assert !CodeTakenByOther(db1.products, uid, req.code);
      var p1 := db1.products[uid];
      assert Patched(p1, req, p1.brand) == p1;
      assert db1.products[uid := p1] == db1.products;
    }
  }

  /** `on_off`: flips the soft-delete flag of a stored product. */
  function OnOff(db: Db, uid: Uid): (db': Db)
    requires uid in db.products
    ensures db' == db.(products := db.products[uid := db.products[uid].(deleted := !db.products[uid].deleted)])
  {
    db.(products := db.products[uid := db.products[uid].(deleted := !db.products[uid].deleted)])
  }

  /** Switching twice restores the store, and each switch hides a visible product or shows a hidden one. */
  lemma {:induction false} OnOffInvolution(db: Db, uid: Uid)
    requires uid in db.products
    ensures OnOff(OnOff(db, uid), uid) == db
    ensures GetByUid(OnOff(db, uid), uid).Some? <==> GetByUid(db, uid).None?
  {
    assert db.products[uid := db.products[uid]] == db.products;
  }

  lemma {:induction false} OnOffKeepsValid(db: Db, uid: Uid)
    requires Valid(db) && uid in db.products
    ensures Valid(OnOff(db, uid))
  {
    ReplaceProductKeepsValid(db, uid, db.products[uid].(deleted := !db.products[uid].deleted));
  }

  /**
   * `delete_product`: a hard delete. The foreign keys to Product cascade, so the
   * product's images, cart items and order items go with it.
   */
  function DeleteProduct(db: Db, uid: Uid): (db': Db)
    ensures db'.products == db.products - {uid}
    ensures db'.images == Filter(db.images, (i: ProductImage) => i.product != uid)
    ensures db'.cartItems == map k | k in db.cartItems && db.cartItems[k].product != uid :: db.cartItems[k]
    ensures db'.orderItems == Filter(db.orderItems, (i: OrderItem) => i.product != uid)
    ensures db' == db.(products := db'.products, images := db'.images, cartItems := db'.cartItems, orderItems := db'.orderItems)
  {
    db.(products := db.products - {uid},
        images := Filter(db.images, (i: ProductImage) => i.product != uid),
        cartItems := map k | k in db.cartItems && db.cartItems[k].product != uid :: db.cartItems[k],
        orderItems := Filter(db.orderItems, (i: OrderItem) => i.product != uid))
  }

  /** After deletion nothing refers to the product, and every other row survives. */
  lemma {:induction false} DeleteProductCascades(db: Db, uid: Uid)
    ensures forall i :: 0 <= i < |DeleteProduct(db, uid).images| ==> DeleteProduct(db, uid).images[i].product != uid
    ensures forall k :: k in DeleteProduct(db, uid).cartItems ==> DeleteProduct(db, uid).cartItems[k].product != uid
    ensures forall i :: 0 <= i < |DeleteProduct(db, uid).orderItems| ==> DeleteProduct(db, uid).orderItems[i].product != uid
    ensures forall k :: k in db.products && k != uid ==> k in DeleteProduct(db, uid).products
    ensures forall k :: k in db.cartItems && db.cartItems[k].product != uid ==> k in DeleteProduct(db, uid).cartItems
    ensures forall x :: x in db.images && x.product != uid ==> x in DeleteProduct(db, uid).images
    ensures forall x :: x in db.orderItems && x.product != uid ==> x in DeleteProduct(db, uid).orderItems
  {
  }

  lemma {:induction false} DeleteProductKeepsValid(db: Db, uid: Uid)
    requires Valid(db)
    ensures Valid(DeleteProduct(db, uid))
  {
    var db' := DeleteProduct(db, uid);
    DeleteKeepsItemRows(db, uid);
    assert KeysBelow(db') && Unique(db');
    assert CartShape(db') && Refs(db') && NonNegative(db');
  }

  /** The rows that survive the cascade still point at surviving products and keep their constraints. */
  lemma {:induction false} DeleteKeepsItemRows(db: Db, uid: Uid)
    requires CartItemRefs(db.cartItems, db.carts, db.products) && OneItemPerProduct(db.cartItems)
    requires OrderItemRefs(db.orderItems, db.orders, db.products) && OrderItemsNonNegative(db.orderItems)
    requires ImageRefs(db.images, db.products)
    ensures var db' := DeleteProduct(db, uid);
      && CartItemRefs(db'.cartItems, db'.carts, db'.products) && OneItemPerProduct(db'.cartItems)
      && OrderItemRefs(db'.orderItems, db'.orders, db'.products) && OrderItemsNonNegative(db'.orderItems)
      && ImageRefs(db'.images, db'.products)
  {
    var db' := DeleteProduct(db, uid);
    assert CartItemRefs(db'.cartItems, db'.carts, db'.products);
    assert OrderItemRefs(db'.orderItems, db'.orders, db'.products);
    assert ImageRefs(db'.images, db'.products);
  }

  /** The image rows `upload_image` creates: one per uploaded file, in order, the first one main. */
  function ImagesFor(product: Uid, urls: seq<string>): (r: seq<ProductImage>)
    ensures |r| == |urls|
    ensures forall i :: 0 <= i < |r| ==> r[i].product == product && r[i].url == Some(urls[i])
    ensures forall i :: 0 <= i < |r| ==> (r[i].isMain <==> i == 0)
  {
    seq(|urls|, i requires 0 <= i < |urls| => ProductImage(product, Some(urls[i]), i == 0))
  }

  /**
   * `upload_image`: for each file in order, the storage service returns its URL
   * (`urls[idx]`) and an image row is created, marked main iff it is the first.
   */
  method UploadImage(db: Db, product: Uid, urls: seq<string>) returns (db': Db, created: seq<ProductImage>)
    requires product in db.products
    ensures created == ImagesFor(product, urls)
    ensures db' == db.(images := db.images + created)
  {
    db' := db;
    created := [];
    for idx := 0 to |urls|
      invariant created == ImagesFor(product, urls[..idx])
      invariant db' == db.(images := db.images + created)
    {
      var image := ProductImage(product, Some(urls[idx]), idx == 0);
      db' := db'.(images := db'.images + [image]);
      created := created + [image];
    }
    assert urls[..|urls|] == urls;
  }

  /** Uploading keeps the store consistent; a non-empty upload adds exactly one main image. */
  lemma {:induction false} UploadImageKeepsValid(db: Db, product: Uid, urls: seq<string>)
    requires Valid(db) && product in db.products
    ensures Valid(db.(images := db.images + ImagesFor(product, urls)))
    ensures |urls| > 0 ==> exists i :: 0 <= i < |urls| && ImagesFor(product, urls)[i].isMain
  {
    var db' := db.(images := db.images + ImagesFor(product, urls));
    assert ImageRefs(db'.images, db'.products);
    if |urls| > 0 {
      assert ImagesFor(product, urls)[0].isMain;
    }
  }
}
