/**
 * `ProductService` of product/services/__init__.py: the existence handling in front
 * of the product ORM. `get_by_uid` only sees products that are not soft-deleted, and
 * `update` and `upload_image` go through it; `on_off` and `delete_product` look the
 * product up by uid alone, so they also reach soft-deleted products. `create`,
 * `create_multiple` and `get_all` hand over to the ORM unchanged.
 */
module ProductService {
  import opened Common
  import opened Errors
  import opened Schema
  import opened ProductOrm

  /** A missing or soft-deleted product raises `ProductDoesNotExist`. */
  method GetProduct(db: Db, uid: Uid) returns (r: Result<Product>)
    ensures r.Ok? <==> uid in db.products && !db.products[uid].deleted
    ensures r.Ok? ==> r.value == db.products[uid]
    ensures r.Err? ==> r.error == ProductDoesNotExist
  {
    var found := GetByUid(db, uid);
    if found.None? {
      return Err(ProductDoesNotExist);
    }
    r := Ok(found.value);
  }

  /**
   * `update`: a product the service cannot see raises `ProductDoesNotExist` before the
   * payload is looked at; otherwise the ORM update decides.
   */
  method Update(db: Db, uid: Uid, req: ProductRequest) returns (db': Db, r: Result<Uid>)
    requires Valid(db)
    ensures GetByUid(db, uid).None? ==> r == Err(ProductDoesNotExist) && db' == db
    ensures GetByUid(db, uid).Some? ==> db' == UpdateProduct(db, uid, req).0 && r == UpdateProduct(db, uid, req).1
    ensures r.Err? ==> db' == db
    ensures Valid(db')
  {
    var found := GetProduct(db, uid);
    if found.Err? {
      return db, Err(found.error);
    }
    var out := UpdateProduct(db, uid, req);
    db', r := out.0, out.1;
    UpdateProductKeepsValid(db, uid, req);
  }

  /** `upload_image`: only a product the service can see gets images, one per uploaded URL. */
  method AddImages(db: Db, uid: Uid, urls: seq<string>) returns (db': Db, r: Result<seq<ProductImage>>)
    requires Valid(db)
    ensures GetByUid(db, uid).None? ==> r == Err(ProductDoesNotExist) && db' == db
    ensures GetByUid(db, uid).Some? ==> r == Ok(ImagesFor(uid, urls)) && db' == db.(images := db.images + ImagesFor(uid, urls))
    ensures Valid(db')
  {
    var found := GetProduct(db, uid);
    if found.Err? {
      return db, Err(found.error);
    }
    var created;
    db', created := UploadImage(db, uid, urls);
    r := Ok(created);
    UploadImageKeepsValid(db, uid, urls);
  }

  /**
   * `on_off`: `Product.objects.get(uid=uid)` finds soft-deleted products too; an unknown
   * uid raises Django's `DoesNotExist`, which the service does not translate.
   */
  method Toggle(db: Db, uid: Uid) returns (db': Db, r: Result<Product>)
    requires Valid(db)
    ensures uid !in db.products ==> r == Err(ObjectDoesNotExist) && db' == db
    ensures uid in db.products ==> db' == OnOff(db, uid) && r == Ok(db'.products[uid])
    ensures r.Ok? ==> r.value.deleted != db.products[uid].deleted
    ensures Valid(db')
  {
    if uid !in db.products {
      return db, Err(ObjectDoesNotExist);
    }
    db' := OnOff(db, uid);
    r := Ok(db'.products[uid]);
    OnOffKeepsValid(db, uid);
  }

  /**
   * `delete_product`: an unknown uid raises `ProductDoesNotExist`; a known one is
   * deleted for good, whether or not it is soft-deleted, with its images, cart items
   * and order items.
   */
  method Delete(db: Db, uid: Uid) returns (db': Db, r: Result<bool>)
    requires Valid(db)
    ensures uid !in db.products ==> r == Err(ProductDoesNotExist) && db' == db
    ensures uid in db.products ==> r == Ok(true) && db' == DeleteProduct(db, uid)
    ensures uid !in db'.products
    ensures Valid(db')
  {
    if uid !in db.products {
      return db, Err(ProductDoesNotExist);
    }
    db', r := DeleteProduct(db, uid), Ok(true);
    DeleteProductKeepsValid(db, uid);
  }
}
