/**
 * `CartService` of cart/services/__init__.py: update and delete look the item up by
 * uid and raise `CartItemDoesNotExists` when it is missing, then hand over to the ORM.
 * Neither takes the user, so neither checks that the item is in the caller's cart.
 * `add_cart_item` and `get_cart_items` hand over to `CartOrm` unchanged.
 */
module CartService {
  import opened Common
  import opened Errors
  import opened Schema
  import opened CartOrm

  /** `update_quantity_cart_item`: an existence check, then the ORM's quantity delta. */
  method UpdateQuantityCartItem(db: Db, uid: Uid, quantity: int) returns (db': Db, r: Outcome)
    requires Valid(db)
    ensures uid !in db.cartItems ==> r == Fail(CartItemDoesNotExists) && db' == db
    ensures uid in db.cartItems ==> db' == UpdateQuantity(db, uid, quantity).0 && r == UpdateQuantity(db, uid, quantity).1
    ensures Valid(db')
  {
    if uid !in db.cartItems {
      return db, Fail(CartItemDoesNotExists);
    }
    var out := UpdateQuantity(db, uid, quantity);
    db', r := out.0, out.1;
    UpdateQuantityKeepsValid(db, uid, quantity);
  }

  /** `delete_cart_item`: an existence check, then the ORM's delete. */
  method DeleteCartItem(db: Db, uid: Uid) returns (db': Db, r: Outcome)
    requires Valid(db)
    ensures uid !in db.cartItems ==> r == Fail(CartItemDoesNotExists) && db' == db
    ensures uid in db.cartItems ==> r == Pass && db' == DeleteItem(db, uid)
    ensures Valid(db')
  {
    if uid !in db.cartItems {
      return db, Fail(CartItemDoesNotExists);
    }
    db' := DeleteItem(db, uid);
    r := Pass;
    DeleteItemKeepsValid(db, uid);
  }

  /** A deleted item is listed in nobody's cart afterwards. */
  lemma {:induction false} DeletedItemNotListed(db: Db, uid: Uid, user: Uid)
    requires uid in db.cartItems
    ensures uid !in GetCartItems(DeleteItem(db, uid), user)
  {
    var keys := GetCartItems(DeleteItem(db, uid), user);
    assert forall i :: 0 <= i < |keys| ==> keys[i] in DeleteItem(db, uid).cartItems;
  }
}
