/**
 * `OrderService.update_order_status` of order/services/__init__.py: an existence
 * check, then the ORM's unconditional status write. The service's `create_order`,
 * `get_order_by_uid` and `get_user_orders` hand over to `OrderOrm` unchanged.
 */
module OrderService {
  import opened Common
  import opened Errors
  import opened Schema
  import opened OrderModels
  import opened OrderUtils
  import opened OrderOrm

  /**
   * An unknown uid raises `OrderDoesNotExists` and leaves the store alone; a known one
   * gets the new status whatever its current status is.
   */
  method UpdateOrderStatus(db: Db, uid: Uid, status: OrderStatus) returns (db': Db, r: Outcome)
    requires Valid(db)
    ensures uid !in db.orders ==> r == Fail(OrderDoesNotExists) && db' == db
    ensures uid in db.orders ==> r == Pass && db' == WriteStatus(db, uid, status)
    ensures Valid(db')
  {
    if uid !in db.orders {
      return db, Fail(OrderDoesNotExists);
    }
    db' := WriteStatus(db, uid, status);
    r := Pass;
    WriteStatusKeepsValid(db, uid, status);
  }

  lemma {:induction false} WriteStatusKeepsValid(db: Db, uid: Uid, status: OrderStatus)
    requires Valid(db) && uid in db.orders
    ensures Valid(WriteStatus(db, uid, status))
  {
    var db' := WriteStatus(db, uid, status);
    assert forall k :: k in db'.orders ==> db'.orders[k].code == db.orders[k].code;
  }

  /**
   * No transition graph: from any status any other can be written, and the last write
   * wins (a completed order can go back to PENDING).
   */
  lemma {:induction false} StatusWritesUnrestricted(db: Db, uid: Uid, first: OrderStatus, second: OrderStatus)
    requires uid in db.orders
    ensures WriteStatus(WriteStatus(db, uid, first), uid, second) == WriteStatus(db, uid, second)
    ensures WriteStatus(WriteStatus(db, uid, Completed), uid, Pending).orders[uid].status == "PENDING"
  {
  }

  /** No `OrderStatus` value is one of the lower-case choice keys `set_status` accepts. */
  lemma {:induction false} EnumValuesAreNotChoiceKeys(status: OrderStatus)
    ensures status.Value() !in StatusChoiceKeys
    ensures forall o: Order :: SetStatus(o, status.Value()) == o
  {
    var v := status.Value();
    assert v[0] != 'p' && v[0] != 's' && v[0] != 'c';
    assert forall k :: k in StatusChoiceKeys ==> k[0] == 'p' || k[0] == 's' || k[0] == 'c';
  }

  /**
   * The service writes the upper-case enum values, none of which is the lower-case
   * "pending" that `get_user_orders` excludes, so an order written through the service
   * stays listed.
   */
  lemma {:induction false} WrittenStatusStaysListed(db: Db, uid: Uid, status: OrderStatus)
    requires Valid(db) && uid in db.orders
    ensures uid in GetUserOrders(WriteStatus(db, uid, status), db.orders[uid].user)
  {
    WriteStatusKeepsValid(db, uid, status);
    EnumValuesAreNotChoiceKeys(status);
    assert "pending" in StatusChoiceKeys;
  }
}
