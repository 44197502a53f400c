/**
 * The model-level helpers of order/models.py: the discount date window, the
 * discount-amount and order-total helpers (as written and as evidently intended),
 * the whitelisted status write, and `OrderItem.total_price`.
 */
module OrderModels {
  import opened Common
  import opened Errors
  import opened Schema

  /**
   * `Discount.is_active`: false when a start day is set and lies after today, or an
   * end day is set and lies before today; true otherwise. Python dates are always
   * truthy, so only a missing bound is skipped.
   */
  predicate IsActive(d: Discount, today: Date)
    ensures IsActive(d, today) <==>
      (d.startTime.None? || d.startTime.value <= today) && (d.endTime.None? || today <= d.endTime.value)
  {
    if d.startTime.Some? && d.startTime.value > today then false
    else if d.endTime.Some? && d.endTime.value < today then false
    else true
  }

  /** Both boundary days of the window count as active. */
  lemma IsActiveOnBoundaries(d: Discount)
    requires d.startTime.Some? && d.endTime.Some? && d.startTime.value <= d.endTime.value
    ensures IsActive(d, d.startTime.value) && IsActive(d, d.endTime.value)
    ensures !IsActive(d, d.startTime.value - 1) && !IsActive(d, d.endTime.value + 1)
  {
  }

  /** The usage cap and the minimum order amount are never consulted. */
  lemma IsActiveIgnoresUsageAndMinimum(d: Discount, today: Date, maxUsage: Option<int>, minOrderAmount: int)
    ensures IsActive(d, today) == IsActive(d.(maxUsage := maxUsage, minOrderAmount := minOrderAmount), today)
  {
  }

  /** The stored choice keys of `DISCOUNT_TYPE_CHOICES`. */
  const PercentKind: string := "percent"
  const FixedKind: string := "fixed"

  /**
   * `Discount.calculate_discount_amount` as written: it compares the type with the
   * display labels "Percent" and "Fixed", never with the stored keys. The percent case
   * divides with `/`, modelled here exactly as a real number (float rounding left out).
   */
  function CalculateDiscountAmountAsWritten(d: Discount, amount: int): (r: real)
    ensures d.kind == "Percent" ==> r * 100.0 == (amount * d.value) as real
    ensures d.kind == "Fixed" ==> r == d.value as real
    ensures d.kind != "Percent" && d.kind != "Fixed" ==> r == 0.0
  {
    if d.kind == "Percent" then (amount * d.value) as real / 100.0
    else if d.kind == "Fixed" then d.value as real
    else 0.0
  }

  /** For both stored choices the as-written helper yields no discount at all. */
  lemma {:induction false} CalculateDiscountAmountIgnoresStoredKinds(d: Discount, amount: int)
    requires d.kind == PercentKind || d.kind == FixedKind
    ensures CalculateDiscountAmountAsWritten(d, amount) == 0.0
  {
    assert d.kind != "Percent" by { assert PercentKind[0] != "Percent"[0]; assert FixedKind != "Percent"; }
    assert d.kind != "Fixed" by { assert FixedKind[0] != "Fixed"[0]; assert PercentKind != "Fixed"; }
  }

  /** A concrete witness: a 10 percent discount on 1000 yields 0, not 100. */
  lemma CalculateDiscountAmountPercentExample()
    ensures CalculateDiscountAmountAsWritten(Discount("Ten", "TEN", PercentKind, 10, None, None, None, 0), 1000) == 0.0
  {
    CalculateDiscountAmountIgnoresStoredKinds(Discount("Ten", "TEN", PercentKind, 10, None, None, None, 0), 1000);
  }

  /**
   * The evidently intended discount amount: dispatch on the stored keys, the percent
   * case rounded down as `create_order` rounds it (`//`; Dafny's `/` by a positive
   * divisor is the same floor division).
   */
  function CalculateDiscountAmount(d: Discount, amount: int): (r: int)
    ensures d.kind == PercentKind ==> r * 100 <= amount * d.value < r * 100 + 100
    ensures d.kind == FixedKind ==> r == d.value
    ensures d.kind != PercentKind && d.kind != FixedKind ==> r == 0
  {
    if d.kind == PercentKind then amount * d.value / 100
    else if d.kind == FixedKind then d.value
    else 0
  }

  /** `OrderItem.total_price`: the line's price times its quantity. */
  function OrderItemTotalPrice(item: OrderItem): (r: int)
    ensures item.price >= 0 && item.quantity >= 0 ==> r >= 0
    ensures item.quantity == 0 || item.price == 0 ==> r == 0
  {
    item.price * item.quantity
  }

  /** The sum of `total_price` over a sequence of order items. */
  function ItemsTotal(items: seq<OrderItem>): (r: int)
    ensures (forall i :: 0 <= i < |items| ==> items[i].price >= 0 && items[i].quantity >= 0) ==> r >= 0
  {
    if items == [] then 0 else ItemsTotal(items[..|items| - 1]) + OrderItemTotalPrice(items[|items| - 1])
  }

  lemma {:induction false} ItemsTotalAppend(a: seq<OrderItem>, b: seq<OrderItem>)
    ensures ItemsTotal(a + b) == ItemsTotal(a) + ItemsTotal(b)
    decreases |b|
  {
    if b == [] {
      assert a + b == a;
    } else {
      assert (a + b)[..|a + b| - 1] == a + b[..|b| - 1];
      ItemsTotalAppend(a, b[..|b| - 1]);
    }
  }

  /** The items of one order, in table order (`order.order_item_fk_order.all()`). */
  function ItemsOf(items: seq<OrderItem>, order: Uid): (r: seq<OrderItem>)
    ensures |r| <= |items|
    ensures forall i :: 0 <= i < |r| ==> r[i].order == order && r[i] in items
  {
    if items == [] then []
    else ItemsOf(items[..|items| - 1], order) + (if items[|items| - 1].order == order then [items[|items| - 1]] else [])
  }

  lemma {:induction false} ItemsOfAppend(a: seq<OrderItem>, b: seq<OrderItem>, order: Uid)
    ensures ItemsOf(a + b, order) == ItemsOf(a, order) + ItemsOf(b, order)
    decreases |b|
  {
    if b == [] {
      assert a + b == a;
    } else {
      assert (a + b)[..|a + b| - 1] == a + b[..|b| - 1];
      ItemsOfAppend(a, b[..|b| - 1], order);
    }
  }

  /** Items that all belong to `order` are their own selection. */
  lemma {:induction false} ItemsOfAll(items: seq<OrderItem>, order: Uid)
    requires forall i :: 0 <= i < |items| ==> items[i].order == order
    ensures ItemsOf(items, order) == items
    decreases |items|
  {
    if items != [] {
      ItemsOfAll(items[..|items| - 1], order);
    }
  }

  /** No item of `items` belongs to `order`: the selection is empty. */
  lemma {:induction false} ItemsOfNone(items: seq<OrderItem>, order: Uid)
    requires forall i :: 0 <= i < |items| ==> items[i].order != order
    ensures ItemsOf(items, order) == []
    decreases |items|
  {
    if items != [] {
      ItemsOfNone(items[..|items| - 1], order);
    }
  }

  /**
   * `Order.calculate_total` as written: it calls `item.total_price()`, but `total_price`
   * is a property, so the call applies an int and raises a TypeError as soon as the
   * order has an item. Only an order without items gets a total.
   */
  function CalculateTotalAsWritten(order: Order, items: seq<OrderItem>): (r: Result<int>)
    ensures r.Ok? <==> items == []
    ensures r.Ok? ==> r.value == order.shippingFee - order.discountAmount.GetOr(0)
  {
    if items != [] then Err(TypeError("'int' object is not callable"))
    else Ok(0 - order.discountAmount.GetOr(0) + order.shippingFee)
  }

  /** Any order with at least one item makes the as-written total fail. */
  lemma CalculateTotalAsWrittenFailsWithItems(order: Order, item: OrderItem)
    ensures CalculateTotalAsWritten(order, [item]).Err?
  {
  }

  /**
   * The evidently intended total: the sum of the items' `total_price`, minus the
   * discount amount (a missing one counts as 0), plus the shipping fee.
   */
  function CalculateTotal(order: Order, items: seq<OrderItem>): (r: int)
    ensures (forall i :: 0 <= i < |items| ==> items[i].price >= 0 && items[i].quantity >= 0) ==>
              r >= order.shippingFee - order.discountAmount.GetOr(0)
    ensures items == [] ==> r == order.shippingFee - order.discountAmount.GetOr(0)
  {
    ItemsTotal(items) - order.discountAmount.GetOr(0) + order.shippingFee
  }

  /** The keys of `Order.STATUS_CHOICES`: lower-case, unlike the `OrderStatus` values. */
  const StatusChoiceKeys: seq<string> := ["pending", "processing", "shipping", "completed", "cancelled"]

  /**
   * `Order.set_status`: writes `status` only when the new value is one of the five
   * choice keys; any other value, including the upper-case `OrderStatus` values,
   * leaves the order as it was.
   */
  function SetStatus(order: Order, newStatus: string): (r: Order)
    ensures newStatus in StatusChoiceKeys ==> r.status == newStatus
    ensures newStatus !in StatusChoiceKeys ==> r == order
    ensures r == order.(status := r.status)
  {
    if newStatus in StatusChoiceKeys then order.(status := newStatus) else order
  }

  /** The status `create_order` writes is not a choice key, so `set_status` ignores it. */
  lemma {:induction false} SetStatusIgnoresUpperCase(order: Order)
    ensures SetStatus(order, "PENDING") == order
  {
    assert forall k :: k in StatusChoiceKeys ==> k[0] != 'P';
  }
}
