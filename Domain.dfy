/** The records the order book works on: orders and their line items, tables,
    cash-register sessions, cash adjustments and cart lines.
    Money is a `real` (exact decimals), time an `int` number of milliseconds,
    progress an `int` percentage. */
module Domain {

  datatype Option<T> = None | Some(value: T)

  /** BALCAO (counter), DELIVERY, MESA (dine-in). */
  datatype OrderType = Balcao | Delivery | Mesa

  datatype OrderStatus =
    | Pending
    | Preparing
    | ReadyForPickup
    | OutForDelivery
    | Delivered
    | Cancelled

  /** DINHEIRO (cash), PIX (instant transfer); every other method of payment
      behaves alike in the core and is represented by OtherMethod. */
  datatype PaymentMethod = Dinheiro | Pix | OtherMethod

  datatype TableStatus = Available | Occupied | NeedsCleaning

  datatype SessionStatus = Open | Closed

  datatype AdjustmentType = Add | Remove

  /** DELIVERED and CANCELLED are terminal. */
  predicate Terminal(s: OrderStatus) {
    s == Delivered || s == Cancelled
  }

  /** A line of the shopping cart (also the input of order creation and of
      adding items to an order). An optional field of the source that may be
      absent (`undefined`) is an `Option`: `isHalfAndHalf` is None on a line
      built from a plain menu item, which is not the same as `Some(false)`. */
  datatype CartItem = CartItem(
    id: string,
    menuItemId: string,
    sizeId: Option<string>,
    crustId: Option<string>,
    isHalfAndHalf: Option<bool>,
    firstHalfFlavor: Option<string>,
    secondHalfFlavor: Option<string>,
    price: real,
    quantity: int)

  /** A persisted line item of an order. */
  datatype OrderItem = OrderItem(
    menuItemId: string,
    sizeId: Option<string>,
    crustId: Option<string>,
    isHalfAndHalf: Option<bool>,
    firstHalfFlavor: Option<string>,
    secondHalfFlavor: Option<string>,
    price: real,
    quantity: int)

  datatype Order = Order(
    id: string,
    orderType: OrderType,
    status: OrderStatus,
    items: seq<OrderItem>,
    totalAmount: real,
    paymentMethod: Option<PaymentMethod>,
    amountPaid: Option<real>,
    changeDue: Option<real>,
    orderTime: int,
    lastStatusChangeTime: int,
    autoProgress: bool,
    progress: int,
    nextTransition: Option<int>,
    sessionId: Option<string>,
    tableId: Option<string>)

  datatype Table = Table(id: string, status: TableStatus, currentOrderId: Option<string>)

  datatype CashSession = CashSession(
    id: string,
    openingBalance: real,
    status: SessionStatus,
    openedAt: int,
    closedAt: Option<int>,
    closingBalanceInformed: Option<real>,
    calculatedSales: Option<real>,
    expectedInCash: Option<real>,
    difference: Option<real>)

  datatype CashAdjustment = CashAdjustment(
    id: string,
    sessionId: string,
    kind: AdjustmentType,
    amount: real,
    adjustedAt: int)

  /** Keys and projections, as named functions so that specifications can
      pass them around and compare them. */
  function OrderId(o: Order): string { o.id }
  function OrderTime(o: Order): int { o.orderTime }
  function TableId(t: Table): string { t.id }
  function SessionId(s: CashSession): string { s.id }
  function SessionOpenedAt(s: CashSession): int { s.openedAt }
  function AdjustedAt(a: CashAdjustment): int { a.adjustedAt }

  /** Value of a cart line: price times quantity. */
  function LineValue(c: CartItem): real {
    c.price * c.quantity as real
  }

  /** Sum of price times quantity over cart lines (the `reduce` at
      contexts/AppContext.tsx:550 and 613). */
  function CartTotal(cs: seq<CartItem>): real {
    if cs == [] then 0.0 else CartTotal(cs[..|cs| - 1]) + LineValue(cs[|cs| - 1])
  }

  /** Sum of price times quantity over persisted line items. */
  function ItemsTotal(items: seq<OrderItem>): real {
    if items == [] then 0.0
    else ItemsTotal(items[..|items| - 1]) + items[|items| - 1].price * items[|items| - 1].quantity as real
  }

  /** The row written to the line-item table for one cart line. */
  function ToOrderItem(c: CartItem): (r: OrderItem)
    ensures r.price == c.price && r.quantity == c.quantity && r.menuItemId == c.menuItemId
    ensures r.sizeId == c.sizeId && r.crustId == c.crustId && r.isHalfAndHalf == c.isHalfAndHalf
    ensures r.firstHalfFlavor == c.firstHalfFlavor && r.secondHalfFlavor == c.secondHalfFlavor
  {
    OrderItem(c.menuItemId, c.sizeId, c.crustId, c.isHalfAndHalf,
              c.firstHalfFlavor, c.secondHalfFlavor, c.price, c.quantity)
  }

  function ToOrderItems(cs: seq<CartItem>): (r: seq<OrderItem>)
    ensures |r| == |cs|
    ensures forall k :: 0 <= k < |cs| ==> r[k] == ToOrderItem(cs[k])
  {
    if cs == [] then [] else ToOrderItems(cs[..|cs| - 1]) + [ToOrderItem(cs[|cs| - 1])]
  }

  lemma {:induction false} ItemsTotalAppend(a: seq<OrderItem>, b: seq<OrderItem>)
    ensures ItemsTotal(a + b) == ItemsTotal(a) + ItemsTotal(b)
    decreases |b|
  {
    if b == [] {
      assert a + b == a;
    } else {
      var b' := b[..|b| - 1];
      assert (a + b)[..|a + b| - 1] == a + b';
      assert (a + b)[|a + b| - 1] == b[|b| - 1];
      ItemsTotalAppend(a, b');
    }
  }

  /** The line items written for a cart are worth what the cart is worth. */
  lemma {:induction false} ItemsTotalOfCart(cs: seq<CartItem>)
    ensures ItemsTotal(ToOrderItems(cs)) == CartTotal(cs)
  {
    if cs != [] {
      var cs' := cs[..|cs| - 1];
      var its := ToOrderItems(cs);
      assert its[..|its| - 1] == ToOrderItems(cs');
      ItemsTotalOfCart(cs');
    }
  }
}
