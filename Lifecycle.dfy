/** The order status machine, one order at a time: the new value of an order
    after a status change, a scheduler tick, an auto-progress toggle, added
    items or the closing of a table account, and the fields of a new manual
    order. The order book applies these to its list
    (contexts/AppContext.tsx:403-799). */
module Lifecycle {
  import opened Domain
  import opened Durations

  /** What every operation keeps true of an order: progress is a percentage,
      an order in automatic progression has a due time, and the total is the
      value of the line items. (The converse of the second conjunct does NOT
      hold in general: two paths switch automatic progression off and keep
      the due time.) */
  predicate OrderInvariant(o: Order) {
    0 <= o.progress <= 100 &&
    (o.autoProgress ==> o.nextTransition.Some?) &&
    o.totalAmount == ItemsTotal(o.items)
  }

  // ------------------------------------------------------------ status change

  /** The targets that stop the timer whatever the duration: a manual
      DELIVERED or CANCELLED, and READY_FOR_PICKUP of a dine-in order (it
      waits there for its table account to be closed). */
  predicate Held(t: OrderType, s: OrderStatus, manual: bool) {
    (manual && Terminal(s)) || (t == Mesa && s == ReadyForPickup)
  }

  /** The order after `updateOrderStatus(id, s, manual)` with `d` the duration
      of the target status (contexts/AppContext.tsx:410-433). */
  function StatusUpdated(o: Order, s: OrderStatus, manual: bool, d: int, now: int): (r: Order)
    ensures r.status == s && r.lastStatusChangeTime == now
    ensures Held(o.orderType, s, manual) ==>
              !r.autoProgress && r.nextTransition == None && r.progress == 100
    ensures !Held(o.orderType, s, manual) ==>
              r.autoProgress == (d > 0) &&
              r.nextTransition == (if d > 0 then Some(now + d) else None) &&
              r.progress == (if d == 0 then 100 else 0)
    ensures r.autoProgress <==> r.nextTransition.Some?
    ensures r == o.(status := s, lastStatusChangeTime := now, autoProgress := r.autoProgress,
                    nextTransition := r.nextTransition, progress := r.progress)
    ensures OrderInvariant(o) ==> OrderInvariant(r)
  {
    var base := o.(status := s, lastStatusChangeTime := now);
    if manual then
      if s == Delivered || s == Cancelled || (o.orderType == Mesa && s == ReadyForPickup) then
        base.(autoProgress := false, nextTransition := None, progress := 100)
      else
        base.(autoProgress := d > 0,
              nextTransition := if d > 0 then Some(now + d) else None,
              progress := if d == 0 then 100 else 0)
    else
      var timed := base.(progress := if d == 0 then 100 else 0,
                         nextTransition := if d > 0 then Some(now + d) else None,
                         autoProgress := d > 0);
      if o.orderType == Mesa && s == ReadyForPickup then
        timed.(autoProgress := false, nextTransition := None, progress := 100)
      else timed
  }

  // ---------------------------------------------------------------- scheduler

  /** Orders the scheduler looks at: automatic progression on, a due time,
      and a status that is not terminal. */
  predicate Eligible(o: Order) {
    o.autoProgress && o.nextTransition.Some? && !Terminal(o.status)
  }

  /** The status an order moves to when it is due: its successor in the
      progression sequence, except that an order that is not a delivery goes
      straight to DELIVERED instead of OUT_FOR_DELIVERY; None when the
      sequence gives no successor. (A dine-in order moving to
      READY_FOR_PICKUP takes the generic successor; the hold is applied by
      the status change itself.) */
  function Successor(progression: map<OrderStatus, OrderStatus>, t: OrderType, s: OrderStatus): (r: Option<OrderStatus>)
    ensures r.None? <==> s !in progression
    ensures r.Some? && t != Delivery ==> r.value != OutForDelivery
    ensures r.Some? && r.value != progression[s] ==>
              progression[s] == OutForDelivery && t != Delivery && r.value == Delivered
  {
    if s !in progression then None
    else if t == Mesa && progression[s] == ReadyForPickup then Some(ReadyForPickup)
    else if progression[s] == OutForDelivery && t != Delivery then Some(Delivered)
    else Some(progression[s])
  }

  /** The progression sequence of a standard installation. */
  const StandardProgression: map<OrderStatus, OrderStatus> :=
    map[Pending := Preparing, Preparing := ReadyForPickup, ReadyForPickup := OutForDelivery, OutForDelivery := Delivered]

  /** Under the standard sequence a delivery order goes out for delivery, a
      counter or dine-in order is delivered straight from READY_FOR_PICKUP,
      and DELIVERED has no successor. */
  lemma StandardSuccessors()
    ensures Successor(StandardProgression, Delivery, ReadyForPickup) == Some(OutForDelivery)
    ensures Successor(StandardProgression, Balcao, ReadyForPickup) == Some(Delivered)
    ensures Successor(StandardProgression, Mesa, ReadyForPickup) == Some(Delivered)
    ensures Successor(StandardProgression, Mesa, Preparing) == Some(ReadyForPickup)
    ensures Successor(StandardProgression, Delivery, Delivered).None?
  {
  }

  function Clamp(x: real): real {
    if x < 0.0 then 0.0 else if x > 100.0 then 100.0 else x
  }

  /** Progress through the current status, as a real percentage, of an order
      due at `next` whose status lasts `total` milliseconds
      (contexts/AppContext.tsx:449-451). */
  function ProgressPercent(total: int, next: int, now: int): (p: real)
    ensures 0.0 <= p <= 100.0
    ensures now >= next ==> p == 100.0
    ensures total > 0 && now <= next - total ==> p == 0.0
    // With no positive duration, progress jumps from 0 to 100 at the due time.
    ensures total <= 0 && now < next ==> p == 0.0
    // In between, progress is 100 × elapsed / total.
    ensures total > 0 && next - total <= now <= next ==>
              p * total as real == (now - (next - total)) as real * 100.0
  {
    if total > 0 then
      var elapsed, t := (total - (next - now)) as real, total as real;
      ShareBounds(elapsed, t);
      Clamp(elapsed / t * 100.0)
    else if next <= now then 100.0
    else 0.0
  }

  /** The share `elapsed / total` passes 0 and 1 exactly when the elapsed
      time passes 0 and the total. */
  lemma ShareBounds(elapsed: real, total: real)
    requires total > 0.0
    ensures var q := elapsed / total;
            q * total == elapsed && (q * 100.0) * total == elapsed * 100.0 &&
            (elapsed >= total ==> q >= 1.0) && (elapsed <= total ==> q <= 1.0) &&
            (elapsed >= 0.0 ==> q >= 0.0) && (elapsed <= 0.0 ==> q <= 0.0)
  {
    var q := elapsed / total;
    assert total / total == 1.0;
    assert 0.0 / total == 0.0;
    if elapsed >= total {
      DivMonotone(total, elapsed, total);
    }
    if elapsed <= total {
      DivMonotone(elapsed, total, total);
    }
    if elapsed >= 0.0 {
      DivMonotone(0.0, elapsed, total);
    }
    if elapsed <= 0.0 {
      DivMonotone(elapsed, 0.0, total);
    }
  }

  lemma DivMonotone(a: real, b: real, t: real)
    requires t > 0.0 && a <= b
    ensures a / t <= b / t
  {
    var qa, qb := a / t, b / t;
    assert qa * t == a && qb * t == b;
  }

  /** `Math.round`: halves round up. */
  function Round(x: real): (n: int)
    ensures x - 0.5 < n as real <= x + 0.5
    ensures 0.0 <= x <= 100.0 ==> 0 <= n <= 100
  {
    (x + 0.5).Floor
  }

  lemma {:induction false} ProgressMonotone(total: int, next: int, now1: int, now2: int)
    requires now1 <= now2
    ensures ProgressPercent(total, next, now1) <= ProgressPercent(total, next, now2)
  {
    if total > 0 {
      var e1, e2 := (total - (next - now1)) as real, (total - (next - now2)) as real;
      DivMonotone(e1, e2, total as real);
    }
  }

  /** The scheduler writes a progress value to the store when it moved by
      more than five points from the stored one, or reached 0 or 100 while
      the stored one had not. */
  predicate WorthWriting(current: real, stored: int) {
    current - stored as real > 5.0 || stored as real - current > 5.0 ||
    (current == 100.0 && stored != 100) || (current == 0.0 && stored != 0)
  }

  /** The not-yet-due branch of one scheduler pass for one order: a progress
      value that moved by more than five points, or reached 0 or 100, is
      written to the store (and kept only when the write succeeds); a smaller
      change is kept in memory only (contexts/AppContext.tsx:467-475). */
  function ProgressTick(o: Order, total: int, now: int, ok: bool): (r: Order)
    requires o.nextTransition.Some?
    // A successful write, or no write at all, leaves the rounded share.
    ensures ok ==> r == o.(progress := Round(ProgressPercent(total, o.nextTransition.value, now)))
    ensures !WorthWriting(ProgressPercent(total, o.nextTransition.value, now), o.progress) ==>
              r == o.(progress := Round(ProgressPercent(total, o.nextTransition.value, now)))
    // A failed write keeps the order as it was.
    ensures !ok && WorthWriting(ProgressPercent(total, o.nextTransition.value, now), o.progress) ==> r == o
    ensures 0 <= r.progress <= 100 || r == o
  {
    var cp := ProgressPercent(total, o.nextTransition.value, now);
    var db := o.progress as real;
    if WorthWriting(cp, o.progress) then
      if ok then o.(progress := Round(cp)) else o
    else if cp != db then o.(progress := Round(cp))
    else o
  }

  /** One order's share of a scheduler pass at time `now`; `ok` says whether
      the store accepts the writes for this order
      (contexts/AppContext.tsx:447-475). */
  function Tick(src: FlowSource, progression: map<OrderStatus, OrderStatus>, o: Order, now: int, ok: bool): (r: Order)
    // Terminal orders, and orders without automatic progression or due time, are left alone.
    ensures !Eligible(o) ==> r == o
    // Before the due time only the progress moves.
    ensures Eligible(o) && now < o.nextTransition.value ==>
              r == o.(progress := r.progress) && (r == o || 0 <= r.progress <= 100)
    // The status only ever moves to the successor, and only when due.
    ensures r.status != o.status ==>
              ok && Eligible(o) && now >= o.nextTransition.value &&
              Successor(progression, o.orderType, o.status) == Some(r.status)
    // Before the due time, a successful write leaves the rounded share of the status's duration.
    ensures Eligible(o) && now < o.nextTransition.value && ok ==>
              r == o.(progress := Round(ProgressPercent(Duration(src, o.orderType, o.status), o.nextTransition.value, now)))
    // Before the due time the result is the progress step, whatever the write outcome.
    ensures Eligible(o) && now < o.nextTransition.value ==>
              r == ProgressTick(o, Duration(src, o.orderType, o.status), now, ok)
    // When due, a failed write leaves the order as it was.
    ensures Eligible(o) && now >= o.nextTransition.value && !ok ==> r == o
    // Due with a successor: a non-manual status change.
    ensures Eligible(o) && now >= o.nextTransition.value && ok &&
            Successor(progression, o.orderType, o.status).Some? ==>
              var t := Successor(progression, o.orderType, o.status).value;
              r == StatusUpdated(o, t, false, Duration(src, o.orderType, t), now)
    // Due without a successor: automatic progression stops at 100%, status and due time stay.
    ensures Eligible(o) && now >= o.nextTransition.value && ok &&
            Successor(progression, o.orderType, o.status).None? ==>
              r == o.(autoProgress := false, progress := 100)
    // Only the status and the timer fields are ever touched.
    ensures r == o.(status := r.status, lastStatusChangeTime := r.lastStatusChangeTime,
                    autoProgress := r.autoProgress, nextTransition := r.nextTransition, progress := r.progress)
    ensures OrderInvariant(o) ==> OrderInvariant(r)
  {
    if !Eligible(o) then o
    else
      var next := o.nextTransition.value;
      if now >= next then
        match Successor(progression, o.orderType, o.status)
        case Some(t) =>
          if ok then StatusUpdated(o, t, false, Duration(src, o.orderType, t), now) else o
        case None =>
          if ok then o.(autoProgress := false, progress := 100) else o
      else
        ProgressTick(o, Duration(src, o.orderType, o.status), now, ok)
  }

  /** Only delivery orders ever reach OUT_FOR_DELIVERY through the scheduler. */
  lemma NoShippingStepUnlessDelivery(src: FlowSource, progression: map<OrderStatus, OrderStatus>,
                                     o: Order, now: int, ok: bool)
    requires o.orderType != Delivery && o.status != OutForDelivery
    ensures Tick(src, progression, o, now, ok).status != OutForDelivery
  {
    var r := Tick(src, progression, o, now, ok);
    if r.status != o.status {
      assert Successor(progression, o.orderType, o.status) == Some(r.status);
    }
  }

  /** A dine-in order that reached READY_FOR_PICKUP (by either path) is never
      moved on by the scheduler, however long it waits. */
  lemma DineInReadyIsHeld(src: FlowSource, progression: map<OrderStatus, OrderStatus>,
                          o: Order, manual: bool, d: int, t0: int, now: int, ok: bool)
    requires o.orderType == Mesa
    ensures var held := StatusUpdated(o, ReadyForPickup, manual, d, t0);
            Tick(src, progression, held, now, ok) == held
  {
  }

  // ------------------------------------------------------- auto-progress toggle

  /** The order after `toggleOrderAutoProgress`, with `d` the duration of its
      current status; None when the toggle is refused
      (contexts/AppContext.tsx:483-505). */
  function Toggled(o: Order, d: int, now: int): (r: Option<Order>)
    ensures r.None? <==> !o.autoProgress && o.orderType == Mesa && o.status == ReadyForPickup
    ensures r.Some? ==> r.value.status == o.status && r.value.items == o.items &&
                        r.value.totalAmount == o.totalAmount &&
                        (r.value.autoProgress <==> r.value.nextTransition.Some?)
    // Switching off clears the due time and nothing else.
    ensures r.Some? && o.autoProgress ==>
              r.value == o.(autoProgress := false, nextTransition := None)
    // Switching on starts a timer for the current status, or is turned back
    // off at 100% when the status has no positive duration.
    ensures r.Some? && !o.autoProgress ==>
              r.value.lastStatusChangeTime == now &&
              (r.value.autoProgress <==> d > 0) &&
              (d > 0 ==> r.value.nextTransition == Some(now + d) && r.value.progress == 0) &&
              (d <= 0 ==> r.value.progress == 100)
    ensures r.Some? ==> r.value == o.(autoProgress := r.value.autoProgress, nextTransition := r.value.nextTransition,
                                      lastStatusChangeTime := r.value.lastStatusChangeTime, progress := r.value.progress)
    ensures r.Some? && OrderInvariant(o) ==> OrderInvariant(r.value)
  {
    if !o.autoProgress && o.orderType == Mesa && o.status == ReadyForPickup then None
    else if !o.autoProgress then
      var on := o.(autoProgress := true, lastStatusChangeTime := now);
      if d > 0 then Some(on.(nextTransition := Some(now + d), progress := 0))
      else Some(on.(autoProgress := false, nextTransition := None, progress := 100))
    else
      Some(o.(autoProgress := false, nextTransition := None))
  }

  // ------------------------------------------------------------- added items

  /** The order after `addItemsToOrder`; None when refused: no items, or an
      order that is already DELIVERED or CANCELLED
      (contexts/AppContext.tsx:601-640). */
  function ItemsAdded(src: FlowSource, o: Order, cs: seq<CartItem>, now: int): (r: Option<Order>)
    ensures r.None? <==> cs == [] || Terminal(o.status)
    ensures r.Some? ==> r.value.items == o.items + ToOrderItems(cs) &&
                        r.value.totalAmount == o.totalAmount + CartTotal(cs) &&
                        r.value.lastStatusChangeTime == now
    // The order keeps its identity, placement, payment and session.
    ensures r.Some? ==> r.value == o.(items := r.value.items, totalAmount := r.value.totalAmount,
                                      lastStatusChangeTime := now, status := r.value.status,
                                      autoProgress := r.value.autoProgress, nextTransition := r.value.nextTransition,
                                      progress := r.value.progress)
    // PENDING and PREPARING keep their status and restart their timer.
    ensures r.Some? && (o.status == Pending || o.status == Preparing) ==>
              var d := Duration(src, o.orderType, o.status);
              r.value.status == o.status && r.value.progress == 0 &&
              r.value.autoProgress == (d > 0) &&
              r.value.nextTransition == (if d > 0 then Some(now + d) else None)
    // READY_FOR_PICKUP goes back to PREPARING with a fresh PREPARING timer.
    ensures r.Some? && o.status == ReadyForPickup ==>
              var d := Duration(src, o.orderType, Preparing);
              r.value.status == Preparing && r.value.progress == 0 &&
              r.value.autoProgress == (d > 0) &&
              r.value.nextTransition == (if d > 0 then Some(now + d) else None)
    // Any other status keeps its status and its timer fields.
    ensures r.Some? && o.status == OutForDelivery ==>
              r.value.status == o.status && r.value.progress == o.progress &&
              r.value.autoProgress == o.autoProgress && r.value.nextTransition == o.nextTransition
  {
    if cs == [] || Terminal(o.status) then None
    else
      var base := o.(items := o.items + ToOrderItems(cs),
                     totalAmount := o.totalAmount + CartTotal(cs),
                     lastStatusChangeTime := now);
      if o.status == Pending || o.status == Preparing then
        var d := Duration(src, o.orderType, o.status);
        Some(base.(autoProgress := d > 0,
                   nextTransition := if d > 0 then Some(now + d) else None,
                   progress := 0))
      else if o.status == ReadyForPickup then
        var d := Duration(src, o.orderType, Preparing);
        Some(base.(status := Preparing,
                   autoProgress := d > 0,
                   nextTransition := if d > 0 then Some(now + d) else None,
                   progress := 0))
      else Some(base)
  }

  /** Adding items keeps the total equal to the value of the line items. */
  lemma ItemsAddedKeepsInvariant(src: FlowSource, o: Order, cs: seq<CartItem>, now: int)
    requires OrderInvariant(o) && ItemsAdded(src, o, cs, now).Some?
    ensures OrderInvariant(ItemsAdded(src, o, cs, now).value)
  {
    ItemsTotalAppend(o.items, ToOrderItems(cs));
    ItemsTotalOfCart(cs);
  }

  // ------------------------------------------------------ table account close

  datatype PaymentDetails = PaymentDetails(paymentMethod: PaymentMethod, amountPaid: Option<real>)

  /** Cash or PIX: the payments that belong to the cash drawer. */
  predicate DrawerPayment(m: PaymentMethod) { m == Dinheiro || m == Pix }

  /** Change for a cash payment: the excess of a non-zero amount paid over the
      total, else 0. */
  function ChangeDue(p: PaymentDetails, total: real): (c: real)
    ensures c >= 0.0
    ensures c > 0.0 ==> p.paymentMethod == Dinheiro && p.amountPaid.Some? && c == p.amountPaid.value - total
    ensures (p.paymentMethod == Dinheiro && p.amountPaid.Some? && p.amountPaid.value != 0.0 &&
             p.amountPaid.value >= total) ==> c == p.amountPaid.value - total
    ensures !(p.paymentMethod == Dinheiro && p.amountPaid.Some? && p.amountPaid.value != 0.0 && p.amountPaid.value >= total) ==> c == 0.0
  {
    if p.paymentMethod == Dinheiro && p.amountPaid.Some? && p.amountPaid.value != 0.0 && p.amountPaid.value >= total
    then p.amountPaid.value - total
    else 0.0
  }

  /** The order after `closeTableAccount` while `active` is the open cash
      session: an order that is already DELIVERED or CANCELLED is returned as
      it is (contexts/AppContext.tsx:777-780). */
  function TableClosed(o: Order, p: PaymentDetails, active: Option<CashSession>, now: int): (r: Order)
    ensures Terminal(o.status) ==> r == o
    ensures !Terminal(o.status) ==>
              r.status == Delivered && !r.autoProgress && r.progress == 100 &&
              r.lastStatusChangeTime == now &&
              r.paymentMethod == Some(p.paymentMethod) &&
              r.amountPaid == (if p.paymentMethod == Dinheiro then p.amountPaid else Some(o.totalAmount)) &&
              r.changeDue == Some(ChangeDue(p, o.totalAmount)) &&
              r.sessionId == (if DrawerPayment(p.paymentMethod) && active.Some? then Some(active.value.id) else None)
    // The due time, the items and the total are not touched.
    ensures r.nextTransition == o.nextTransition && r.items == o.items && r.totalAmount == o.totalAmount &&
            r.id == o.id && r.orderTime == o.orderTime && r.tableId == o.tableId && r.orderType == o.orderType
    ensures OrderInvariant(o) ==> OrderInvariant(r)
  {
    if Terminal(o.status) then o
    else
      var sessionId := if DrawerPayment(p.paymentMethod) && active.Some? then Some(active.value.id) else None;
      o.(status := Delivered,
         paymentMethod := Some(p.paymentMethod),
         amountPaid := if p.paymentMethod == Dinheiro then p.amountPaid else Some(o.totalAmount),
         changeDue := Some(ChangeDue(p, o.totalAmount)),
         lastStatusChangeTime := now,
         autoProgress := false,
         progress := 100,
         sessionId := sessionId)
  }

  // ----------------------------------------------------------- manual order

  datatype ManualOrderData = ManualOrderData(
    orderType: OrderType,
    items: seq<CartItem>,
    paymentMethod: PaymentMethod,
    amountPaid: Option<real>,
    tableId: Option<string>)

  /** The order row `createManualOrder` inserts, as the store returns it with
      id `id` and creation time `now`, while `active` is the open cash session
      (contexts/AppContext.tsx:550-578). */
  function NewManualOrder(src: FlowSource, data: ManualOrderData, active: Option<CashSession>,
                          id: string, now: int): (r: Order)
    ensures r.id == id && r.orderType == data.orderType && r.status == Pending && r.orderTime == now
    ensures r.items == ToOrderItems(data.items) && r.totalAmount == CartTotal(data.items)
    ensures var d := Duration(src, data.orderType, Pending);
            r.progress == 0 && r.autoProgress == (d > 0) &&
            r.nextTransition == (if d > 0 then Some(now + d) else None)
    // Dine-in orders are paid when the table account is closed.
    ensures data.orderType == Mesa ==>
              r.paymentMethod.None? && r.amountPaid.None? && r.changeDue.None? && r.sessionId.None? &&
              r.tableId == data.tableId
    ensures data.orderType != Mesa ==>
              r.paymentMethod == Some(data.paymentMethod) && r.tableId.None? &&
              r.sessionId == (if DrawerPayment(data.paymentMethod) && active.Some? then Some(active.value.id) else None)
    // Only a cash order that is not dine-in records the amount handed over.
    ensures r.amountPaid == (if data.orderType != Mesa && data.paymentMethod == Dinheiro then data.amountPaid else None)
    // Change is recorded exactly when a non-zero cash amount covers the total,
    // and is then what is handed back; otherwise it is absent (not 0).
    ensures r.changeDue.Some? <==>
              data.orderType != Mesa && data.paymentMethod == Dinheiro && data.amountPaid.Some? &&
              data.amountPaid.value != 0.0 && data.amountPaid.value >= r.totalAmount
    ensures r.changeDue.Some? ==>
              r.changeDue.value >= 0.0 && r.amountPaid.value == r.totalAmount + r.changeDue.value
    ensures r.lastStatusChangeTime == now
    ensures OrderInvariant(r)
  {
    var total := CartTotal(data.items);
    var d := Duration(src, data.orderType, Pending);
    var mesa := data.orderType == Mesa;
    var cash := !mesa && data.paymentMethod == Dinheiro;
    ItemsTotalOfCart(data.items);
    Order(
      id := id,
      orderType := data.orderType,
      status := Pending,
      items := ToOrderItems(data.items),
      totalAmount := total,
      paymentMethod := if mesa then None else Some(data.paymentMethod),
      amountPaid := if cash then data.amountPaid else None,
      changeDue := if cash && data.amountPaid.Some? && data.amountPaid.value != 0.0 && data.amountPaid.value >= total
                   then Some(data.amountPaid.value - total) else None,
      orderTime := now,
      lastStatusChangeTime := now,
      autoProgress := d > 0,
      progress := 0,
      nextTransition := if d > 0 then Some(now + d) else None,
      sessionId := if !mesa && DrawerPayment(data.paymentMethod) && active.Some? then Some(active.value.id) else None,
      tableId := if mesa then data.tableId else None)
  }

  /** A new order whose PENDING status lasts ten minutes is half-way after
      five minutes and moves on when the ten minutes are up. */
  lemma TenMinutePending(src: FlowSource, progression: map<OrderStatus, OrderStatus>,
                         data: ManualOrderData, active: Option<CashSession>, id: string, t0: int)
    requires Duration(src, data.orderType, Pending) == 600000
    requires Pending in progression
    ensures var o := NewManualOrder(src, data, active, id, t0);
            var half := Tick(src, progression, o, t0 + 300000, true);
            half.status == Pending && half.progress == 50 &&
            Tick(src, progression, o, t0 + 600000, true).status ==
              Successor(progression, data.orderType, Pending).value
  {
    var o := NewManualOrder(src, data, active, id, t0);
    assert ProgressPercent(600000, t0 + 600000, t0 + 300000) == 50.0;
    assert Round(50.0) == 50;
  }
}
