/** The order book of the application context: the orders, tables, cash
    sessions and cash adjustments held in memory, and the operations that
    write to the store and then bring the in-memory lists up to date
    (contexts/AppContext.tsx:367-799).

    Each store write is a boolean parameter (`...Ok`): when it is false the
    write failed, an alert would be shown, and the in-memory state does not
    change. Identifiers and timestamps the store assigns are parameters
    too. */
module OrderBook {
  import opened Domain
  import opened Lists
  import opened Durations
  import opened Reducer
  import opened Lifecycle
  import opened Tables
  import Cash

  /** The loaded application settings; only the order flow matters here. */
  datatype Settings = Settings(orderFlow: Option<FlowConfig>)

  /** The `updates` object of `updateOrderStatus`, built field by field
      (contexts/AppContext.tsx:410-433). */
  method StatusUpdates(o: Order, status: OrderStatus, manual: bool, duration: int, now: int) returns (u: Order)
    ensures u == StatusUpdated(o, status, manual, duration, now)
  {
    u := o.(status := status, lastStatusChangeTime := now);
    if manual {
      if status == Delivered || status == Cancelled || (o.orderType == Mesa && status == ReadyForPickup) {
        u := u.(autoProgress := false, nextTransition := None, progress := 100);
      } else {
        u := u.(autoProgress := duration > 0,
                nextTransition := if duration > 0 then Some(now + duration) else None,
                progress := 0);
        if duration == 0 {
          u := u.(progress := 100);
        }
      }
    } else {
      u := u.(progress := 0,
              nextTransition := if duration > 0 then Some(now + duration) else None,
              autoProgress := duration > 0);
      if duration == 0 {
        u := u.(progress := 100);
      }
      if o.orderType == Mesa && status == ReadyForPickup {
        u := u.(autoProgress := false, nextTransition := None, progress := 100);
      }
    }
  }

  /** The `updates` object of `toggleOrderAutoProgress` for an order that
      passed the dine-in check (contexts/AppContext.tsx:489-505). */
  method ToggleUpdates(o: Order, duration: int, now: int) returns (u: Order)
    requires !(!o.autoProgress && o.orderType == Mesa && o.status == ReadyForPickup)
    ensures Some(u) == Toggled(o, duration, now)
  {
    var switchOn := !o.autoProgress;
    u := o.(autoProgress := switchOn);
    if switchOn {
      u := u.(lastStatusChangeTime := now);
      if duration > 0 {
        u := u.(nextTransition := Some(now + duration), progress := 0);
      } else {
        u := u.(autoProgress := false, nextTransition := None, progress := 100);
      }
    } else {
      u := u.(nextTransition := None);
    }
  }

  /** The new order row of `addItemsToOrder` for an order that is not
      DELIVERED or CANCELLED (contexts/AppContext.tsx:613-638). */
  method ItemsUpdates(src: FlowSource, o: Order, items: seq<CartItem>, now: int) returns (u: Order)
    requires items != [] && !Terminal(o.status)
    ensures Some(u) == ItemsAdded(src, o, items, now)
  {
    u := o.(items := o.items + ToOrderItems(items),
            totalAmount := o.totalAmount + CartTotal(items),
            lastStatusChangeTime := now);
    if o.status == Pending || o.status == Preparing {
      var duration := Duration(src, o.orderType, o.status);
      u := u.(autoProgress := duration > 0,
              nextTransition := if duration > 0 then Some(now + duration) else None,
              progress := 0);
    } else if o.status == ReadyForPickup {
      var duration := Duration(src, o.orderType, Preparing);
      u := u.(status := Preparing,
              autoProgress := duration > 0,
              nextTransition := if duration > 0 then Some(now + duration) else None,
              progress := 0);
    }
  }

  class Book {
    var orders: seq<Order>
    var tables: seq<Table>
    var sessions: Sessions
    var adjustments: seq<CashAdjustment>
    var settings: Option<Settings>
    var adjustmentsTableMissing: bool
    /** The built-in order flow of the default settings. */
    const defaults: FlowConfig
    /** The status each status advances to. */
    const progression: map<OrderStatus, OrderStatus>

    /** Orders have distinct ids, are kept newest first and each keeps the
        order invariant; the active session is the one open session; the
        adjustments are kept newest first. */
    ghost predicate Valid()
      reads this
    {
      UniqueIds(orders) && NewestFirst(orders) &&
      (forall o :: o in orders ==> OrderInvariant(o)) &&
      SessionsConsistent(sessions) &&
      SortedDesc(adjustments, AdjustedAt)
    }

    /** Where `getOrderStatusDuration` reads durations from. */
    function Flow(): FlowSource
      reads this
    {
      FlowSource(if settings.Some? then settings.value.orderFlow else None, defaults)
    }

    constructor (defaults: FlowConfig, progression: map<OrderStatus, OrderStatus>)
      ensures Valid()
      ensures orders == [] && tables == [] && sessions == Sessions([], None) && adjustments == []
      ensures settings.None? && !adjustmentsTableMissing
      ensures this.defaults == defaults && this.progression == progression
    {
      orders := [];
      tables := [];
      sessions := Sessions([], None);
      adjustments := [];
      settings := None;
      adjustmentsTableMissing := false;
      this.defaults := defaults;
      this.progression := progression;
    }

    /** Stores the refetched order `u` in place of the order at position `i`
        (UPDATE_ORDER_STATUS_SUCCESS and REALTIME_ORDER_UPDATE). */
    method Refresh(i: int, u: Order)
      requires Valid() && 0 <= i < |orders|
      requires u.id == orders[i].id && u.orderTime == orders[i].orderTime && OrderInvariant(u)
      modifies this
      ensures Valid() && orders == old(orders)[i := u]
      ensures tables == old(tables) && sessions == old(sessions) && adjustments == old(adjustments)
      ensures settings == old(settings) && adjustmentsTableMissing == old(adjustmentsTableMissing)
    {
      FirstIndexDistinct(orders, OrderId, i);
      ReplaceInPlace(orders, i, u);
      ReplaceKeepsUnique(orders, u);
      orders := ReplaceOrder(orders, u);
      forall x | x in orders ensures OrderInvariant(x) {
        var j :| 0 <= j < |orders| && orders[j] == x;
        if j != i {
          assert x == old(orders)[j];
        }
      }
    }

    /** `updateOrderStatus(id, status, manual)`: a manual DELIVERED of a
        dine-in order is refused (it is closed from the tables screen);
        otherwise the status changes and the timer fields follow
        `StatusUpdated`. */
    method UpdateOrderStatus(id: string, status: OrderStatus, manual: bool, now: int, writeOk: bool)
      requires Valid()
      modifies this
      ensures Valid()
      ensures var i := FirstIndex(old(orders), OrderId, id);
              if i >= 0 && !(old(orders)[i].orderType == Mesa && status == Delivered && manual) && writeOk
              then orders == old(orders)[i := StatusUpdated(old(orders)[i], status, manual,
                                                            Duration(old(Flow()), old(orders)[i].orderType, status), now)]
              else orders == old(orders)
      ensures tables == old(tables) && sessions == old(sessions) && adjustments == old(adjustments)
      ensures settings == old(settings) && adjustmentsTableMissing == old(adjustmentsTableMissing)
    {
      var i := FirstIndex(orders, OrderId, id);
      if i < 0 {
        return;
      }
      var o := orders[i];
      if o.orderType == Mesa && status == Delivered && manual {
        return;
      }
      var duration := Duration(Flow(), o.orderType, status);
      var u := StatusUpdates(o, status, manual, duration, now);
      if !writeOk {
        return;
      }
      Refresh(i, u);
    }

    /** One pass of the scheduler (`checkOrderTransitions`) at time `now`,
        over the order list as it was when the pass started; the writes for
        the orders whose ids are in `failing` fail. Nothing happens while
        the settings are not loaded. */
    method CheckOrderTransitions(now: int, failing: set<string>)
      requires Valid()
      modifies this
      ensures Valid()
      ensures old(settings).None? ==> orders == old(orders)
      ensures old(settings).Some? ==>
                |orders| == |old(orders)| &&
                forall j :: 0 <= j < |orders| ==>
                  orders[j] == Tick(old(Flow()), progression, old(orders)[j], now, old(orders)[j].id !in failing)
      ensures tables == old(tables) && sessions == old(sessions) && adjustments == old(adjustments)
      ensures settings == old(settings) && adjustmentsTableMissing == old(adjustmentsTableMissing)
    {
      if settings.None? {
        return;
      }
      var snapshot := orders;
      var k := 0;
      while k < |snapshot|
        invariant 0 <= k <= |snapshot| && Valid() && |orders| == |snapshot|
        invariant tables == old(tables) && sessions == old(sessions) && adjustments == old(adjustments)
        invariant settings == old(settings) && adjustmentsTableMissing == old(adjustmentsTableMissing)
        invariant forall j :: 0 <= j < k ==>
                    orders[j] == Tick(Flow(), progression, snapshot[j], now, snapshot[j].id !in failing)
        invariant forall j :: k <= j < |orders| ==> orders[j] == snapshot[j]
      {
        CheckOrder(k, now, snapshot[k].id !in failing);
        k := k + 1;
      }
    }

    /** The scheduler's work on the order at position `k`: an order that is
        due moves to its successor status (or stops at 100% when it has
        none); one that is not yet due has its progress brought up to date,
        written to the store only when it moved by more than five points or
        reached 0 or 100. */
    method CheckOrder(k: int, now: int, ok: bool)
      requires Valid() && 0 <= k < |orders|
      modifies this
      ensures Valid()
      ensures orders == old(orders)[k := Tick(old(Flow()), progression, old(orders)[k], now, ok)]
      ensures tables == old(tables) && sessions == old(sessions) && adjustments == old(adjustments)
      ensures settings == old(settings) && adjustmentsTableMissing == old(adjustmentsTableMissing)
    {
      var o := orders[k];
      if !(o.autoProgress && o.nextTransition.Some? && !Terminal(o.status)) {
        return;
      }
      if now >= o.nextTransition.value {
        AdvanceDue(k, now, ok);
      } else {
        TrackProgress(k, now, ok);
      }
    }

    /** A due order moves to its successor status through a non-manual
        `updateOrderStatus`; with no successor its automatic progression
        stops at 100% (contexts/AppContext.tsx:453-465). */
    method AdvanceDue(k: int, now: int, ok: bool)
      requires Valid() && 0 <= k < |orders|
      requires Eligible(orders[k]) && now >= orders[k].nextTransition.value
      modifies this
      ensures Valid()
      ensures orders == old(orders)[k := Tick(old(Flow()), progression, old(orders)[k], now, ok)]
      ensures tables == old(tables) && sessions == old(sessions) && adjustments == old(adjustments)
      ensures settings == old(settings) && adjustmentsTableMissing == old(adjustmentsTableMissing)
    {
      var o := orders[k];
      assert o in orders;
      FirstIndexDistinct(orders, OrderId, k);
      match Successor(progression, o.orderType, o.status)
      case Some(t) =>
        UpdateOrderStatus(o.id, t, false, now, ok);
      case None =>
        if ok {
          Refresh(k, o.(autoProgress := false, progress := 100));
        }
    }

    /** An order that is not yet due has its progress brought up to date:
        written to the store when it moved by more than five points or
        reached 0 or 100, and otherwise kept in memory only
        (contexts/AppContext.tsx:449-475). */
    method TrackProgress(k: int, now: int, ok: bool)
      requires Valid() && 0 <= k < |orders|
      requires Eligible(orders[k]) && now < orders[k].nextTransition.value
      modifies this
      ensures Valid()
      ensures orders == old(orders)[k := Tick(old(Flow()), progression, old(orders)[k], now, ok)]
      ensures tables == old(tables) && sessions == old(sessions) && adjustments == old(adjustments)
      ensures settings == old(settings) && adjustmentsTableMissing == old(adjustmentsTableMissing)
    {
      var o := orders[k];
      assert o in orders;
      var total := Duration(Flow(), o.orderType, o.status);
      var current := ProgressPercent(total, o.nextTransition.value, now);
      var stored := o.progress as real;
      if WorthWriting(current, o.progress) {
        if ok {
          Refresh(k, o.(progress := Round(current)));
        }
      } else if current != stored {
        Refresh(k, o.(progress := Round(current)));
      }
    }

    /** `toggleOrderAutoProgress(id)`: switches automatic progression off,
        or on with a fresh timer for the current status. Nothing happens for
        an unknown order, while the settings are not loaded, or for a dine-in
        order waiting at READY_FOR_PICKUP for its account to be closed. */
    method ToggleOrderAutoProgress(id: string, now: int, writeOk: bool)
      requires Valid()
      modifies this
      ensures Valid()
      ensures var i := FirstIndex(old(orders), OrderId, id);
              if i >= 0 && old(settings).Some? && writeOk &&
                 Toggled(old(orders)[i], Duration(old(Flow()), old(orders)[i].orderType, old(orders)[i].status), now).Some?
              then orders == old(orders)[i := Toggled(old(orders)[i],
                                                      Duration(old(Flow()), old(orders)[i].orderType, old(orders)[i].status),
                                                      now).value]
              else orders == old(orders)
      ensures tables == old(tables) && sessions == old(sessions) && adjustments == old(adjustments)
      ensures settings == old(settings) && adjustmentsTableMissing == old(adjustmentsTableMissing)
    {
      var i := FirstIndex(orders, OrderId, id);
      if i < 0 || settings.None? {
        return;
      }
      var o := orders[i];
      if !o.autoProgress && o.orderType == Mesa && o.status == ReadyForPickup {
        return;
      }
      var u := ToggleUpdates(o, Duration(Flow(), o.orderType, o.status), now);
      if !writeOk {
        return;
      }
      Refresh(i, u);
    }

    /** `addItemsToOrder(id, items)`: appends the cart lines to an order that
        is not DELIVERED or CANCELLED, raises its total and restarts its
        timer; the lines are written first (`itemsOk`), then the order
        (`orderOk`). */
    method AddItemsToOrder(id: string, items: seq<CartItem>, now: int, itemsOk: bool, orderOk: bool)
      returns (r: Option<Order>)
      requires Valid()
      modifies this
      ensures Valid()
      ensures var i := FirstIndex(old(orders), OrderId, id);
              if i >= 0 && old(settings).Some? && itemsOk && orderOk &&
                 ItemsAdded(old(Flow()), old(orders)[i], items, now).Some?
              then r == ItemsAdded(old(Flow()), old(orders)[i], items, now) &&
                   orders == old(orders)[i := r.value]
              else r.None? && orders == old(orders)
      ensures tables == old(tables) && sessions == old(sessions) && adjustments == old(adjustments)
      ensures settings == old(settings) && adjustmentsTableMissing == old(adjustmentsTableMissing)
    {
      if items == [] || settings.None? {
        return None;
      }
      var i := FirstIndex(orders, OrderId, id);
      if i < 0 {
        return None;
      }
      var o := orders[i];
      if Terminal(o.status) || !itemsOk {
        return None;
      }
      var u := ItemsUpdates(Flow(), o, items, now);
      if !orderOk {
        return None;
      }
      ItemsAddedKeepsInvariant(Flow(), o, items, now);
      Refresh(i, u);
      r := Some(u);
    }

    /** `updateTable(id, patch)` with the guard that keeps a table from
        being marked NEEDS_CLEANING while its current order is in
        progress. */
    method UpdateTable(id: string, patch: TablePatch, writeOk: bool)
      requires Valid()
      modifies this
      ensures Valid()
      ensures tables == UpdatedTables(old(tables), old(orders), id, patch, writeOk)
      ensures orders == old(orders) && sessions == old(sessions) && adjustments == old(adjustments)
      ensures settings == old(settings) && adjustmentsTableMissing == old(adjustmentsTableMissing)
    {
      if patch.status == Some(NeedsCleaning) {
        var t := FirstIndex(tables, TableId, id);
        if t >= 0 && Present(tables[t].currentOrderId) {
          var j := FirstIndex(orders, OrderId, tables[t].currentOrderId.value);
          if j >= 0 && !Terminal(orders[j].status) {
            return;
          }
        }
      }
      if !writeOk {
        return;
      }
      tables := PatchTables(tables, id, patch);
    }

    /** `createManualOrder(data)` with `newId` the id the store gives the
        order: refused while the settings are not loaded; a failed item
        insert deletes the order again; a dine-in order occupies its table
        when that table is AVAILABLE. */
    method CreateManualOrder(data: ManualOrderData, newId: string, now: int,
                             orderOk: bool, itemsOk: bool, tableOk: bool)
      returns (r: Option<Order>)
      requires Valid()
      modifies this
      ensures Valid()
      ensures r.Some? <==> old(settings).Some? && orderOk && itemsOk
      ensures r.Some? ==> r.value == NewManualOrder(old(Flow()), data, old(sessions.active), newId, now) &&
                          orders == AddOrder(old(orders), r.value) && r.value in orders
      ensures r.None? ==> orders == old(orders)
      ensures tables == if r.Some? && data.orderType == Mesa && Present(data.tableId) &&
                           FirstIndex(old(tables), TableId, data.tableId.value) >= 0 &&
                           old(tables)[FirstIndex(old(tables), TableId, data.tableId.value)].status == Available
                        then UpdatedTables(old(tables), old(orders), data.tableId.value,
                                           TablePatch(Some(Occupied), Some(Some(newId))), tableOk)
                        else old(tables)
      ensures sessions == old(sessions) && adjustments == old(adjustments)
      ensures settings == old(settings) && adjustmentsTableMissing == old(adjustmentsTableMissing)
    {
      if settings.None? {
        return None;
      }
      var o := NewManualOrder(Flow(), data, sessions.active, newId, now);
      if !orderOk || !itemsOk {
        return None;
      }
      if data.orderType == Mesa && Present(data.tableId) {
        var t := FirstIndex(tables, TableId, data.tableId.value);
        if t >= 0 && tables[t].status == Available {
          UpdateTable(data.tableId.value, TablePatch(Some(Occupied), Some(Some(newId))), tableOk);
        }
      }
      orders := AddOrder(orders, o);
      r := Some(o);
    }

    /** `closeTableAccount(id, payment)`: an order already DELIVERED or
        CANCELLED comes back unchanged; otherwise it is closed as paid and
        its table is then marked NEEDS_CLEANING, with the guard looking at
        the order list in which the order is closed. */
    method CloseTableAccount(id: string, payment: PaymentDetails, now: int, orderOk: bool, tableOk: bool)
      returns (r: Option<Order>)
      requires Valid()
      modifies this
      ensures Valid()
      ensures var i := FirstIndex(old(orders), OrderId, id);
              (i < 0 ==> r.None? && orders == old(orders) && tables == old(tables)) &&
              (i >= 0 && Terminal(old(orders)[i].status) ==>
                 r == Some(old(orders)[i]) && orders == old(orders) && tables == old(tables)) &&
              (i >= 0 && !Terminal(old(orders)[i].status) && !orderOk ==>
                 r.None? && orders == old(orders) && tables == old(tables)) &&
              (i >= 0 && !Terminal(old(orders)[i].status) && orderOk ==>
                 r == Some(TableClosed(old(orders)[i], payment, old(sessions.active), now)) &&
                 orders == old(orders)[i := r.value] &&
                 tables == if Present(old(orders)[i].tableId)
                           then TablesAfterClose(old(tables), old(orders), i, payment, old(sessions.active), now, tableOk)
                           else old(tables))
      ensures sessions == old(sessions) && adjustments == old(adjustments)
      ensures settings == old(settings) && adjustmentsTableMissing == old(adjustmentsTableMissing)
    {
      var i := FirstIndex(orders, OrderId, id);
      if i < 0 {
        return None;
      }
      var o := orders[i];
      if Terminal(o.status) {
        return Some(o);
      }
      if !orderOk {
        return None;
      }
      var closed := TableClosed(o, payment, sessions.active, now);
      Refresh(i, closed);
      if Present(o.tableId) {
        var tableId := o.tableId.value;
        UpdateTable(tableId, ClosePatch(tables, id, tableId), tableOk);
      }
      r := Some(closed);
    }

    /** `openCashRegister(balance)`: refused while a session is open; the new
        session becomes the active one. */
    method OpenCashRegister(openingBalance: real, newId: string, now: int, writeOk: bool)
      returns (r: Option<CashSession>)
      requires Valid()
      modifies this
      ensures Valid()
      ensures r.Some? <==> old(sessions.active).None? && writeOk
      ensures r.Some? ==>
                r.value == CashSession(newId, openingBalance, Open, now, None, None, None, None, None) &&
                sessions == AddSession(old(sessions), r.value) && sessions.active == r
      ensures r.None? ==> sessions == old(sessions)
      ensures orders == old(orders) && tables == old(tables) && adjustments == old(adjustments)
      ensures settings == old(settings) && adjustmentsTableMissing == old(adjustmentsTableMissing)
    {
      if sessions.active.Some? || !writeOk {
        return None;
      }
      var s := CashSession(newId, openingBalance, Open, now, None, None, None, None, None);
      AddOpenSessionConsistent(sessions, s);
      sessions := AddSession(sessions, s);
      r := Some(s);
    }

    /** `closeCashRegister(id, informed)`: refused unless the session is known
        and OPEN; it is stored CLOSED with its reconciliation figures and
        there is no active session afterwards. */
    method CloseCashRegister(id: string, informed: real, now: int, writeOk: bool)
      returns (r: Option<CashSession>)
      requires Valid()
      modifies this
      ensures Valid()
      ensures var j := FirstIndex(old(sessions.list), SessionId, id);
              if j >= 0 && old(sessions.list)[j].status == Open && writeOk
              then var s := old(sessions.list)[j];
                   var rc := Cash.Reconcile(s, old(orders), old(adjustments), informed);
                   r == Some(s.(status := Closed, closedAt := Some(now), closingBalanceInformed := Some(informed),
                                calculatedSales := Some(rc.sales), expectedInCash := Some(rc.expected),
                                difference := Some(rc.difference))) &&
                   sessions == UpdateSession(old(sessions), r.value) && sessions.active.None?
              else r.None? && sessions == old(sessions)
      ensures orders == old(orders) && tables == old(tables) && adjustments == old(adjustments)
      ensures settings == old(settings) && adjustmentsTableMissing == old(adjustmentsTableMissing)
    {
      var j := FirstIndex(sessions.list, SessionId, id);
      if j < 0 || sessions.list[j].status != Open {
        return None;
      }
      var s := sessions.list[j];
      var rc := Cash.Reconcile(s, orders, adjustments, informed);
      if !writeOk {
        return None;
      }
      var closed := s.(status := Closed, closedAt := Some(now), closingBalanceInformed := Some(informed),
                       calculatedSales := Some(rc.sales), expectedInCash := Some(rc.expected),
                       difference := Some(rc.difference));
      assert sessions.active == Some(s);
      UpdateClosedSessionConsistent(sessions, closed);
      sessions := UpdateSession(sessions, closed);
      r := Some(closed);
    }

    /** `addCashAdjustment(session, kind, amount)`: refused when the
        adjustment table is missing or the amount is not positive. */
    method AddCashAdjustment(sessionId: string, kind: AdjustmentType, amount: real,
                             newId: string, now: int, writeOk: bool)
      returns (r: Option<CashAdjustment>)
      requires Valid()
      modifies this
      ensures Valid()
      ensures r.Some? <==> !adjustmentsTableMissing && amount > 0.0 && writeOk
      ensures r.Some? ==> r.value == CashAdjustment(newId, sessionId, kind, amount, now) &&
                          adjustments == AddAdjustment(old(adjustments), r.value)
      ensures r.None? ==> adjustments == old(adjustments)
      ensures orders == old(orders) && tables == old(tables) && sessions == old(sessions)
      ensures settings == old(settings) && adjustmentsTableMissing == old(adjustmentsTableMissing)
    {
      if adjustmentsTableMissing || amount <= 0.0 || !writeOk {
        return None;
      }
      var a := CashAdjustment(newId, sessionId, kind, amount, now);
      adjustments := AddAdjustment(adjustments, a);
      r := Some(a);
    }
  }
}
