/** Dine-in tables: `updateTable` with its NEEDS_CLEANING guard
    (contexts/AppContext.tsx:367-387) and the table step of
    `closeTableAccount` (contexts/AppContext.tsx:789-794). */
module Tables {
  import opened Domain
  import opened Lifecycle
  import opened Lists
  import Reducer

  /** A JavaScript truthy string reference: present and non-empty. */
  predicate Present(x: Option<string>) { x.Some? && x.value != "" }

  /** The fields an update may set; None leaves the field alone, and
      `Some(None)` clears the current order. */
  datatype TablePatch = TablePatch(status: Option<TableStatus>, currentOrderId: Option<Option<string>>)

  function Patch(t: Table, p: TablePatch): (r: Table)
    ensures r.id == t.id
    ensures r.status == (if p.status.Some? then p.status.value else t.status)
    ensures r.currentOrderId == (if p.currentOrderId.Some? then p.currentOrderId.value else t.currentOrderId)
  {
    Table(t.id,
          if p.status.Some? then p.status.value else t.status,
          if p.currentOrderId.Some? then p.currentOrderId.value else t.currentOrderId)
  }

  /** The guard of `updateTable`: a table may not be marked NEEDS_CLEANING
      while `orders` (the list the guard looks at) holds its current order in
      a status other than DELIVERED or CANCELLED. */
  predicate CleaningBlocked(tables: seq<Table>, orders: seq<Order>, id: string, p: TablePatch): (b: bool)
    // Only a NEEDS_CLEANING update of a known table with an order still in progress is refused.
    ensures b ==> p.status == Some(NeedsCleaning)
    ensures b ==> exists t, i :: 0 <= t < |tables| && 0 <= i < |orders| && tables[t].id == id &&
                    tables[t].currentOrderId == Some(orders[i].id) && !Terminal(orders[i].status)
  {
    p.status == Some(NeedsCleaning) &&
    var t := FirstIndex(tables, TableId, id);
    t >= 0 && Present(tables[t].currentOrderId) &&
    var i := FirstIndex(orders, OrderId, tables[t].currentOrderId.value);
    i >= 0 && !Terminal(orders[i].status)
  }

  /** UPDATE_TABLE_SUCCESS: every table with the id takes the update. */
  function PatchTables(tables: seq<Table>, id: string, p: TablePatch): (r: seq<Table>)
    ensures |r| == |tables|
    ensures forall j :: 0 <= j < |r| ==> r[j] == if tables[j].id == id then Patch(tables[j], p) else tables[j]
  {
    if tables == [] then []
    else [if tables[0].id == id then Patch(tables[0], p) else tables[0]] + PatchTables(tables[1..], id, p)
  }

  /** The table list after `updateTable(id, p)` while the guard sees
      `orders`; `ok` says whether the store accepts the write. */
  function UpdatedTables(tables: seq<Table>, orders: seq<Order>, id: string, p: TablePatch, ok: bool): (r: seq<Table>)
    ensures |r| == |tables|
    // A refused or failed update changes nothing.
    ensures CleaningBlocked(tables, orders, id, p) || !ok ==> r == tables
    // Any update other than NEEDS_CLEANING is never refused.
    ensures p.status != Some(NeedsCleaning) && ok ==> r == PatchTables(tables, id, p)
    // Only tables with that id change, and they take the patch; ids never change.
    ensures forall j :: 0 <= j < |r| ==> r[j].id == tables[j].id
    ensures forall j :: 0 <= j < |r| && r[j] != tables[j] ==> tables[j].id == id && r[j] == Patch(tables[j], p)
  {
    if CleaningBlocked(tables, orders, id, p) || !ok then tables else PatchTables(tables, id, p)
  }

  /** No update marks a table NEEDS_CLEANING while the guard sees its current
      order in progress, and a table so blocked keeps every field. */
  lemma CleaningNeedsFinishedOrder(tables: seq<Table>, orders: seq<Order>, id: string, p: TablePatch, ok: bool, j: int)
    requires 0 <= j < |tables| && FirstIndex(tables, TableId, id) == j
    requires p.status == Some(NeedsCleaning) && Present(tables[j].currentOrderId)
    requires FirstIndex(orders, OrderId, tables[j].currentOrderId.value) >= 0
    requires !Terminal(orders[FirstIndex(orders, OrderId, tables[j].currentOrderId.value)].status)
    ensures UpdatedTables(tables, orders, id, p, ok) == tables
  {
  }

  /** Any other accepted update lands on the table. */
  lemma UpdateLands(tables: seq<Table>, orders: seq<Order>, id: string, p: TablePatch, j: int)
    requires 0 <= j < |tables| && tables[j].id == id
    requires !CleaningBlocked(tables, orders, id, p)
    ensures UpdatedTables(tables, orders, id, p, true)[j] == Patch(tables[j], p)
  {
  }

  /** The update `closeTableAccount` sends for the table of a closed order:
      NEEDS_CLEANING, and the current order cleared when it is this order. */
  function ClosePatch(tables: seq<Table>, orderId: string, tableId: string): (p: TablePatch)
    ensures p.status == Some(NeedsCleaning)
    ensures p.currentOrderId.Some? <==>
              FirstIndex(tables, TableId, tableId) >= 0 && tables[FirstIndex(tables, TableId, tableId)].currentOrderId == Some(orderId)
    ensures p.currentOrderId.Some? ==> p.currentOrderId.value.None?
  {
    var t := FirstIndex(tables, TableId, tableId);
    TablePatch(Some(NeedsCleaning),
               if t >= 0 && tables[t].currentOrderId == Some(orderId) then Some(None) else None)
  }

  /** The table list after `closeTableAccount` as written: the guard looks at
      the order list from before the order was closed. */
  function TablesAfterCloseAsWritten(tables: seq<Table>, orders: seq<Order>, i: int, ok: bool): (r: seq<Table>)
    requires 0 <= i < |orders| && orders[i].tableId.Some?
    ensures |r| == |tables| && (!ok ==> r == tables)
    // Only the order's table can change: marked NEEDS_CLEANING.
    ensures forall j :: 0 <= j < |r| && r[j] != tables[j] ==>
              tables[j].id == orders[i].tableId.value && r[j].status == NeedsCleaning
  {
    var tid := orders[i].tableId.value;
    UpdatedTables(tables, orders, tid, ClosePatch(tables, orders[i].id, tid), ok)
  }

  /** The table list after `closeTableAccount` when the guard looks at the
      order list in which the order has been closed. */
  function TablesAfterClose(tables: seq<Table>, orders: seq<Order>, i: int, p: PaymentDetails,
                            active: Option<CashSession>, now: int, ok: bool): (r: seq<Table>)
    requires 0 <= i < |orders| && orders[i].tableId.Some?
    ensures |r| == |tables| && (!ok ==> r == tables)
    // Only the order's table can change: marked NEEDS_CLEANING.
    ensures forall j :: 0 <= j < |r| && r[j] != tables[j] ==>
              tables[j].id == orders[i].tableId.value && r[j].status == NeedsCleaning
  {
    var tid := orders[i].tableId.value;
    UpdatedTables(tables, orders[i := TableClosed(orders[i], p, active, now)], tid,
                  ClosePatch(tables, orders[i].id, tid), ok)
  }

  /** As written, closing the account of the very order a table points at
      leaves that table as it was: the stale guard still sees the order in
      progress. */
  lemma StaleGuardKeepsTable(tables: seq<Table>, orders: seq<Order>, i: int, ok: bool)
    requires Reducer.UniqueIds(orders) && 0 <= i < |orders| && !Terminal(orders[i].status)
    requires Present(orders[i].tableId) && orders[i].id != ""
    requires var t := FirstIndex(tables, TableId, orders[i].tableId.value);
             t >= 0 && tables[t].currentOrderId == Some(orders[i].id)
    ensures TablesAfterCloseAsWritten(tables, orders, i, ok) == tables
  {
    FirstIndexDistinct(orders, OrderId, i);
  }

  /** With the guard looking at the closed order, the same table is marked
      NEEDS_CLEANING and released from the order. */
  lemma ClosedTableNeedsCleaning(tables: seq<Table>, orders: seq<Order>, i: int, p: PaymentDetails,
                                 active: Option<CashSession>, now: int)
    requires Reducer.UniqueIds(orders) && 0 <= i < |orders| && !Terminal(orders[i].status)
    requires Present(orders[i].tableId)
    requires var t := FirstIndex(tables, TableId, orders[i].tableId.value);
             t >= 0 && tables[t].currentOrderId == Some(orders[i].id)
    ensures var t := FirstIndex(tables, TableId, orders[i].tableId.value);
            var r := TablesAfterClose(tables, orders, i, p, active, now, true);
            r[t].status == NeedsCleaning && r[t].currentOrderId.None?
  {
    var closed := orders[i := TableClosed(orders[i], p, active, now)];
    assert Reducer.UniqueIds(closed) by {
      forall a, b | 0 <= a < b < |closed| ensures closed[a].id != closed[b].id {
        assert orders[a].id != orders[b].id;
      }
    }
    FirstIndexDistinct(closed, OrderId, i);
  }
}
