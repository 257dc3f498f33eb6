# Order book and cash ledger of a pizzeria point of sale

This project is a Dafny model of the order and cash logic of a pizzeria
point-of-sale application. That logic lives in the application context
(`contexts/AppContext.tsx`). The model covers:

- the duration resolver, which says how long an order stays in a status
  before it advances automatically (`Durations`);
- the order status machine, one order at a time (`Lifecycle`);
- the automatic-progress scheduler. It compares clamped percentage progress
  against each order's due time and moves due orders to their successor
  status (`Lifecycle.Tick`, `OrderBook.Book.CheckOrderTransitions`);
- the table guard that keeps a table from being marked for cleaning while
  its order is still in progress (`Tables`);
- cash-register sessions, adjustments and the closing reconciliation
  (`Cash`, `OrderBook`);
- the pure cases of the application reducer for orders, cash sessions,
  cash adjustments and the shopping cart (`Reducer`). Lists are kept newest
  first by a stable sort (`Lists`, stability proved by `Lists.SortStable`).

The in-memory state is the class `OrderBook.Book`. Its methods are the
context's asynchronous operations: they build the update, write it to the
store and refresh the in-memory lists. Each method's postcondition gives the
new state as one of the pure functions of `Lifecycle`, `Tables`, `Cash` or
`Reducer`, applied to the old state. The properties of the application are
proved about those functions.

Conventions of the model:

- Time is an integer number of milliseconds (`now`).
- Money is a `real`, so sums are exact.
- Stored progress is an integer percentage. The scheduler's fractional
  progress is a `real`, and `Math.round` rounds halves up.
- Each store write is a boolean parameter. `true` means the write succeeds
  and the refetched row equals what was written. `false` means the write
  fails, an alert would be shown, and the in-memory state stays as it was.
  Ids and timestamps that the store assigns are parameters too.
- The status progression sequence and the built-in default order flow are
  defined outside the modelled file, so they are constants given to the
  book (`progression`, `defaults`).
- `Lifecycle.StandardProgression` is the usual sequence: PENDING, PREPARING,
  READY_FOR_PICKUP, OUT_FOR_DELIVERY, DELIVERED.

The class invariant `Book.Valid` says:

- orders have distinct ids and are kept newest first;
- every order keeps `OrderInvariant`: progress in [0, 100], automatic
  progression only with a due time, and a total equal to the value of the
  lines;
- the active cash session is the one OPEN session;
- adjustments are kept newest first.

Every method preserves `Book.Valid`.

Two details of the source that the model follows:

- Where the source forces automatic progression off, it keeps the due time
  in two places: the no-successor branch of the scheduler and
  `closeTableAccount`. So `OrderInvariant` only states "automatic ⇒ timer".
  It does not state the converse.
- Only a *manual* move to DELIVERED or CANCELLED is forced to progress 100
  with no timer. An automatic move to DELIVERED (a counter order skipping
  OUT_FOR_DELIVERY) follows the duration rules like any other automatic
  transition (contexts/AppContext.tsx:413-433): only a manual terminal move
  stops the timer.

## Model

| member | source | states |
|---|---|---|
| Domain.ToOrderItems | contexts/AppContext.tsx:549 | each cart line becomes an order line with the same product, options, price and quantity, in order |
| Domain.ItemsTotalOfCart | contexts/AppContext.tsx:550 | the value of the order lines built from a cart equals the cart total Σ price × quantity |
| Domain.ItemsTotalAppend | contexts/AppContext.tsx:613-614 | the value of appended lines is the sum of the values of the two parts |
| Durations.Duration | contexts/AppContext.tsx:235-248 | the duration is the configured value when defined; otherwise the built-in value for the type; otherwise the built-in counter (BALCAO) value for the status; otherwise 0 |
| Durations.ConfigureOverrides | contexts/AppContext.tsx:239-241 | configuring a value for one (type, status) pair makes it that pair's duration and changes no other pair's duration |
| Lists.FirstIndex | contexts/AppContext.tsx:73 | `findIndex`: the first position holding the key, or -1 exactly when no position holds it |
| Lists.FirstIndexDistinct | contexts/AppContext.tsx:73 | with distinct keys, looking up an element's key finds that element |
| Lists.SortDesc | contexts/AppContext.tsx:71 | the newest-first sort returns a newest-first permutation of its input |
| Lists.InsertKeepsSorted | contexts/AppContext.tsx:71 | inserting an element at its place keeps a newest-first list newest first |
| Lists.SortSortedIsIdentity | contexts/AppContext.tsx:77 | sorting a list that is already newest first changes nothing |
| Lists.SortDistinct | contexts/AppContext.tsx:71 | sorting keeps ids distinct |
| Lists.SortStable | contexts/AppContext.tsx:71 | the sort is stable: for every key, the elements with that key come out in their input order |
| Lists.InsertBeforeEqual | contexts/AppContext.tsx:71 | an inserted element goes in front of the elements with its own key and leaves their order alone |
| Lists.Without | contexts/AppContext.tsx:70 | the id filter keeps exactly the elements with another id and keeps ids distinct; a one-element list is kept or dropped whole |
| Lists.WithoutAppend | contexts/AppContext.tsx:70 | the filter distributes over concatenation, so the survivors keep their order and number |
| Reducer.AddOrder | contexts/AppContext.tsx:69-71 | ADD_ORDER_SUCCESS: the list holds the new order and the other orders with different ids, newest first, with ids still distinct |
| Reducer.ReplaceOrder | contexts/AppContext.tsx:72-92 | UPDATE_ORDER_STATUS_SUCCESS / REALTIME_ORDER_UPDATE: the result is newest first and a permutation of the list with the first same-id order replaced, or with the payload prepended when the id is new |
| Reducer.ReplaceInPlace | contexts/AppContext.tsx:74-78 | replacing an order by an update that keeps its id and order time changes only that position |
| Reducer.ReplaceKeepsUnique | contexts/AppContext.tsx:72-92 | replacing keeps order ids distinct |
| Reducer.Upserted | contexts/AppContext.tsx:133-138 | the session upsert holds the payload and the other sessions with different ids, sorted by opening time, with ids distinct |
| Reducer.AddSession | contexts/AppContext.tsx:133-135 | ADD_CASH_SESSION_SUCCESS: the list holds the payload and the sessions with another id, sorted by opening time; an OPEN payload becomes the active session, any other leaves it |
| Reducer.UpdateSession | contexts/AppContext.tsx:136-138 | UPDATE_CASH_SESSION_SUCCESS: the same list; an OPEN payload becomes active; otherwise a session stays active exactly when one was active with another id, and it is then unchanged |
| Reducer.AddOpenSessionConsistent | contexts/AppContext.tsx:133-135 | adding an OPEN session while none is active makes it the active one and keeps the session state consistent |
| Reducer.UpdateClosedSessionConsistent | contexts/AppContext.tsx:136-138 | storing a CLOSED session keeps the state consistent, and there is no active session when it was the active one |
| Reducer.AtMostOneOpen | contexts/AppContext.tsx:133-138 | in a consistent state, at most one session is OPEN |
| Reducer.AddAdjustment | contexts/AppContext.tsx:140-141 | ADD_CASH_ADJUSTMENT_SUCCESS adds exactly the new adjustment and keeps the list newest first |
| Reducer.FindLine | contexts/AppContext.tsx:107-115 | the first cart line with the same menu item, size, crust and half-and-half flag (an absent flag matches only an absent flag) and, for a half-and-half line, flavours, or -1 exactly when there is none |
| Reducer.AbsentFlagIsNotFalse | contexts/AppContext.tsx:107-121 | a payload with an explicit `false` flag is appended rather than merged into lines built without the flag (663) |
| Reducer.AddToCart | contexts/AppContext.tsx:105-122 | ADD_TO_CART adds the quantity to the first matching line and leaves every other line alone; with no match it appends the payload |
| Reducer.AddToCartQuantity | contexts/AppContext.tsx:116-122 | adding to the cart raises its number of units by exactly the quantity added |
| Reducer.TotalQuantityUpdate | contexts/AppContext.tsx:118-119 | changing one line's quantity changes the cart's number of units by the difference |
| Reducer.RemoveFromCart | contexts/AppContext.tsx:123 | REMOVE_FROM_CART removes exactly the lines with that id and never lengthens the cart; a one-line cart is kept or emptied |
| Reducer.RemoveFromCartAppend | contexts/AppContext.tsx:123 | removal distributes over any split of the cart, so the remaining lines keep their order and number |
| Reducer.UpdateCartQuantity | contexts/AppContext.tsx:124-125 | UPDATE_CART_QUANTITY: every remaining line has a positive quantity; lines with that id take the quantity, and are dropped when it is not positive; other lines with a positive quantity are kept; a one-line cart gives the updated line when its quantity is positive and nothing otherwise |
| Reducer.UpdateCartQuantityAppend | contexts/AppContext.tsx:124-125 | the update distributes over any split of the cart, so surviving lines keep their order |
| Lifecycle.StatusUpdated | contexts/AppContext.tsx:410-433 | the status and last-change time are set. A manual DELIVERED or CANCELLED, or a dine-in order reaching READY_FOR_PICKUP, stops the timer at 100%. Otherwise automatic progression is on exactly when d > 0, with the due time now + d and progress 0, or 100 when d = 0. Automatic progression holds exactly when a timer is set, nothing else changes, and the order invariant is kept |
| Lifecycle.Successor | contexts/AppContext.tsx:454-461 | the sequence successor, except that an order that is not a delivery goes to DELIVERED where the sequence says OUT_FOR_DELIVERY; None exactly when the sequence has no successor |
| Lifecycle.StandardSuccessors | contexts/AppContext.tsx:454-461 | under the standard sequence, delivery orders go out for delivery while counter and dine-in orders are delivered straight from READY_FOR_PICKUP |
| Lifecycle.ProgressPercent | contexts/AppContext.tsx:449-451 | progress is clamped to [0, 100]; it is 100 once the order is due, 0 before its timer started, and 100 × elapsed / total in between |
| Lifecycle.ProgressMonotone | contexts/AppContext.tsx:449-451 | progress never decreases as time passes |
| Lifecycle.Round | contexts/AppContext.tsx:470 | `Math.round` is within half a unit of its input and maps [0, 100] into [0, 100] |
| Lifecycle.ProgressTick | contexts/AppContext.tsx:467-475 | the order takes the rounded progress when the write succeeds or when the change is below the writing threshold; a failed write of a change worth writing keeps the order as it was |
| Lifecycle.Tick | contexts/AppContext.tsx:447-475 | ineligible orders are untouched; before the due time only progress moves; the status only changes to the successor, when due and written; with no successor automatic progression stops at 100% and status and timer stay; a failed write of a due order changes nothing; before the due time a successful write leaves the rounded share of the status duration; only status and timer fields change; the order invariant is kept |
| Lifecycle.NoShippingStepUnlessDelivery | contexts/AppContext.tsx:458-459 | the scheduler never sends an order that is not a delivery to OUT_FOR_DELIVERY |
| Lifecycle.DineInReadyIsHeld | contexts/AppContext.tsx:415-432 | a dine-in order held at READY_FOR_PICKUP, by either path, is never moved on by the scheduler |
| Lifecycle.Toggled | contexts/AppContext.tsx:483-505 | refused exactly for a dine-in order at READY_FOR_PICKUP with progression off. Switching off clears the timer and nothing else. Switching on with d > 0 sets the timer to now + d with progress 0. Switching on with d ≤ 0 leaves it off at 100%. The invariant is kept |
| Lifecycle.ItemsAdded | contexts/AppContext.tsx:601-640 | refused exactly for no items or a DELIVERED/CANCELLED order. The lines are appended and the total grows by their value. PENDING/PREPARING restart their timer. READY_FOR_PICKUP returns to PREPARING with the PREPARING duration. OUT_FOR_DELIVERY keeps its status and timer |
| Lifecycle.ItemsAddedKeepsInvariant | contexts/AppContext.tsx:613-616 | after items are added the total still equals the value of the lines |
| Lifecycle.ChangeDue | contexts/AppContext.tsx:780 | change is never negative; it is paid − total for a non-zero cash payment that covers the total, and 0 otherwise |
| Lifecycle.TableClosed | contexts/AppContext.tsx:776-780 | an order already DELIVERED/CANCELLED comes back unchanged. Otherwise it becomes DELIVERED with progression off at 100%, with the payment recorded, and a session only for cash/PIX while a session is open. Items, total, table and due time are untouched |
| Lifecycle.NewManualOrder | contexts/AppContext.tsx:550-578 | a new order is PENDING with the cart's lines and total and a timer when the PENDING duration is positive. A dine-in order carries its table and no payment. Any other order carries its payment, and the open session for cash/PIX; only a cash order records the amount paid, and change (paid − total, never negative) exactly when a non-zero amount covers the total, else none. The last-change time is the creation time. The invariant holds |
| Lifecycle.TenMinutePending | contexts/AppContext.tsx:447-461 | with a ten-minute PENDING duration, a new order is at 50% after five minutes and at its successor after ten |
| Cash.Reconcile | contexts/AppContext.tsx:740-746 | sales are the session's DELIVERED cash/PIX totals; expected = opening + sales + ADD − REMOVE; difference = informed − expected, which is 0 exactly when informed equals expected |
| Cash.CountsAsSale | contexts/AppContext.tsx:740-741 | only a DELIVERED order of this session paid with a recorded cash or PIX payment counts as a sale |
| Cash.SalesBounds | contexts/AppContext.tsx:740-741 | the session's sales are 0 when no order counts, and never negative when no total is |
| Cash.AdjustmentsBounds | contexts/AppContext.tsx:742-744 | a session's sum of one kind of adjustment is 0 when it has none of that kind, and never negative when every amount is positive (as `addCashAdjustment` requires) |
| Cash.AdjustmentsSorted | contexts/AppContext.tsx:140-141 | keeping adjustments sorted does not change any adjustment sum |
| Cash.AdjustmentMovesExpected | contexts/AppContext.tsx:743-745 | recording an adjustment moves its session's expected cash up by an ADD, down by a REMOVE, and leaves other sessions alone |
| Cash.SalesUpdate | contexts/AppContext.tsx:740-741 | changing one order changes a session's sales by the difference of its contributions |
| Cash.ClosedTableCountsAsSale | contexts/AppContext.tsx:779-780 | closing a table account paid in cash or PIX adds the order's total to the open session's sales |
| Cash.SalesIgnoreTimers | contexts/AppContext.tsx:740-741 | changes that leave status, session, payment and total alone do not change any session's sales |
| Cash.ExampleClose | contexts/AppContext.tsx:740-746 | opening 100.00 plus a 45.50 cash sale plus a 20.00 ADD expects 165.50, and counting 165.50 closes with no difference |
| Tables.Patch | contexts/AppContext.tsx:380-382 | a table update sets the given fields and keeps the others |
| Tables.PatchTables | contexts/AppContext.tsx:95 | UPDATE_TABLE_SUCCESS updates every table with the id and no other |
| Tables.CleaningBlocked | contexts/AppContext.tsx:369-377 | the guard refuses only a NEEDS_CLEANING update, and only when the table with that id points at an order in the list that is not DELIVERED or CANCELLED |
| Tables.UpdatedTables | contexts/AppContext.tsx:367-387 | a refused or failed update changes nothing; any update other than NEEDS_CLEANING is never refused; only tables with that id change, they take the patch, and no id changes |
| Tables.CleaningNeedsFinishedOrder | contexts/AppContext.tsx:369-377 | no update marks a table NEEDS_CLEANING while its current order is not DELIVERED or CANCELLED; such a table keeps every field |
| Tables.UpdateLands | contexts/AppContext.tsx:378-382 | any update the guard lets through lands on the table when the write succeeds |
| Tables.ClosePatch | contexts/AppContext.tsx:791-793 | closing a table account marks the table NEEDS_CLEANING, and clears its current order only when it pointed at this order |
| Tables.TablesAfterCloseAsWritten | contexts/AppContext.tsx:790-795 | the table step of `closeTableAccount` as written: nothing changes on a failed write, and only the order's table can change, to NEEDS_CLEANING |
| Tables.TablesAfterClose | contexts/AppContext.tsx:790-795 | the corrected table step: nothing changes on a failed write, and only the order's table can change, to NEEDS_CLEANING |
| Tables.StaleGuardKeepsTable | contexts/AppContext.tsx:790-794 | as written, closing the account of the order a table points at leaves the table as it was |
| Tables.ClosedTableNeedsCleaning | contexts/AppContext.tsx:790-794 | when the guard sees the closed order, that table becomes NEEDS_CLEANING with no current order |
| OrderBook.Book.constructor | contexts/AppContext.tsx:225-226 | an empty book satisfies the invariant |
| OrderBook.StatusUpdates | contexts/AppContext.tsx:410-433 | the `updates` object of `updateOrderStatus`, built field by field, is exactly `StatusUpdated` |
| OrderBook.ToggleUpdates | contexts/AppContext.tsx:489-505 | the `updates` object of `toggleOrderAutoProgress`, built field by field, is exactly `Toggled` |
| OrderBook.ItemsUpdates | contexts/AppContext.tsx:613-638 | the order update of `addItemsToOrder`, built field by field, is exactly `ItemsAdded` |
| OrderBook.Book.Refresh | contexts/AppContext.tsx:72-92 | UPDATE_ORDER_STATUS_SUCCESS with an order of the same id and order time replaces it in place; nothing else changes and `Valid` is kept |
| OrderBook.Book.UpdateOrderStatus | contexts/AppContext.tsx:403-441 | unknown ids, a manual DELIVERED of a dine-in order and failed writes change nothing; otherwise the order becomes `StatusUpdated` in place |
| OrderBook.Book.CheckOrderTransitions | contexts/AppContext.tsx:443-478 | without settings nothing changes; otherwise every order becomes `Tick` of the order as it was when the pass started |
| OrderBook.Book.CheckOrder | contexts/AppContext.tsx:447-475 | the scheduler's work on one order replaces it by its `Tick` |
| OrderBook.Book.AdvanceDue | contexts/AppContext.tsx:453-465 | a due order is replaced by its `Tick`: a non-manual change to its successor status, or, with no successor, automatic progression stopped at 100% |
| OrderBook.Book.TrackProgress | contexts/AppContext.tsx:466-475 | an order not yet due is replaced by its `Tick`: only its progress moves, to the rounded elapsed share |
| OrderBook.Book.ToggleOrderAutoProgress | contexts/AppContext.tsx:480-512 | unknown ids, missing settings, refused toggles and failed writes change nothing; otherwise the order becomes `Toggled` in place |
| OrderBook.Book.AddItemsToOrder | contexts/AppContext.tsx:600-654 | refused cases and failed writes change nothing and return None; otherwise the order becomes `ItemsAdded` in place and is returned |
| OrderBook.Book.UpdateTable | contexts/AppContext.tsx:367-387 | the table list becomes `UpdatedTables` with the guard looking at the current orders |
| OrderBook.Book.CreateManualOrder | contexts/AppContext.tsx:535-598 | refused without settings or when an insert fails. Otherwise `NewManualOrder` is added by ADD_ORDER_SUCCESS, and a dine-in order occupies its table when that table is AVAILABLE |
| OrderBook.Book.CloseTableAccount | contexts/AppContext.tsx:773-799 | an unknown order gives None; a terminal one is returned unchanged; otherwise the order becomes `TableClosed` in place and its table is updated with the guard looking at the closed order |
| OrderBook.Book.OpenCashRegister | contexts/AppContext.tsx:724-734 | refused while a session is open; otherwise the new OPEN session becomes the active one |
| OrderBook.Book.CloseCashRegister | contexts/AppContext.tsx:736-756 | refused for a missing or non-OPEN session; otherwise the session is stored CLOSED with the `Reconcile` figures and no session is active afterwards |
| OrderBook.Book.AddCashAdjustment | contexts/AppContext.tsx:758-770 | refused when the adjustment table is missing or the amount is not positive; otherwise the adjustment is added newest first |

## Left out

- Store I/O (the `supabase` calls), the realtime subscriptions and the initial loaders. Each write is a success flag. A refetch after a successful write is taken to return exactly what was written.
- A failed write of the order after its new lines were inserted (`addItemsToOrder`). The store then keeps the new lines while the model keeps the old order, because the store is not modelled.
- `addItemsToOrder` reads the order from the store. The model reads the in-memory order, and an id missing from memory is refused.
- `updateTable` for a table that is not in memory. The store row would change; the in-memory list does not, which is what UPDATE_TABLE_SUCCESS does too.
- The `setInterval` that runs the scheduler, and the interleaving of scheduled and manual updates. This is concurrency, not sequential logic.
- Floating point. Money and progress are exact reals, so rounding errors of JavaScript numbers are not modelled.
- ISO date strings. Times are integer milliseconds.
- Alerts, console logging, print windows, session storage and audio. They change no modelled state.
- The settings fetch and merge. Settings are a field of the book, and loading them is not modelled.
- Authentication, profiles, and the category, menu and table CRUD.
- Customer name, phone, address and notes. They are text the logic never reads back.
- Sorting tables by name with `localeCompare`. UPDATE_TABLE_SUCCESS keeps the list order in the model.
- ADD_TO_CART changes the matched cart line in place. The old state shares that line, and this aliasing is not modelled: the model returns a new cart.
- The branch of `toggleOrderAutoProgress` that writes when `auto_progress !== false` inside a block that requires it to be falsy. It is unreachable with boolean flags.
- An order with no order type (`order_type` undefined in `getOrderStatusDuration`). Every modelled order has a type.
- `placeOrder` and the order loaders. They are outside the modelled operations.
- Durations: negative configured durations are kept as integers. In a status change (`Lifecycle.StatusUpdated`) they give no timer and progress 0, because the source tests `duration === 0` for progress 100. Switching automatic progression on (`Lifecycle.Toggled`) treats every duration ≤ 0 alike: no timer and progress 100.
- CheckOrderTransitions: one pass uses a single time `now` for every order. The source reads the clock again for each order (contexts/AppContext.tsx:448), after the writes for the earlier orders have been awaited, and once more inside `updateOrderStatus` (419, 425). The model does not capture that the time moves forward during a pass.

## Findings

| source | as written | input that shows it | evidently intended | confidence | as-written member | corrected member |
|---|---|---|---|---|---|---|
| contexts/AppContext.tsx:790-794 | `closeTableAccount` calls the `updateTable` captured in the same render. Its NEEDS_CLEANING guard (369-377) still sees the order as it was before it was closed | a dine-in order in PREPARING whose table points at it (as `createManualOrder` leaves it) is closed and paid: the guard finds the order not DELIVERED and refuses, so the table stays OCCUPIED with the closed order as its current order | the table becomes NEEDS_CLEANING and is released from the order | medium, not executed | Tables.StaleGuardKeepsTable | Tables.ClosedTableNeedsCleaning |

The book (`OrderBook.Book.CloseTableAccount`) uses the corrected behaviour:
it applies the order update first, then checks the guard against the
updated orders.
