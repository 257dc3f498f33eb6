/** The pure cases of the application reducer that the order book relies on:
    the order list, the cash-session list with the active session, the
    cash-adjustment list, and the shopping cart
    (contexts/AppContext.tsx:57-169). */
module Reducer {
  import opened Domain
  import opened Lists

  /** Sorting `[x] + rest`, where no element of `rest` shares x's id (as
      after a filter by that id), keeps exactly those elements and keeps ids
      distinct. */
  lemma PrependedSorted<T(!new), K>(rest: seq<T>, x: T, key: T -> int, f: T -> K)
    requires forall y :: y in rest ==> f(y) != f(x)
    ensures forall y :: y in SortDesc([x] + rest, key) <==> y == x || y in rest
    ensures DistinctBy(rest, f) ==> DistinctBy(SortDesc([x] + rest, key), f)
  {
    forall y ensures y in SortDesc([x] + rest, key) <==> y == x || y in rest {
      SortMembers([x] + rest, key, y);
    }
    if DistinctBy(rest, f) {
      ConsDistinct(x, rest, f);
      SortDistinct([x] + rest, key, f);
    }
  }

  // ---------------------------------------------------------------- orders

  predicate UniqueIds(os: seq<Order>) { DistinctBy(os, OrderId) }

  predicate NewestFirst(os: seq<Order>) { SortedDesc(os, OrderTime) }

  /** ADD_ORDER_SUCCESS: drop every order with the payload's id, put the
      payload first, sort newest first. */
  function AddOrder(os: seq<Order>, o: Order): (r: seq<Order>)
    ensures NewestFirst(r)
    ensures forall x :: x in r <==> x == o || (x in os && x.id != o.id)
    ensures UniqueIds(os) ==> UniqueIds(r)
  {
    PrependedSorted(Without(os, OrderId, o.id), o, OrderTime, OrderId);
    SortDesc([o] + Without(os, OrderId, o.id), OrderTime)
  }

  /** UPDATE_ORDER_STATUS_SUCCESS and REALTIME_ORDER_UPDATE: replace the
      first order with the payload's id, or put the payload first when the id
      is new; then sort newest first. */
  function ReplaceOrder(os: seq<Order>, o: Order): (r: seq<Order>)
    ensures NewestFirst(r)
    ensures var i := FirstIndex(os, OrderId, o.id);
            multiset(r) == if i >= 0 then multiset(os[i := o]) else multiset([o] + os)
  {
    var i := FirstIndex(os, OrderId, o.id);
    if i >= 0 then SortDesc(os[i := o], OrderTime) else SortDesc([o] + os, OrderTime)
  }

  /** Replacing an order by an update of itself (same id, same order time) in
      a newest-first list leaves every other position as it was. */
  lemma ReplaceInPlace(os: seq<Order>, i: int, o: Order)
    requires NewestFirst(os) && 0 <= i < |os|
    requires FirstIndex(os, OrderId, o.id) == i && o.orderTime == os[i].orderTime
    ensures ReplaceOrder(os, o) == os[i := o]
  {
    var s := os[i := o];
    assert NewestFirst(s) by {
      forall a, b | 0 <= a < b < |s| ensures s[a].orderTime >= s[b].orderTime {
        assert os[a].orderTime >= os[b].orderTime;
      }
    }
    SortSortedIsIdentity(s, OrderTime);
  }

  /** Replacing keeps ids unique. */
  lemma ReplaceKeepsUnique(os: seq<Order>, o: Order)
    requires UniqueIds(os)
    ensures UniqueIds(ReplaceOrder(os, o))
  {
    var i := FirstIndex(os, OrderId, o.id);
    if i >= 0 {
      var s := os[i := o];
      forall a, b | 0 <= a < b < |s| ensures s[a].id != s[b].id {
        assert os[a].id != os[b].id;
      }
      SortDistinct(s, OrderTime, OrderId);
    } else {
      forall y | y in os ensures y.id != o.id {
        var j :| 0 <= j < |os| && os[j] == y;
      }
      ConsDistinct(o, os, OrderId);
      SortDistinct([o] + os, OrderTime, OrderId);
    }
  }

  // ---------------------------------------------------------- cash sessions

  /** The session list and `activeCashSession`. */
  datatype Sessions = Sessions(list: seq<CashSession>, active: Option<CashSession>)

  /** The active session is the one OPEN session of the list, if any. */
  predicate SessionsConsistent(st: Sessions) {
    DistinctBy(st.list, SessionId) &&
    (st.active.Some? ==> st.active.value in st.list && st.active.value.status == Open) &&
    (forall x :: x in st.list && x.status == Open ==> st.active == Some(x))
  }

  function Upserted(list: seq<CashSession>, s: CashSession): (r: seq<CashSession>)
    ensures forall x :: x in r <==> x == s || (x in list && x.id != s.id)
    ensures DistinctBy(list, SessionId) ==> DistinctBy(r, SessionId)
    ensures SortedDesc(r, SessionOpenedAt)
  {
    PrependedSorted(Without(list, SessionId, s.id), s, SessionOpenedAt, SessionId);
    SortDesc([s] + Without(list, SessionId, s.id), SessionOpenedAt)
  }

  /** ADD_CASH_SESSION_SUCCESS: the payload replaces any session with its id;
      an OPEN payload becomes the active session, any other leaves it. */
  function AddSession(st: Sessions, s: CashSession): (r: Sessions)
    ensures forall x :: x in r.list <==> x == s || (x in st.list && x.id != s.id)
    ensures SortedDesc(r.list, SessionOpenedAt)
    ensures r.active == if s.status == Open then Some(s) else st.active
  {
    Sessions(Upserted(st.list, s), if s.status == Open then Some(s) else st.active)
  }

  /** UPDATE_CASH_SESSION_SUCCESS: as ADD_CASH_SESSION_SUCCESS, except that a
      payload that is not OPEN stops being the active session. */
  function UpdateSession(st: Sessions, s: CashSession): (r: Sessions)
    ensures forall x :: x in r.list <==> x == s || (x in st.list && x.id != s.id)
    ensures SortedDesc(r.list, SessionOpenedAt)
    ensures s.status == Open ==> r.active == Some(s)
    ensures s.status != Open ==> (r.active.Some? <==> st.active.Some? && st.active.value.id != s.id)
    ensures r.active.Some? && s.status != Open ==> r.active == st.active
  {
    Sessions(Upserted(st.list, s),
             if s.status == Open then Some(s)
             else if st.active.Some? && st.active.value.id == s.id then None
             else st.active)
  }

  /** Adding a new OPEN session while none is active makes it the active one
      and keeps the list consistent. */
  lemma AddOpenSessionConsistent(st: Sessions, s: CashSession)
    requires SessionsConsistent(st) && st.active.None? && s.status == Open
    ensures SessionsConsistent(AddSession(st, s)) && AddSession(st, s).active == Some(s)
  {
  }

  /** Storing a CLOSED session keeps the list consistent; when it was the
      active one there is no active session afterwards. */
  lemma UpdateClosedSessionConsistent(st: Sessions, s: CashSession)
    requires SessionsConsistent(st) && s.status == Closed
    ensures SessionsConsistent(UpdateSession(st, s))
    ensures st.active.Some? && st.active.value.id == s.id ==> UpdateSession(st, s).active.None?
  {
    var st' := UpdateSession(st, s);
    if st.active.Some? && st.active.value.id != s.id {
      assert st.active.value in st'.list;
    }
  }

  /** In a consistent state at most one session is OPEN. */
  lemma AtMostOneOpen(st: Sessions, x: CashSession, y: CashSession)
    requires SessionsConsistent(st)
    requires x in st.list && y in st.list && x.status == Open && y.status == Open
    ensures x == y
  {
  }

  // -------------------------------------------------------- cash adjustments

  /** ADD_CASH_ADJUSTMENT_SUCCESS: put the adjustment first, sort newest first. */
  function AddAdjustment(adjs: seq<CashAdjustment>, a: CashAdjustment): (r: seq<CashAdjustment>)
    ensures multiset(r) == multiset(adjs) + multiset{a}
    ensures SortedDesc(r, AdjustedAt)
  {
    SortDesc([a] + adjs, AdjustedAt)
  }

  // ------------------------------------------------------------------- cart

  /** Two cart lines are the same product configuration: same menu item,
      size, crust and half-and-half flag (strict equality, so an absent flag
      matches only an absent flag), and, when the existing line is truly
      half-and-half, the same two flavours. */
  predicate SameLine(item: CartItem, p: CartItem) {
    item.menuItemId == p.menuItemId &&
    item.sizeId == p.sizeId &&
    item.crustId == p.crustId &&
    item.isHalfAndHalf == p.isHalfAndHalf &&
    (item.isHalfAndHalf != Some(true) ||
      (item.firstHalfFlavor == p.firstHalfFlavor && item.secondHalfFlavor == p.secondHalfFlavor))
  }

  /** The first cart line that is the same configuration as `p`, or -1. */
  function FindLine(cart: seq<CartItem>, p: CartItem): (i: int)
    ensures -1 <= i < |cart|
    ensures i >= 0 ==> SameLine(cart[i], p) && forall j :: 0 <= j < i ==> !SameLine(cart[j], p)
    ensures i == -1 <==> forall j :: 0 <= j < |cart| ==> !SameLine(cart[j], p)
  {
    if cart == [] then -1
    else if SameLine(cart[0], p) then 0
    else
      var k := FindLine(cart[1..], p);
      if k == -1 then -1 else k + 1
  }

  /** ADD_TO_CART and ADD_RAW_CART_ITEM_SUCCESS: add the quantity to the first
      matching line, or append the payload as a new line. */
  function AddToCart(cart: seq<CartItem>, p: CartItem): (r: seq<CartItem>)
    ensures FindLine(cart, p) >= 0 ==>
              (|r| == |cart| &&
               r[FindLine(cart, p)] == cart[FindLine(cart, p)].(quantity := cart[FindLine(cart, p)].quantity + p.quantity) &&
               forall j :: 0 <= j < |r| && j != FindLine(cart, p) ==> r[j] == cart[j])
    ensures FindLine(cart, p) == -1 ==> r == cart + [p]
  {
    var i := FindLine(cart, p);
    if i >= 0 then cart[i := cart[i].(quantity := cart[i].quantity + p.quantity)]
    else cart + [p]
  }

  /** A line built from a plain menu item has no half-and-half flag, and a
      payload that says `false` explicitly is not merged into it: it is
      appended as a line of its own. */
  lemma AbsentFlagIsNotFalse(cart: seq<CartItem>, p: CartItem)
    requires forall j :: 0 <= j < |cart| ==> cart[j].isHalfAndHalf.None?
    requires p.isHalfAndHalf == Some(false)
    ensures AddToCart(cart, p) == cart + [p]
  {
    assert FindLine(cart, p) == -1;
  }

  function TotalQuantity(cart: seq<CartItem>): int {
    if cart == [] then 0 else TotalQuantity(cart[..|cart| - 1]) + cart[|cart| - 1].quantity
  }

  lemma {:induction false} TotalQuantityUpdate(cart: seq<CartItem>, i: int, c: CartItem)
    requires 0 <= i < |cart|
    ensures TotalQuantity(cart[i := c]) == TotalQuantity(cart) - cart[i].quantity + c.quantity
  {
    var n := |cart| - 1;
    var u := cart[i := c];
    if i < n {
      assert u[..n] == cart[..n][i := c];
      TotalQuantityUpdate(cart[..n], i, c);
    } else {
      assert u[..n] == cart[..n];
    }
  }

  /** Adding a line to the cart raises its number of units by exactly the
      quantity added, whether the line was merged or appended. */
  lemma AddToCartQuantity(cart: seq<CartItem>, p: CartItem)
    ensures TotalQuantity(AddToCart(cart, p)) == TotalQuantity(cart) + p.quantity
  {
    var i := FindLine(cart, p);
    if i >= 0 {
      TotalQuantityUpdate(cart, i, cart[i].(quantity := cart[i].quantity + p.quantity));
    } else {
      assert (cart + [p])[..|cart|] == cart;
    }
  }

  function CartItemId(c: CartItem): string { c.id }

  /** REMOVE_FROM_CART: every line with that id goes, every other line stays. */
  function RemoveFromCart(cart: seq<CartItem>, id: string): (r: seq<CartItem>)
    ensures |r| <= |cart|
    ensures forall x :: x in r <==> x in cart && x.id != id
    ensures |cart| == 1 ==> r == if cart[0].id == id then [] else cart
  {
    Without(cart, CartItemId, id)
  }

  /** The remaining lines keep their order and number: removal distributes
      over any split of the cart. */
  lemma RemoveFromCartAppend(a: seq<CartItem>, b: seq<CartItem>, id: string)
    ensures RemoveFromCart(a + b, id) == RemoveFromCart(a, id) + RemoveFromCart(b, id)
  {
    WithoutAppend(a, b, CartItemId, id);
  }

  /** `Math.max(0, q)`. */
  function NonNegative(q: int): int { if q < 0 then 0 else q }

  /** UPDATE_CART_QUANTITY: set the quantity of the lines with that id to
      `max(0, q)`, then drop every line whose quantity is not positive. */
  function UpdateCartQuantity(cart: seq<CartItem>, id: string, q: int): (r: seq<CartItem>)
    ensures |r| <= |cart|
    ensures forall x :: x in r ==> x.quantity > 0
    ensures forall x :: x in r && x.id == id ==> x.quantity == q
    ensures forall x :: x in r && x.id != id ==> x in cart
    ensures forall x :: x in cart && x.id != id && x.quantity > 0 ==> x in r
    ensures q > 0 ==> forall x :: x in cart && x.id == id ==> x.(quantity := q) in r
    ensures |cart| == 1 ==>
              var x := if cart[0].id == id then cart[0].(quantity := NonNegative(q)) else cart[0];
              r == if x.quantity > 0 then [x] else []
  {
    if cart == [] then []
    else
      var x := if cart[0].id == id then cart[0].(quantity := NonNegative(q)) else cart[0];
      var rest := UpdateCartQuantity(cart[1..], id, q);
      assert forall y :: y in cart <==> y == cart[0] || y in cart[1..];
      if x.quantity > 0 then [x] + rest else rest
  }

  /** Updating a quantity works line by line: the update distributes over
      any split of the cart, so the surviving lines keep their order. With
      the one-line case above this fixes the result. */
  lemma {:induction false} UpdateCartQuantityAppend(a: seq<CartItem>, b: seq<CartItem>, id: string, q: int)
    ensures UpdateCartQuantity(a + b, id, q) == UpdateCartQuantity(a, id, q) + UpdateCartQuantity(b, id, q)
  {
    if a == [] {
      assert a + b == b;
    } else {
      assert (a + b)[0] == a[0] && (a + b)[1..] == a[1..] + b;
      UpdateCartQuantityAppend(a[1..], b, id, q);
      UpdateCartQuantityStep(a, id, q);
      UpdateCartQuantityStep(a + b, id, q);
      var x := if a[0].id == id then a[0].(quantity := NonNegative(q)) else a[0];
      ConcatAssoc(if x.quantity > 0 then [x] else [], UpdateCartQuantity(a[1..], id, q), UpdateCartQuantity(b, id, q));
    }
  }

  lemma ConcatAssoc(h: seq<CartItem>, m: seq<CartItem>, t: seq<CartItem>)
    ensures h + (m + t) == (h + m) + t
  {
  }

  /** One step of the line-by-line update: the head line's fate, then the rest. */
  lemma UpdateCartQuantityStep(cart: seq<CartItem>, id: string, q: int)
    requires cart != []
    ensures var x := if cart[0].id == id then cart[0].(quantity := NonNegative(q)) else cart[0];
            UpdateCartQuantity(cart, id, q) == (if x.quantity > 0 then [x] else []) + UpdateCartQuantity(cart[1..], id, q)
  {
    var x := if cart[0].id == id then cart[0].(quantity := NonNegative(q)) else cart[0];
    if x.quantity <= 0 {
      assert [] + UpdateCartQuantity(cart[1..], id, q) == UpdateCartQuantity(cart[1..], id, q);
    }
  }
}
