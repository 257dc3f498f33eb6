/** Cash-register reconciliation: the sums `closeCashRegister` computes when
    a session is closed (contexts/AppContext.tsx:740-746). */
module Cash {
  import opened Domain
  import opened Lists
  import opened Lifecycle
  import Reducer

  /** An order counts as a sale of the session when it is tagged with it, is
      DELIVERED and was paid in cash or by PIX. */
  predicate CountsAsSale(o: Order, sid: string): (b: bool)
    // Only finished orders of this session count, and never a card or other payment.
    ensures b ==> o.status == Delivered && o.sessionId == Some(sid)
    ensures b ==> o.paymentMethod != Some(OtherMethod) && o.paymentMethod != None
  {
    o.sessionId == Some(sid) && o.status == Delivered &&
    o.paymentMethod.Some? && DrawerPayment(o.paymentMethod.value)
  }

  function SaleValue(o: Order, sid: string): real {
    if CountsAsSale(o, sid) then o.totalAmount else 0.0
  }

  /** Σ total over the session's sales. */
  function Sales(os: seq<Order>, sid: string): real {
    if os == [] then 0.0 else Sales(os[..|os| - 1], sid) + SaleValue(os[|os| - 1], sid)
  }

  function AdjustmentValue(a: CashAdjustment, sid: string, kind: AdjustmentType): real {
    if a.sessionId == sid && a.kind == kind then a.amount else 0.0
  }

  /** Σ amount over the session's adjustments of one kind. */
  function Adjustments(adjs: seq<CashAdjustment>, sid: string, kind: AdjustmentType): real {
    if adjs == [] then 0.0
    else Adjustments(adjs[..|adjs| - 1], sid, kind) + AdjustmentValue(adjs[|adjs| - 1], sid, kind)
  }

  /** A session in which no order counts has no sales, and sales are never
      negative when no total is. */
  lemma {:induction false} SalesBounds(os: seq<Order>, sid: string)
    ensures (forall j :: 0 <= j < |os| ==> !CountsAsSale(os[j], sid)) ==> Sales(os, sid) == 0.0
    ensures (forall j :: 0 <= j < |os| ==> os[j].totalAmount >= 0.0) ==> Sales(os, sid) >= 0.0
  {
    if os != [] {
      SalesBounds(os[..|os| - 1], sid);
    }
  }

  /** A session with no adjustment of a kind sums 0 for it, and the sum is
      never negative when every amount is positive. */
  lemma {:induction false} AdjustmentsBounds(adjs: seq<CashAdjustment>, sid: string, kind: AdjustmentType)
    ensures (forall j :: 0 <= j < |adjs| ==> adjs[j].sessionId != sid || adjs[j].kind != kind) ==>
              Adjustments(adjs, sid, kind) == 0.0
    ensures (forall j :: 0 <= j < |adjs| ==> adjs[j].amount > 0.0) ==> Adjustments(adjs, sid, kind) >= 0.0
  {
    if adjs != [] {
      AdjustmentsBounds(adjs[..|adjs| - 1], sid, kind);
    }
  }

  datatype Reconciliation = Reconciliation(sales: real, expected: real, difference: real)

  /** The figures stored when session `s` is closed with `informed` counted in
      the drawer. */
  function Reconcile(s: CashSession, os: seq<Order>, adjs: seq<CashAdjustment>, informed: real): (r: Reconciliation)
    ensures r.sales == Sales(os, s.id)
    ensures r.expected == s.openingBalance + r.sales + Adjustments(adjs, s.id, Add) - Adjustments(adjs, s.id, Remove)
    ensures r.difference == informed - r.expected
    // A drawer that holds exactly what is expected closes with no difference, and only then.
    ensures r.difference == 0.0 <==> informed == r.expected
  {
    var sales := Sales(os, s.id);
    var added := Adjustments(adjs, s.id, Add);
    var removed := Adjustments(adjs, s.id, Remove);
    var expected := s.openingBalance + sales + added - removed;
    Reconciliation(sales, expected, informed - expected)
  }

  // ------------------------------------------------------------ adjustments

  lemma {:induction false} AdjustmentsAppend(a: seq<CashAdjustment>, b: seq<CashAdjustment>, sid: string, kind: AdjustmentType)
    ensures Adjustments(a + b, sid, kind) == Adjustments(a, sid, kind) + Adjustments(b, sid, kind)
    decreases |b|
  {
    if b == [] {
      assert a + b == a;
    } else {
      var b' := b[..|b| - 1];
      assert (a + b)[..|a + b| - 1] == a + b';
      assert (a + b)[|a + b| - 1] == b[|b| - 1];
      AdjustmentsAppend(a, b', sid, kind);
    }
  }

  lemma AdjustmentsCons(x: CashAdjustment, s: seq<CashAdjustment>, sid: string, kind: AdjustmentType)
    ensures Adjustments([x] + s, sid, kind) == AdjustmentValue(x, sid, kind) + Adjustments(s, sid, kind)
  {
    AdjustmentsAppend([x], s, sid, kind);
    assert Adjustments([x], sid, kind) == Adjustments([], sid, kind) + AdjustmentValue(x, sid, kind) by {
      assert [x][..0] == [];
    }
  }

  /** Putting an adjustment between two parts of a list adds its contribution. */
  lemma AdjustmentsSplit(lo: seq<CashAdjustment>, x: CashAdjustment, hi: seq<CashAdjustment>, sid: string, kind: AdjustmentType)
    ensures Adjustments(lo + [x] + hi, sid, kind) == Adjustments(lo + hi, sid, kind) + AdjustmentValue(x, sid, kind)
  {
    AdjustmentsAppend(lo + [x], hi, sid, kind);
    AdjustmentsAppend(lo, [x], sid, kind);
    AdjustmentsAppend(lo, hi, sid, kind);
    assert [x][..0] == [];
  }

  /** Inserting an adjustment at its place adds its contribution. */
  lemma AdjustmentsInsert(x: CashAdjustment, s: seq<CashAdjustment>, sid: string, kind: AdjustmentType)
    ensures Adjustments(Insert(x, s, AdjustedAt), sid, kind) == AdjustmentValue(x, sid, kind) + Adjustments(s, sid, kind)
  {
    var k := InsertPos(x, s, AdjustedAt);
    var lo, hi := s[..k], s[k..];
    InsertShape(x, s, AdjustedAt);
    assert Insert(x, s, AdjustedAt) == lo + [x] + hi;
    AdjustmentsSplit(lo, x, hi, sid, kind);
    assert lo + hi == s;
  }

  /** Sorting the adjustment list does not change any sum over it. */
  lemma {:induction false} AdjustmentsSorted(s: seq<CashAdjustment>, sid: string, kind: AdjustmentType)
    ensures Adjustments(SortDesc(s, AdjustedAt), sid, kind) == Adjustments(s, sid, kind)
  {
    if s != [] {
      AdjustmentsSorted(s[1..], sid, kind);
      SortStep(s, AdjustedAt);
      AdjustmentsInsert(s[0], SortDesc(s[1..], AdjustedAt), sid, kind);
      assert s == [s[0]] + s[1..];
      AdjustmentsCons(s[0], s[1..], sid, kind);
    }
  }

  /** Recording an adjustment moves the expected cash of its session by its
      amount, up for an ADD and down for a REMOVE, and leaves every other
      session's figures alone. */
  lemma AdjustmentMovesExpected(s: CashSession, os: seq<Order>, adjs: seq<CashAdjustment>,
                                a: CashAdjustment, informed: real)
    ensures Reconcile(s, os, Reducer.AddAdjustment(adjs, a), informed).expected ==
            Reconcile(s, os, adjs, informed).expected +
              (if a.sessionId != s.id then 0.0 else if a.kind == Add then a.amount else -a.amount)
  {
    var adjs' := Reducer.AddAdjustment(adjs, a);
    AdjustmentsSorted([a] + adjs, s.id, Add);
    AdjustmentsSorted([a] + adjs, s.id, Remove);
    AdjustmentsCons(a, adjs, s.id, Add);
    AdjustmentsCons(a, adjs, s.id, Remove);
  }

  // ------------------------------------------------------------------ sales

  lemma {:induction false} SalesUpdate(os: seq<Order>, i: int, o: Order, sid: string)
    requires 0 <= i < |os|
    ensures Sales(os[i := o], sid) == Sales(os, sid) - SaleValue(os[i], sid) + SaleValue(o, sid)
  {
    var n := |os| - 1;
    var u := os[i := o];
    SalesLast(os, sid);
    SalesLast(u, sid);
    if i < n {
      assert u[..n] == os[..n][i := o] && u[n] == os[n];
      SalesUpdate(os[..n], i, o, sid);
    } else {
      assert u[..n] == os[..n] && u[n] == o;
    }
  }

  lemma SalesLast(os: seq<Order>, sid: string)
    requires os != []
    ensures Sales(os, sid) == Sales(os[..|os| - 1], sid) + SaleValue(os[|os| - 1], sid)
  {
  }

  /** Closing a dine-in table account paid in cash or by PIX while a session
      is open adds the order's total to that session's sales. */
  lemma ClosedTableCountsAsSale(os: seq<Order>, i: int, p: PaymentDetails, s: CashSession, now: int)
    requires 0 <= i < |os| && !Terminal(os[i].status) && DrawerPayment(p.paymentMethod)
    ensures Sales(os[i := TableClosed(os[i], p, Some(s), now)], s.id) == Sales(os, s.id) + os[i].totalAmount
  {
    SalesUpdate(os, i, TableClosed(os[i], p, Some(s), now), s.id);
  }

  /** A change that does not touch an order's status, session, payment method
      or total (progress, timers, automatic progression) leaves every
      session's sales as they were. */
  lemma SalesIgnoreTimers(os: seq<Order>, i: int, o: Order, sid: string)
    requires 0 <= i < |os|
    requires o.status == os[i].status && o.sessionId == os[i].sessionId
    requires o.paymentMethod == os[i].paymentMethod && o.totalAmount == os[i].totalAmount
    ensures Sales(os[i := o], sid) == Sales(os, sid)
  {
    SalesUpdate(os, i, o, sid);
  }

  /** A session opened with 100.00, one 45.50 cash order delivered in it and
      one 20.00 ADD adjustment expects 165.50, so counting 165.50 leaves no
      difference. */
  lemma ExampleClose(s: CashSession, o: Order, a: CashAdjustment)
    requires s.openingBalance == 100.0
    requires o.sessionId == Some(s.id) && o.status == Delivered &&
             o.paymentMethod == Some(Dinheiro) && o.totalAmount == 45.5
    requires a.sessionId == s.id && a.kind == Add && a.amount == 20.0
    ensures var r := Reconcile(s, [o], [a], 165.5);
            r.sales == 45.5 && r.expected == 165.5 && r.difference == 0.0
  {
    assert [o][..0] == [] && [a][..0] == [];
    assert Sales([o], s.id) == 45.5;
    assert Adjustments([a], s.id, Add) == 20.0;
    assert Adjustments([a], s.id, Remove) == 0.0;
  }
}
