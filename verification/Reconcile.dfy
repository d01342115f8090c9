/** The reconciliation pass over pending payments (harness/saga.py, section 8.7 bullet 1). */
module Reconcile {
  import opened Wrappers
  import opened Orders
  import opened Inventory
  import opened Saga
  import opened SagaTheorems

  /** One pending payment is routed by the status LNbits holds for its order. */
  function RoutePayment(s: State, o: OrderId): Step {
    if CoreIs(s, o, Paid) then ConfirmSettlement(s, o)
    else if CoreIs(s, o, Unpaid) then ExpireOrder(s, o)
    else Step(s, Done)
  }

  predicate Raises(r: Reply) {
    r in {MissingOrder, MissingPayment, SettlementConflict, NotAwaiting}
  }

  /** A paid order is settled, a lapsed one expired, any other left alone; what each refuses to do raises. */
  lemma RouteExactly(s: State, o: OrderId)
    ensures
      var paid, lapsed := CoreIs(s, o, Paid), CoreIs(s, o, Unpaid);
      && !(paid && lapsed)
      && (!paid && !lapsed ==> RoutePayment(s, o) == Step(s, Done))
      && (Raises(RoutePayment(s, o).reply) <==>
            || (paid && (o !in s.orders || o !in s.payments || s.payments[o].status == Failed))
            || (lapsed && (o !in s.orders || s.orders[o].state != AwaitingPayment)))
  {
    if CoreFor(s, o) != [] {
      assert CoreIs(s, o, Paid) ==> CoreFor(s, o)[0].status == Paid;
    }
  }

  datatype PassResult = Finished(state: State) | Raised(state: State, order: OrderId)

  /** The pass over the pending payments read at its start; an exception ends it. */
  function Pass(s: State, os: seq<OrderId>): PassResult {
    if os == [] then Finished(s)
    else
      var before, o := Pass(s, os[..|os| - 1]), os[|os| - 1];
      if before.Raised? then before
      else
        var step := RoutePayment(before.state, o);
        if Raises(step.reply) then Raised(step.state, o) else Finished(step.state)
  }

  predicate IsPending(s: State, o: OrderId) {
    o in s.orders && o in s.payments && s.payments[o].status == Pending
  }

  /** The distinct orders whose payment is pending when the pass starts. */
  predicate Selected(s: State, os: seq<OrderId>) {
    && (forall i :: 0 <= i < |os| ==> IsPending(s, os[i]))
    && (forall i, j :: 0 <= i < j < |os| ==> os[i] != os[j])
  }

  /** A lapsed invoice of an order that no longer awaits payment. */
  predicate Stuck(s: State, o: OrderId) {
    CoreIs(s, o, Unpaid) && o in s.orders && s.orders[o].state != AwaitingPayment
  }

  predicate SameOrder(s: State, t: State, o: OrderId) {
    && (o in s.orders <==> o in t.orders) && (o in s.orders ==> s.orders[o] == t.orders[o])
    && (o in s.payments <==> o in t.payments) && (o in s.payments ==> s.payments[o] == t.payments[o])
  }

  /** What the pass owes a payment it has handled. */
  predicate Handled(s: State, t: State, o: OrderId) {
    && IsPending(s, o) && o in t.orders && o in t.payments
    && (CoreIs(s, o, Paid) ==>
          && t.payments[o].status == Settled
          && t.orders[o].state == (if s.orders[o].state == AwaitingPayment then Confirmed else s.orders[o].state)
          && (s.orders[o].state != AwaitingPayment ==> t.orders[o].exception))
    && (CoreIs(s, o, Unpaid) ==>
          s.orders[o].state == AwaitingPayment && t.orders[o].state == Expired && t.payments[o] == s.payments[o])
    && (!CoreIs(s, o, Paid) && !CoreIs(s, o, Unpaid) ==> SameOrder(s, t, o))
  }

  lemma ExpireFrame(s: State, o: OrderId, x: OrderId)
    requires o != x
    ensures SameOrder(s, ExpireOrder(s, o).state, x)
    ensures ExpireOrder(s, o).state.core == s.core
  {
  }

  lemma SettlementFrame(s: State, o: OrderId, x: OrderId)
    requires o != x
    ensures SameOrder(s, ConfirmSettlement(s, o).state, x)
    ensures ConfirmSettlement(s, o).state.core == s.core
  {
    SettlementBooks(s, o);
  }

  lemma RouteFrame(s: State, o: OrderId, x: OrderId)
    requires o != x
    ensures SameOrder(s, RoutePayment(s, o).state, x)
    ensures RoutePayment(s, o).state.core == s.core
  {
    ExpireFrame(s, o, x);
    SettlementFrame(s, o, x);
  }

  lemma RouteHandles(s: State, o: OrderId)
    requires IsPending(s, o)
    ensures Raises(RoutePayment(s, o).reply) <==> Stuck(s, o)
    ensures !Stuck(s, o) ==> Handled(s, RoutePayment(s, o).state, o)
  {
    if CoreFor(s, o) != [] {
      assert CoreIs(s, o, Paid) ==> CoreFor(s, o)[0].status == Paid;
    }
    SettlementBooks(s, o);
  }

  /** The step for `o` sees `o` as the pass found it. */
  lemma PassStep(s: State, t: State, o: OrderId)
    requires IsPending(s, o) && SameOrder(s, t, o) && t.core == s.core
    ensures Raises(RoutePayment(t, o).reply) <==> Stuck(s, o)
    ensures !Stuck(s, o) ==> Handled(s, RoutePayment(t, o).state, o)
    ensures RoutePayment(t, o).state.core == s.core
    ensures forall x: OrderId :: x != o ==> SameOrder(t, RoutePayment(t, o).state, x)
  {
    RouteHandles(t, o);
    RouteFrame(t, o, o + 1);
    forall x: OrderId | x != o ensures SameOrder(t, RoutePayment(t, o).state, x) {
      RouteFrame(t, o, x);
    }
  }

  /** What a finished pass owes the payments it selected and everything else. */
  ghost predicate Recovered(s: State, t: State, os: seq<OrderId>) {
    && t.core == s.core
    && (forall i :: 0 <= i < |os| ==> Handled(s, t, os[i]))
    && (forall x: OrderId :: x !in os ==> SameOrder(s, t, x))
  }

  lemma RecoveredSnoc(s: State, t: State, u: State, front: seq<OrderId>, o: OrderId)
    requires Recovered(s, t, front) && o !in front
    requires u.core == s.core && Handled(s, u, o) && forall x: OrderId :: x != o ==> SameOrder(t, u, x)
    ensures Recovered(s, u, front + [o])
  {
    forall i | 0 <= i < |front| ensures Handled(s, u, front[i]) {
      assert Handled(s, t, front[i]) && SameOrder(t, u, front[i]);
    }
    forall x: OrderId | x !in front + [o] ensures SameOrder(s, u, x) {
      assert SameOrder(s, t, x) && SameOrder(t, u, x);
    }
  }

  /**
   * A pass raises exactly when some pending payment is stuck; otherwise every
   * payment found paid is settled and every order awaiting it is confirmed, so
   * a lost callback is recovered.
   */
  lemma {:induction false} PassRecovers(s: State, os: seq<OrderId>)
    requires Selected(s, os)
    ensures Pass(s, os).Raised? <==> exists i :: 0 <= i < |os| && Stuck(s, os[i])
    ensures Pass(s, os).Finished? ==> Recovered(s, Pass(s, os).state, os)
  {
    if os != [] {
      var front, o := os[..|os| - 1], os[|os| - 1];
      assert os == front + [o];
      PassRecovers(s, front);
      var before := Pass(s, front);
      assert o !in front;
      if before.Finished? {
        PassStep(s, before.state, o);
        assert Stuck(s, os[|os| - 1]) <==> Stuck(s, o);
        if !Stuck(s, o) {
          RecoveredSnoc(s, before.state, RoutePayment(before.state, o).state, front, o);
        }
      } else {
        var i :| 0 <= i < |front| && Stuck(s, front[i]);
        assert Stuck(s, os[i]);
      }
    }
  }

  /** Expiry leaves the payment pending, so the pass after one that expired an order raises. */
  lemma {:induction false} PassAfterExpiryRaises(s: State, os: seq<OrderId>, k: nat, again: seq<OrderId>)
    requires Selected(s, os) && Pass(s, os).Finished?
    requires k < |os| && CoreIs(s, os[k], Unpaid)
    requires Selected(Pass(s, os).state, again)
      && forall o :: IsPending(Pass(s, os).state, o) ==> o in again
    ensures Pass(Pass(s, os).state, again).Raised?
  {
    PassRecovers(s, os);
    var t := Pass(s, os).state;
    assert Handled(s, t, os[k]);
    assert IsPending(t, os[k]) && Stuck(t, os[k]);
    var i :| 0 <= i < |again| && again[i] == os[k];
    PassRecovers(t, again);
  }

  // ---- Passes among the steps of other workers ----

  /** The pass with arbitrary steps of others before it routes each payment: `gaps[i]` comes before `os[i]`. */
  function PassAmid(s: State, os: seq<OrderId>, gaps: seq<seq<Event>>): PassResult
    requires |os| == |gaps|
  {
    if os == [] then Finished(s)
    else
      var n := |os| - 1;
      var before := PassAmid(s, os[..n], gaps[..n]);
      if before.Raised? then before
      else
        var step := RoutePayment(Run(before.state, gaps[n]), os[n]);
        if Raises(step.reply) then Raised(step.state, os[n]) else Finished(step.state)
  }

  /** Routing is a settlement, an expiry, or no step at all. */
  lemma RouteIsStep(s: State, o: OrderId) returns (e: Event)
    ensures RoutePayment(s, o).state == s || RoutePayment(s, o).state == Apply(s, e)
  {
    e := if CoreIs(s, o, Paid) then DoConfirm(o) else DoExpire(o);
  }

  predicate PastCreation(s: State, o: OrderId) {
    o in s.orders && o in s.payments && s.payments[o].status in {Pending, Settled}
  }

  lemma {:induction false} RunAdvances(s: State, events: seq<Event>, o: OrderId)
    ensures PastCreation(s, o) ==> PastCreation(Run(s, events), o)
    ensures IsSettled(s, o) ==> IsSettled(Run(s, events), o)
  {
    if events != [] {
      RunAdvances(s, events[..|events| - 1], o);
      PaymentsAdvance(Run(s, events[..|events| - 1]), events[|events| - 1], o);
    }
  }

  lemma RouteAdvances(s: State, o: OrderId, x: OrderId)
    ensures PastCreation(s, x) ==> PastCreation(RoutePayment(s, o).state, x)
    ensures IsSettled(s, x) ==> IsSettled(RoutePayment(s, o).state, x)
  {
    var e := RouteIsStep(s, o);
    PaymentsAdvance(s, e, x);
  }

  /** One routed payment, whatever happened since the pass read it: it raises exactly when it is stuck by now. */
  lemma RouteRaisesExactly(s: State, o: OrderId)
    requires PastCreation(s, o)
    ensures Raises(RoutePayment(s, o).reply) <==> Stuck(s, o)
    ensures CoreIs(s, o, Paid) ==> IsSettled(RoutePayment(s, o).state, o)
  {
    if CoreFor(s, o) != [] {
      assert CoreIs(s, o, Paid) ==> CoreFor(s, o)[0].status == Paid;
    }
    SettlementBooks(s, o);
  }

  /** The k-th payment is reached, and at that moment its invoice has lapsed while its order no longer awaits payment. */
  predicate StuckAt(s: State, os: seq<OrderId>, gaps: seq<seq<Event>>, k: nat)
    requires |os| == |gaps| && k < |os|
  {
    PassAmid(s, os[..k], gaps[..k]).Finished? && Stuck(Run(PassAmid(s, os[..k], gaps[..k]).state, gaps[k]), os[k])
  }

  /** The k-th payment is reached, and at that moment LNbits holds its invoice as paid. */
  predicate PaidAt(s: State, os: seq<OrderId>, gaps: seq<seq<Event>>, k: nat)
    requires |os| == |gaps| && k < |os|
  {
    PassAmid(s, os[..k], gaps[..k]).Finished? && CoreIs(Run(PassAmid(s, os[..k], gaps[..k]).state, gaps[k]), os[k], Paid)
  }

  lemma {:induction false} PassAmidAdvances(s: State, os: seq<OrderId>, gaps: seq<seq<Event>>, o: OrderId)
    requires |os| == |gaps|
    ensures PastCreation(s, o) ==> PastCreation(PassAmid(s, os, gaps).state, o)
    ensures IsSettled(s, o) ==> IsSettled(PassAmid(s, os, gaps).state, o)
  {
    if os != [] {
      var n := |os| - 1;
      PassAmidAdvances(s, os[..n], gaps[..n], o);
      var before := PassAmid(s, os[..n], gaps[..n]);
      RunAdvances(before.state, gaps[n], o);
      RouteAdvances(Run(before.state, gaps[n]), os[n], o);
    }
  }

  lemma SamePrefix(s: State, os: seq<OrderId>, gaps: seq<seq<Event>>, k: nat)
    requires |os| == |gaps| && k < |os| - 1
    ensures StuckAt(s, os, gaps, k) <==> StuckAt(s, os[..|os| - 1], gaps[..|os| - 1], k)
    ensures PaidAt(s, os, gaps, k) <==> PaidAt(s, os[..|os| - 1], gaps[..|os| - 1], k)
  {
    assert os[..|os| - 1][..k] == os[..k] && gaps[..|os| - 1][..k] == gaps[..k];
  }

  /** The last payment of a pass, if the pass gets there. */
  lemma LastRouted(s: State, os: seq<OrderId>, gaps: seq<seq<Event>>)
    requires |os| == |gaps| && os != [] && IsPending(s, os[|os| - 1])
    ensures
      var n := |os| - 1;
      var before := PassAmid(s, os[..n], gaps[..n]);
      if before.Raised? then PassAmid(s, os, gaps) == before && !StuckAt(s, os, gaps, n) && !PaidAt(s, os, gaps, n)
      else
        && (PassAmid(s, os, gaps).Raised? <==> StuckAt(s, os, gaps, n))
        && (PaidAt(s, os, gaps, n) ==> IsSettled(PassAmid(s, os, gaps).state, os[n]))
  {
    var n := |os| - 1;
    var before := PassAmid(s, os[..n], gaps[..n]);
    PassAmidAdvances(s, os[..n], gaps[..n], os[n]);
    RunAdvances(before.state, gaps[n], os[n]);
    RouteRaisesExactly(Run(before.state, gaps[n]), os[n]);
  }

  /** Some payment of the pass is stuck when the pass reaches it. */
  ghost predicate AnyStuck(s: State, os: seq<OrderId>, gaps: seq<seq<Event>>)
    requires |os| == |gaps|
  {
    exists k :: 0 <= k < |os| && StuckAt(s, os, gaps, k)
  }

  lemma AnyStuckSnoc(s: State, os: seq<OrderId>, gaps: seq<seq<Event>>)
    requires |os| == |gaps| && os != []
    ensures AnyStuck(s, os, gaps) <==>
      AnyStuck(s, os[..|os| - 1], gaps[..|os| - 1]) || StuckAt(s, os, gaps, |os| - 1)
  {
    var n := |os| - 1;
    if k :| 0 <= k < n && StuckAt(s, os[..n], gaps[..n], k) {
      SamePrefix(s, os, gaps, k);
    }
    if k :| 0 <= k < n && StuckAt(s, os, gaps, k) {
      SamePrefix(s, os, gaps, k);
    }
  }

  /** Among arbitrary steps of other workers the pass raises exactly when some payment it reaches is stuck at that moment. */
  lemma {:induction false} PassAmidRaisesExactly(s: State, os: seq<OrderId>, gaps: seq<seq<Event>>)
    requires |os| == |gaps| && forall i :: 0 <= i < |os| ==> IsPending(s, os[i])
    ensures PassAmid(s, os, gaps).Raised? <==> AnyStuck(s, os, gaps)
  {
    if os != [] {
      PassAmidRaisesExactly(s, os[..|os| - 1], gaps[..|os| - 1]);
      AnyStuckSnoc(s, os, gaps);
      LastRouted(s, os, gaps);
    }
  }

  lemma LastKeepsSettled(s: State, os: seq<OrderId>, gaps: seq<seq<Event>>, x: OrderId)
    requires |os| == |gaps| && os != [] && IsSettled(PassAmid(s, os[..|os| - 1], gaps[..|os| - 1]).state, x)
    ensures IsSettled(PassAmid(s, os, gaps).state, x)
  {
    var n := |os| - 1;
    var before := PassAmid(s, os[..n], gaps[..n]);
    RunAdvances(before.state, gaps[n], x);
    RouteAdvances(Run(before.state, gaps[n]), os[n], x);
  }

  /** And every payment it finds paid is settled when the pass ends, whether or not it raised. */
  lemma {:induction false} PassAmidSettlesPaid(s: State, os: seq<OrderId>, gaps: seq<seq<Event>>, k: nat)
    requires |os| == |gaps| && forall i :: 0 <= i < |os| ==> IsPending(s, os[i])
    requires k < |os| && PaidAt(s, os, gaps, k)
    ensures IsSettled(PassAmid(s, os, gaps).state, os[k])
  {
    var n := |os| - 1;
    if k == n {
      LastRouted(s, os, gaps);
    } else {
      SamePrefix(s, os, gaps, k);
      PassAmidSettlesPaid(s, os[..n], gaps[..n], k);
      LastKeepsSettled(s, os, gaps, os[k]);
    }
  }
}
