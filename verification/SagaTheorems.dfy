/** What the saga promises, over every run from an empty shop. */
module SagaTheorems {
  import opened Wrappers
  import opened Orders
  import opened Inventory
  import opened Saga
  import opened SagaInvariant
  import opened SagaProof

  /** Stock is neither lost nor sold twice. */
  lemma {:induction false} StockConserved(s: State, initial: map<ProductId, Option<int>>, events: seq<Event>, p: ProductId)
    requires Fresh(s, initial) && p in initial
    ensures
      var t := Run(s, events);
      && p in t.products
      && t.products[p].reserved == QtyIn(t.reservations, p, Held)
      && 0 <= t.products[p].reserved
      && (initial[p].Some? ==>
            && t.products[p].onHand.Some?
            && t.products[p].reserved <= t.products[p].onHand.value
            && t.products[p].onHand.value + QtyIn(t.reservations, p, Consumed) == initial[p].value)
  {
    FreshInv(s, initial);
    RunKeeps(s, initial, events);
    var t := Run(s, events);
    assert ProductOk(t.products[p], initial[p], QtyIn(t.reservations, p, Held), QtyIn(t.reservations, p, Consumed));
  }

  /** The state of an order fixes its reservations and is the end of its audit trail. */
  lemma {:induction false} OrderReservationAndAuditAgree(s: State, initial: map<ProductId, Option<int>>, events: seq<Event>, o: OrderId)
    requires Fresh(s, initial)
    ensures
      var t := Run(s, events);
      o in t.orders ==>
        && LegalPath(Trail(t.events, o), t.orders[o].state)
        && (forall i :: 0 <= i < |t.reservations| && t.reservations[i].order == o ==>
              && (t.reservations[i].state == Held <==> t.orders[o].state in {InvoicePending, AwaitingPayment})
              && (t.reservations[i].state == Consumed <==> t.orders[o].state == Confirmed)
              && (t.reservations[i].state == Released <==> t.orders[o].state in {Rejected, Cancelled})
              && (t.reservations[i].state == Lapsed <==> t.orders[o].state == Expired)
              && t.orders[o].state != Received)
        && (t.orders[o].state in {InvoicePending, AwaitingPayment, Confirmed, Expired} ==>
              o in t.carts && CartOf(t.reservations, o) == t.carts[o])
        && (t.orders[o].state == Received ==> CartOf(t.reservations, o) == [])
  {
    FreshInv(s, initial);
    RunKeeps(s, initial, events);
    var t := Run(s, events);
    assert OrderOk(ViewOf(t, o));
    EmptyCartNoRows(t.reservations, o);
  }

  /**
   * In every reachable state a claim succeeds exactly when the order is `received`, its cart names each product once,
   * and every product is live with enough free stock; it then reserves exactly the cart, else it changes nothing.
   */
  lemma {:induction false} ClaimSucceedsExactly(
    s: State, initial: map<ProductId, Option<int>>, events: seq<Event>, o: OrderId, expiresAt: int, p: ProductId)
    requires Fresh(s, initial)
    ensures
      var before := Run(s, events);
      var step := Begin(before, o, expiresAt);
      && (step.reply == Done <==>
            && o in before.orders && before.orders[o].state == Received
            && DistinctProducts(CartFor(before, o)) && Claimable(before.products, CartFor(before, o)))
      && (step.reply != Done ==> step.state == before)
      && (step.reply == Done && p in before.products ==>
            && p in step.state.products
            && step.state.products[p] == before.products[p].(
                 reserved := before.products[p].reserved + QtyOf(CartFor(before, o), p)))
  {
    FreshInv(s, initial);
    RunKeeps(s, initial, events);
    var before := Run(s, events);
    assert OrderOk(ViewOf(before, o));
    if o in before.orders && before.orders[o].state == Received {
      ReceivedHasNoTraces(before, o);
    }
    ClaimResult(before, o, expiresAt, p);
  }

  lemma ReceivedHasNoTraces(s: State, o: OrderId)
    requires OrderOk(ViewOf(s, o)) && o in s.orders && s.orders[o].state == Received
    ensures o !in s.payments && !Reserved(s.reservations, o, CartFor(s, o))
  {
    EmptyCartNoRows(s.reservations, o);
  }

  lemma ClaimResult(s: State, o: OrderId, expiresAt: int, p: ProductId)
    ensures Begin(s, o, expiresAt).reply != Done ==> Begin(s, o, expiresAt).state == s
    ensures Begin(s, o, expiresAt).reply == Done && p in s.products ==>
      && p in Begin(s, o, expiresAt).state.products
      && Begin(s, o, expiresAt).state.products[p] ==
         s.products[p].(reserved := s.products[p].reserved + QtyOf(CartFor(s, o), p))
  {
  }

  /** LNbits is asked for at most one invoice per order, and its payment request is delivered at most once. */
  lemma {:induction false} NoSecondInvoice(s: State, initial: map<ProductId, Option<int>>, events: seq<Event>, o: OrderId)
    requires Fresh(s, initial)
    ensures
      var t := Run(s, events);
      && CallsFor(t, o) <= 1
      && |CoreFor(t, o)| <= CallsFor(t, o)
      && |DeliveredTo(t.deliveries, o)| <= 1
      && (forall h :: h in DeliveredTo(t.deliveries, o) ==> CoreFor(t, o) != [] && CoreFor(t, o)[0].hash == h)
  {
    FreshInv(s, initial);
    RunKeeps(s, initial, events);
    assert OrderOk(ViewOf(Run(s, events), o));
  }

  /** An order is confirmed only when LNbits holds its invoice as paid, and then its whole cart is republished. */
  lemma {:induction false} ConfirmedIsPaid(s: State, initial: map<ProductId, Option<int>>, events: seq<Event>, o: OrderId)
    requires Fresh(s, initial)
    requires o in Run(s, events).orders && Run(s, events).orders[o].state == Confirmed
    ensures
      var t := Run(s, events);
      && CoreIs(t, o, Paid)
      && o in t.payments && t.payments[o].status == Settled
      && o in t.carts
      && forall x :: x in t.carts[o] ==> StockUpdate(o, x.product) in t.outbox
  {
    FreshInv(s, initial);
    RunKeeps(s, initial, events);
    ConfirmedViewIsPaid(Run(s, events), o);
  }

  lemma ConfirmedViewIsPaid(t: State, o: OrderId)
    requires OrderOk(ViewOf(t, o)) && o in t.orders && t.orders[o].state == Confirmed
    ensures CoreIs(t, o, Paid) && o in t.payments && t.payments[o].status == Settled && o in t.carts
    ensures forall x :: x in t.carts[o] ==> StockUpdate(o, x.product) in t.outbox
  {
    forall x | x in t.carts[o] ensures StockUpdate(o, x.product) in t.outbox {
      assert x.product in ProductsOf(t.carts[o]);
      assert x.product in Republished(t.outbox, o);
    }
  }

  /** Only an attach that finds `invoice_pending` delivers, and only to its own order. */
  lemma {:induction false} OnlyAttachDelivers(s: State, e: Event, o: OrderId)
    requires DeliveredTo(Apply(s, e).deliveries, o) != DeliveredTo(s.deliveries, o)
    ensures e.DoAttach? && e.order == o
    ensures o in s.orders && s.orders[o].state == InvoicePending
    ensures o in Apply(s, e).orders && Apply(s, e).orders[o].state == AwaitingPayment
  {
    OnlyAttachAppends(s, e);
    if e.DoAttach? && e.index < |CoreFor(s, e.order)| {
      DeliveredAppend(s.deliveries, Delivery(e.order, CoreFor(s, e.order)[e.index].hash));
    }
  }

  lemma ClosingDeliversNothing(s: State, x: OrderId, reason: string)
    ensures Cancel(s, x, reason).state.deliveries == s.deliveries && ExpireOrder(s, x).state.deliveries == s.deliveries
    ensures MarkRejection(s, x).state.deliveries == s.deliveries
  {
  }

  lemma EarlyStepsDeliverNothing(s: State, e: Event)
    requires e.DoIntake? || e.DoBegin? || e.DoRejectIntake? || e.DoCreateInvoice?
    ensures Apply(s, e).deliveries == s.deliveries
  {
  }

  lemma SettlementDeliversNothing(s: State, x: OrderId)
    ensures ConfirmSettlement(s, x).state.deliveries == s.deliveries
  {
  }

  lemma OtherStepsDeliverNothing(s: State, e: Event)
    requires e.DoMarkUnknown? || e.DoReenqueue? || e.CorePays? || e.CoreExpires? || e.DeleteProduct?
    ensures Apply(s, e).deliveries == s.deliveries
  {
  }

  lemma AttachAppends(s: State, o: OrderId, hash: nat, expiresAt: int)
    ensures
      var t := Attach(s, o, hash, expiresAt).state;
      || t.deliveries == s.deliveries
      || (o in s.orders && s.orders[o].state == InvoicePending
          && o in t.orders && t.orders[o].state == AwaitingPayment
          && t.deliveries == s.deliveries + [Delivery(o, hash)])
  {
  }

  lemma OnlyAttachAppends(s: State, e: Event)
    ensures Apply(s, e).deliveries == s.deliveries
      || (e.DoAttach? && e.order in s.orders && s.orders[e.order].state == InvoicePending
          && e.order in Apply(s, e).orders && Apply(s, e).orders[e.order].state == AwaitingPayment
          && e.index < |CoreFor(s, e.order)|
          && Apply(s, e).deliveries == s.deliveries + [Delivery(e.order, CoreFor(s, e.order)[e.index].hash)])
  {
    match e
    case DoAttach(x, k) =>
      if k < |CoreFor(s, x)| {
        AttachAppends(s, x, CoreFor(s, x)[k].hash, CoreFor(s, x)[k].expiresAt);
      }
    case DoCancel(x, reason) => ClosingDeliversNothing(s, x, reason);
    case DoExpire(x) => ClosingDeliversNothing(s, x, "");
    case DoMarkRejection(x) => ClosingDeliversNothing(s, x, "");
    case DoConfirm(x) => SettlementDeliversNothing(s, x);
    case DoIntake(_, _) => EarlyStepsDeliverNothing(s, e);
    case DoBegin(_, _) => EarlyStepsDeliverNothing(s, e);
    case DoRejectIntake(_) => EarlyStepsDeliverNothing(s, e);
    case DoCreateInvoice(_, _, _) => EarlyStepsDeliverNothing(s, e);
    case _ => OtherStepsDeliverNothing(s, e);
  }

  predicate Closed(st: OrderState) {
    st in {Rejected, Cancelled, Expired, Confirmed}
  }

  /** No step of the saga reopens a closed order. */
  lemma {:induction false} ClosedStays(s: State, e: Event, o: OrderId)
    requires o in s.orders && Closed(s.orders[o].state)
    ensures o in Apply(s, e).orders && Apply(s, e).orders[o].state == s.orders[o].state
  {
    match e
    case DoIntake(x, items) => EarlyStepsLeaveClosed(s, e, o);
    case DoBegin(x, expiresAt) => EarlyStepsLeaveClosed(s, e, o);
    case DoRejectIntake(x) => EarlyStepsLeaveClosed(s, e, o);
    case DoCreateInvoice(x, outcome, expiresAt) => EarlyStepsLeaveClosed(s, e, o);
    case DoAttach(x, k) => EarlyStepsLeaveClosed(s, e, o);
    case DoCancel(x, reason) => CancelLeavesClosed(s, x, reason, o);
    case DoMarkRejection(x) => RejectionLeavesClosed(s, x, o);
    case DoConfirm(x) => ConfirmLeavesClosed(s, x, o);
    case DoExpire(x) => ExpiryLeavesClosed(s, x, o);
    case _ =>
  }

  lemma EarlyStepsLeaveClosed(s: State, e: Event, o: OrderId)
    requires o in s.orders && Closed(s.orders[o].state)
    requires e.DoIntake? || e.DoBegin? || e.DoRejectIntake? || e.DoCreateInvoice? || e.DoAttach?
    ensures o in Apply(s, e).orders && Apply(s, e).orders[o].state == s.orders[o].state
  {
  }

  lemma CancelLeavesClosed(s: State, x: OrderId, reason: string, o: OrderId)
    requires o in s.orders && Closed(s.orders[o].state)
    ensures var t := Cancel(s, x, reason).state; o in t.orders && t.orders[o].state == s.orders[o].state
  {
  }

  lemma RejectionLeavesClosed(s: State, x: OrderId, o: OrderId)
    requires o in s.orders && Closed(s.orders[o].state)
    ensures var t := MarkRejection(s, x).state; o in t.orders && t.orders[o].state == s.orders[o].state
  {
  }

  lemma ExpiryLeavesClosed(s: State, x: OrderId, o: OrderId)
    requires o in s.orders && Closed(s.orders[o].state)
    ensures var t := ExpireOrder(s, x).state; o in t.orders && t.orders[o].state == s.orders[o].state
  {
  }

  lemma ConfirmLeavesClosed(s: State, x: OrderId, o: OrderId)
    requires o in s.orders && Closed(s.orders[o].state)
    ensures var t := ConfirmSettlement(s, x).state; o in t.orders && t.orders[o].state == s.orders[o].state
  {
    SettlementBooks(s, x);
  }

  /** Once an order is cancelled (or otherwise closed) no later step, in any order, delivers its invoice. */
  lemma {:induction false} NoLateDelivery(s: State, events: seq<Event>, o: OrderId)
    requires o in s.orders && Closed(s.orders[o].state)
    ensures o in Run(s, events).orders && Run(s, events).orders[o].state == s.orders[o].state
    ensures DeliveredTo(Run(s, events).deliveries, o) == DeliveredTo(s.deliveries, o)
  {
    if events != [] {
      var before, e := Run(s, events[..|events| - 1]), events[|events| - 1];
      NoLateDelivery(s, events[..|events| - 1], o);
      ClosedStays(before, e, o);
      if DeliveredTo(Apply(before, e).deliveries, o) != DeliveredTo(before.deliveries, o) {
        OnlyAttachDelivers(before, e, o);
      }
    }
  }

  // ---- Settlement ----

  /** A settlement goes through: the projection exists and is neither settled nor failed. */
  predicate Settleable(s: State, o: OrderId) {
    o in s.orders && o in s.payments && s.payments[o].status !in {Settled, Failed}
  }

  predicate Duplicate(e: Event, o: OrderId) {
    (e.DoConfirm? || e.DoAttach?) && e.order == o
  }

  predicate IsSettled(s: State, o: OrderId) {
    o in s.orders && o in s.payments && s.payments[o].status == Settled
  }

  /** The events of a run that are not settlements or attaches of `o`. */
  function WithoutDuplicates(events: seq<Event>, o: OrderId): seq<Event> {
    if events == [] then []
    else
      var front := WithoutDuplicates(events[..|events| - 1], o);
      if Duplicate(events[|events| - 1], o) then front else front + [events[|events| - 1]]
  }

  /** Payments only advance: settled and failed are final, pending can only become settled. */
  predicate Advances(s: State, t: State, o: OrderId) {
    o in s.orders && o in s.payments ==>
      && o in t.orders && o in t.payments
      && (s.payments[o].status in {Settled, Failed} ==> t.payments[o].status == s.payments[o].status)
      && (s.payments[o].status == Pending ==> t.payments[o].status in {Pending, Settled})
  }

  lemma EarlyStepsAdvance(s: State, e: Event, o: OrderId)
    requires e.DoIntake? || e.DoBegin? || e.DoRejectIntake? || e.DoCreateInvoice? || e.DoReenqueue?
             || e.CorePays? || e.CoreExpires? || e.DeleteProduct?
    ensures Advances(s, Apply(s, e), o)
  {
  }

  lemma ClosingStepsAdvance(s: State, x: OrderId, reason: string, o: OrderId)
    ensures Advances(s, Cancel(s, x, reason).state, o) && Advances(s, ExpireOrder(s, x).state, o)
  {
  }

  lemma RejectionAdvances(s: State, x: OrderId, o: OrderId)
    ensures Advances(s, MarkRejection(s, x).state, o)
  {
  }

  lemma UnknownAdvances(s: State, x: OrderId, o: OrderId)
    ensures Advances(s, MarkUnknown(s, x).state, o)
  {
  }

  lemma AttachAdvances(s: State, x: OrderId, hash: nat, expiresAt: int, o: OrderId)
    ensures Advances(s, Attach(s, x, hash, expiresAt).state, o)
  {
  }

  /** Every step of every order. */
  lemma PaymentsAdvance(s: State, e: Event, o: OrderId)
    ensures Advances(s, Apply(s, e), o)
  {
    match e
    case DoCancel(x, reason) => ClosingStepsAdvance(s, x, reason, o);
    case DoExpire(x) => ClosingStepsAdvance(s, x, "", o);
    case DoMarkRejection(x) => RejectionAdvances(s, x, o);
    case DoMarkUnknown(x) => UnknownAdvances(s, x, o);
    case DoAttach(x, k) =>
      if k < |CoreFor(s, x)| {
        AttachAdvances(s, x, CoreFor(s, x)[k].hash, CoreFor(s, x)[k].expiresAt, o);
      }
    case DoConfirm(x) => SettlementBooks(s, x);
    case _ => EarlyStepsAdvance(s, e, o);
  }

  /**
   * Once a payment is settled, any further callbacks, reconciliation confirmations and attaches of its order can be
   * struck out of any sequence of steps, of this and of all other orders, without changing any table.
   */
  lemma {:induction false} DuplicatesChangeNothing(s: State, o: OrderId, events: seq<Event>)
    requires IsSettled(s, o)
    ensures Run(s, events) == Run(s, WithoutDuplicates(events, o)) && IsSettled(Run(s, events), o)
  {
    if events != [] {
      var front, e := events[..|events| - 1], events[|events| - 1];
      DuplicatesChangeNothing(s, o, front);
      PaymentsAdvance(Run(s, front), e, o);
      if Duplicate(e, o) {
        DuplicateIsNoOp(Run(s, front), o, e);
      } else {
        RunPush(s, WithoutDuplicates(front, o), e);
      }
    }
  }

  /** So one settlement and any number of its duplicates, interleaved with anything, end like the one settlement. */
  lemma {:induction false} SettlementIsIdempotent(s: State, o: OrderId, events: seq<Event>)
    requires Settleable(s, o)
    ensures
      Run(ConfirmSettlement(s, o).state, events) == Run(ConfirmSettlement(s, o).state, WithoutDuplicates(events, o))
    ensures IsSettled(Run(ConfirmSettlement(s, o).state, events), o)
  {
    SettlementBooks(s, o);
    DuplicatesChangeNothing(ConfirmSettlement(s, o).state, o, events);
  }

  lemma DuplicateIsNoOp(t: State, o: OrderId, e: Event)
    requires o in t.orders && o in t.payments && t.payments[o].status == Settled && Duplicate(e, o)
    ensures Apply(t, e) == t
  {
  }

  lemma CloseHeldCommutes(rows: seq<Reservation>, o: OrderId, x: OrderId, to: ReservationState)
    requires o != x && to != Held
    ensures CloseHeld(CloseHeld(rows, o, to), x, to) == CloseHeld(CloseHeld(rows, x, to), o, to)
  {
  }

  lemma SellAt(products: map<ProductId, Product>, rows: seq<Reservation>, o: OrderId, p: ProductId)
    requires p in products
    ensures p in Sell(products, rows, o)
    ensures
      var was, held := products[p], HeldBy(rows, o, p);
      Sell(products, rows, o)[p] ==
      Product(Minus(was.onHand, held), was.reserved - held, was.deleted, was.revision + HeldRows(rows, o, p))
  {
  }

  /** Selling for one order takes what it held, also after another order's rows were consumed. */
  lemma SellClosed(stock: map<ProductId, Product>, rows: seq<Reservation>, o: OrderId, x: OrderId, p: ProductId)
    requires o != x && p in stock
    ensures p in Sell(stock, CloseHeld(rows, o, Consumed), x)
    ensures Sell(stock, CloseHeld(rows, o, Consumed), x)[p] == Sell(stock, rows, x)[p]
  {
    SellAt(stock, CloseHeld(rows, o, Consumed), x, p);
    SellAt(stock, rows, x, p);
    CloseHeldOthers(rows, o, Consumed, x, p);
  }

  lemma SellSwaps(products: map<ProductId, Product>, rows: seq<Reservation>, o: OrderId, x: OrderId, p: ProductId)
    requires p in products
    ensures p in Sell(Sell(products, rows, o), rows, x) && p in Sell(Sell(products, rows, x), rows, o)
    ensures Sell(Sell(products, rows, o), rows, x)[p] == Sell(Sell(products, rows, x), rows, o)[p]
  {
    SellAt(products, rows, o, p);
    SellAt(products, rows, x, p);
    SellAt(Sell(products, rows, o), rows, x, p);
    SellAt(Sell(products, rows, x), rows, o, p);
  }

  lemma SellCommutes(products: map<ProductId, Product>, rows: seq<Reservation>, o: OrderId, x: OrderId)
    requires o != x
    ensures Sell(Sell(products, rows, o), CloseHeld(rows, o, Consumed), x)
         == Sell(Sell(products, rows, x), CloseHeld(rows, x, Consumed), o)
  {
    var first, second := Sell(products, rows, o), Sell(products, rows, x);
    var left, right := Sell(first, CloseHeld(rows, o, Consumed), x), Sell(second, CloseHeld(rows, x, Consumed), o);
    forall p | p in products ensures left[p] == right[p] {
      SellClosed(first, rows, o, x, p);
      SellClosed(second, rows, x, o, p);
      SellSwaps(products, rows, o, x, p);
    }
  }

  /** What settlement decides: stock, reservations, orders and payments. */
  predicate SameBooks(s: State, t: State) {
    s.products == t.products && s.reservations == t.reservations && s.orders == t.orders && s.payments == t.payments
  }

  lemma SellThenLate(products: map<ProductId, Product>, rows: seq<Reservation>, o: OrderId, x: OrderId)
    requires o != x
    ensures Sell(products, rows, o) == Sell(products, CloseHeld(rows, x, Consumed), o)
  {
    forall p | p in products ensures Sell(products, rows, o)[p] == Sell(products, CloseHeld(rows, x, Consumed), o)[p] {
      CloseHeldOthers(rows, x, Consumed, o, p);
    }
  }

  predicate Sells(s: State, o: OrderId) {
    Settleable(s, o) && s.orders[o].state == AwaitingPayment
  }

  /** What one settlement does to the books. */
  predicate Booked(s: State, t: State, o: OrderId) {
    && t.products == (if Sells(s, o) then Sell(s.products, s.reservations, o) else s.products)
    && t.reservations == (if Sells(s, o) then CloseHeld(s.reservations, o, Consumed) else s.reservations)
    && t.orders == (if Sells(s, o) then s.orders[o := s.orders[o].(state := Confirmed)]
                    else if Settleable(s, o) then s.orders[o := s.orders[o].(exception := true)] else s.orders)
    && t.payments == (if Settleable(s, o) then s.payments[o := s.payments[o].(status := Settled)] else s.payments)
  }

  lemma SettlementBooks(s: State, o: OrderId)
    ensures Booked(s, ConfirmSettlement(s, o).state, o)
  {
  }

  lemma DecisionsCommute(s: State, so: State, o: OrderId, x: OrderId)
    requires o != x && Booked(s, so, o)
    ensures (Settleable(so, x) <==> Settleable(s, x)) && (Sells(so, x) <==> Sells(s, x))
  {
  }

  lemma StockCommutes(s: State, so: State, sx: State, sox: State, sxo: State, o: OrderId, x: OrderId)
    requires o != x && Booked(s, so, o) && Booked(s, sx, x) && Booked(so, sox, x) && Booked(sx, sxo, o)
    ensures sox.products == sxo.products && sox.reservations == sxo.reservations
  {
    DecisionsCommute(s, so, o, x);
    DecisionsCommute(s, sx, x, o);
    CloseHeldCommutes(s.reservations, o, x, Consumed);
    SellCommutes(s.products, s.reservations, o, x);
    SellThenLate(s.products, s.reservations, o, x);
    SellThenLate(s.products, s.reservations, x, o);
  }

  lemma BooksCommute(s: State, so: State, sx: State, sox: State, sxo: State, o: OrderId, x: OrderId)
    requires o != x && Booked(s, so, o) && Booked(s, sx, x) && Booked(so, sox, x) && Booked(sx, sxo, o)
    ensures SameBooks(sox, sxo)
  {
    StockCommutes(s, so, sx, sox, sxo, o, x);
    DecisionsCommute(s, so, o, x);
    DecisionsCommute(s, sx, x, o);
    assert sox.orders == sxo.orders;
    assert sox.payments == sxo.payments;
  }

  /** Settlements of different orders commute. */
  lemma {:induction false} SettlementsCommute(s: State, o: OrderId, x: OrderId)
    requires o != x
    ensures SameBooks(ConfirmSettlement(ConfirmSettlement(s, o).state, x).state,
                      ConfirmSettlement(ConfirmSettlement(s, x).state, o).state)
  {
    var so, sx := ConfirmSettlement(s, o).state, ConfirmSettlement(s, x).state;
    SettlementBooks(s, o);
    SettlementBooks(s, x);
    SettlementBooks(so, x);
    SettlementBooks(sx, o);
    BooksCommute(s, so, sx, ConfirmSettlement(so, x).state, ConfirmSettlement(sx, o).state, o, x);
  }

  /** A settlement moves stock or an order exactly when the order still awaits its payment. */
  lemma LateSettlementTouchesNothing(s: State, o: OrderId)
    requires Settleable(s, o)
    ensures
      var t := ConfirmSettlement(s, o).state;
      && t.payments == s.payments[o := s.payments[o].(status := Settled)]
      && (s.orders[o].state != AwaitingPayment <==> t.orders[o].state == s.orders[o].state)
      && (s.orders[o].state != AwaitingPayment ==>
            && t.products == s.products && t.reservations == s.reservations
            && t.orders == s.orders[o := s.orders[o].(exception := true)])
  {
    SettlementBooks(s, o);
  }

  // ---- What no step takes away ----

  /** Orders stay, and the first invoice LNbits holds for an order keeps its hash. */
  predicate Grows(s: State, t: State, o: OrderId) {
    && s.orders.Keys <= t.orders.Keys
    && (CoreFor(s, o) != [] ==> CoreFor(t, o) != [] && CoreFor(t, o)[0].hash == CoreFor(s, o)[0].hash)
  }

  lemma IntakeGrows(s: State, x: OrderId, items: seq<Item>, o: OrderId)
    ensures Grows(s, Intake(s, x, items).state, o) && Grows(s, RejectIntake(s, x).state, o)
  {
  }

  lemma BeginGrows(s: State, x: OrderId, expiresAt: int, o: OrderId)
    ensures Grows(s, Begin(s, x, expiresAt).state, o)
  {
  }

  lemma ClosingStepsGrow(s: State, x: OrderId, reason: string, o: OrderId)
    ensures Grows(s, Cancel(s, x, reason).state, o) && Grows(s, ExpireOrder(s, x).state, o)
  {
  }

  lemma RejectionGrows(s: State, x: OrderId, o: OrderId)
    ensures Grows(s, MarkRejection(s, x).state, o)
  {
  }

  lemma UnknownGrows(s: State, x: OrderId, o: OrderId)
    ensures Grows(s, MarkUnknown(s, x).state, o)
  {
  }

  lemma AttachGrows(s: State, x: OrderId, hash: nat, expiresAt: int, o: OrderId)
    ensures Grows(s, Attach(s, x, hash, expiresAt).state, o)
  {
  }

  lemma SettlementGrows(s: State, x: OrderId, o: OrderId)
    ensures Grows(s, ConfirmSettlement(s, x).state, o)
  {
  }

  lemma CreateInvoiceGrows(s: State, x: OrderId, outcome: CallOutcome, expiresAt: int, o: OrderId)
    ensures Grows(s, CreateInvoice(s, x, outcome, expiresAt).state, o)
  {
  }

  lemma CoreStepsGrow(s: State, e: Event, o: OrderId)
    requires e.DoReenqueue? || e.CorePays? || e.CoreExpires? || e.DeleteProduct?
    ensures Grows(s, Apply(s, e), o)
  {
  }

  lemma StepGrows(s: State, e: Event, o: OrderId)
    ensures Grows(s, Apply(s, e), o)
  {
    match e
    case DoIntake(x, items) => IntakeGrows(s, x, items, o);
    case DoRejectIntake(x) => IntakeGrows(s, x, [], o);
    case DoBegin(x, expiresAt) => BeginGrows(s, x, expiresAt, o);
    case DoCancel(x, reason) => ClosingStepsGrow(s, x, reason, o);
    case DoExpire(x) => ClosingStepsGrow(s, x, "", o);
    case DoMarkRejection(x) => RejectionGrows(s, x, o);
    case DoMarkUnknown(x) => UnknownGrows(s, x, o);
    case DoAttach(x, k) =>
      if k < |CoreFor(s, x)| {
        AttachGrows(s, x, CoreFor(s, x)[k].hash, CoreFor(s, x)[k].expiresAt, o);
      }
    case DoConfirm(x) => SettlementGrows(s, x, o);
    case DoCreateInvoice(x, outcome, expiresAt) => CreateInvoiceGrows(s, x, outcome, expiresAt, o);
    case _ => CoreStepsGrow(s, e, o);
  }

  // ---- The unguarded attach of the harness ----

  /** harness/saga.py updates the projection whatever its status is. */
  function HarnessAttach(s: State, o: OrderId, hash: nat, expiresAt: int): Step {
    if o !in s.orders then Step(s, MissingOrder)
    else if o !in s.payments then Step(s, AttachConflict)
    else Attach(s.(payments := s.payments[o := s.payments[o].(status := Creating)]), o, hash, expiresAt)
  }

  /** It agrees with the guarded attach exactly when the projection was still open. */
  lemma HarnessAttachIsGuardedExactly(s: State, o: OrderId, hash: nat, expiresAt: int)
    ensures
      HarnessAttach(s, o, hash, expiresAt) == Attach(s, o, hash, expiresAt) <==>
      o in s.orders && o in s.payments ==> s.payments[o].status in {Creating, CreationUnknown}
    ensures o in s.orders && o in s.payments ==>
      HarnessAttach(s, o, hash, expiresAt).state.payments == s.payments[o := Payment(Pending, Some(hash))]
  {
    if o in s.orders && o in s.payments && s.payments[o].status in {Creating, CreationUnknown} {
      var reopened := s.(payments := s.payments[o := s.payments[o].(status := Creating)]);
      assert reopened.payments[o := Payment(Pending, Some(hash))] == s.payments[o := Payment(Pending, Some(hash))];
    }
  }

  lemma RunPush(s: State, events: seq<Event>, e: Event)
    ensures Run(s, events + [e]) == Apply(Run(s, events), e)
  {
  }

  lemma EmptyCartIsReserved(s: State, initial: map<ProductId, Option<int>>)
    requires Fresh(s, initial)
    ensures Run(s, [DoIntake(0, []), DoBegin(0, 9)]) == Begin(Intake(s, 0, []).state, 0, 9).state
  {
    RunPush(s, [], DoIntake(0, []));
    assert [] + [DoIntake(0, [])] == [DoIntake(0, [])];
    RunPush(s, [DoIntake(0, [])], DoBegin(0, 9));
    assert [DoIntake(0, [])] + [DoBegin(0, 9)] == [DoIntake(0, []), DoBegin(0, 9)];
  }

  lemma EmptyCartHasInvoice(s: State, initial: map<ProductId, Option<int>>)
    requires Fresh(s, initial)
    ensures
      var t := CreateInvoice(Begin(Intake(s, 0, []).state, 0, 9).state, 0, Succeeds, 9).state;
      && 0 in t.orders && t.orders[0].state == InvoicePending
      && 0 in t.payments && t.payments[0].status == Creating
      && CoreFor(t, 0) == [CorePayment(s.nextHash, 9, Open)]
  {
  }

  /** The order of an empty cart on its way to `awaiting_payment`. */
  lemma EmptyCartBegins(s: State, initial: map<ProductId, Option<int>>)
    requires Fresh(s, initial)
    ensures
      var t := Run(s, [DoIntake(0, []), DoBegin(0, 9)] + [DoCreateInvoice(0, Succeeds, 9)]);
      && 0 in t.orders && t.orders[0].state == InvoicePending
      && 0 in t.payments && t.payments[0].status == Creating
      && CoreFor(t, 0) == [CorePayment(s.nextHash, 9, Open)]
  {
    EmptyCartIsReserved(s, initial);
    EmptyCartHasInvoice(s, initial);
    RunPush(s, [DoIntake(0, []), DoBegin(0, 9)], DoCreateInvoice(0, Succeeds, 9));
  }

  lemma InvoiceAttaches(t: State, hash: nat)
    requires 0 in t.orders && t.orders[0].state == InvoicePending
    requires 0 in t.payments && t.payments[0].status == Creating
    requires CoreFor(t, 0) == [CorePayment(hash, 9, Open)]
    ensures
      var a := Apply(t, DoAttach(0, 0));
      && 0 in a.orders && a.orders[0].state == AwaitingPayment
      && 0 in a.payments && a.payments[0].status == Pending
      && CoreFor(a, 0) == [CorePayment(hash, 9, Open)]
  {
  }

  lemma PaidInvoiceSettles(a: State, hash: nat)
    requires 0 in a.orders && a.orders[0].state == AwaitingPayment
    requires 0 in a.payments && a.payments[0].status == Pending
    requires CoreFor(a, 0) == [CorePayment(hash, 9, Open)]
    ensures
      var u := Apply(Apply(a, CorePays(0)), DoConfirm(0));
      0 in u.orders && 0 in u.payments && u.payments[0].status == Settled && u.orders[0].state == Confirmed
  {
    var b := Apply(a, CorePays(0));
    assert CoreIs(a, 0, Open);
    assert b == a.(core := a.core[0 := Retag(CoreFor(a, 0), Paid)]);
    SettlementBooks(b, 0);
  }

  /** From every fresh shop a run settles an order whose payment a duplicate harness attach then reopens. */
  lemma {:induction false} HarnessAttachReopensSettled(s: State, initial: map<ProductId, Option<int>>) returns (events: seq<Event>)
    requires Fresh(s, initial)
    ensures
      var t := Run(s, events);
      && 0 in t.orders && t.orders[0].state == Confirmed
      && 0 in t.payments && t.payments[0].status == Settled
      && HarnessAttach(t, 0, s.nextHash, 9).state.payments[0].status == Pending
  {
    var begun := [DoIntake(0, []), DoBegin(0, 9)] + [DoCreateInvoice(0, Succeeds, 9)];
    EmptyCartBegins(s, initial);
    InvoiceAttaches(Run(s, begun), s.nextHash);
    RunPush(s, begun, DoAttach(0, 0));
    PaidInvoiceSettles(Run(s, begun + [DoAttach(0, 0)]), s.nextHash);
    RunPush(s, begun + [DoAttach(0, 0)], CorePays(0));
    RunPush(s, begun + [DoAttach(0, 0)] + [CorePays(0)], DoConfirm(0));
    events := begun + [DoAttach(0, 0)] + [CorePays(0)] + [DoConfirm(0)];
    HarnessAttachIsGuardedExactly(Run(s, events), 0, s.nextHash, 9);
  }
}
