/** When each saga operation succeeds, and everything it then does, written on the tables themselves. */
module SagaEffects {
  import opened Wrappers
  import opened Orders
  import opened Inventory
  import opened Saga
  import opened SagaInvariant
  import opened SagaProof

  // ---- The order state machine ----

  /** The legal moves, pair by pair; completed and rejected orders have none. */
  lemma LegalMoves(from: OrderState, to: OrderState)
    ensures Legal(from, to) <==>
      || (from == Received && to in {Rejected, InvoicePending, Cancelled})
      || (from == InvoicePending && to in {AwaitingPayment, Rejected, Cancelled})
      || (from == AwaitingPayment && to in {Confirmed, Expired, Cancelled})
      || (from == Confirmed && to in {Processing, Cancelled})
      || (from == Processing && to in {Completed, Cancelled})
      || (from in {Expired, Cancelled} && to == Confirmed)
    ensures ReasonRequired(from, to) <==>
      Legal(from, to) && ((from == Confirmed && to == Cancelled) || (from in {Expired, Cancelled} && to == Confirmed))
  {
  }

  /** A transition is admitted exactly when the row is in the expected state, the move is legal and its reason is given. */
  lemma AdmittedExactly(current: Option<OrderState>, expected: Option<OrderState>, to: OrderState, reason: string)
    ensures
      Admit(current, expected, to, reason).Ok? <==>
      && current.Some? && (expected.Some? ==> expected == current)
      && Legal(current.value, to) && (ReasonRequired(current.value, to) ==> reason != "")
    ensures Admit(current, expected, to, reason).Ok? ==> Admit(current, expected, to, reason).value == current.value
    ensures
      var from := if expected.Some? then expected else current;
      Admit(current, expected, to, reason) == Err(IllegalTransition) <==>
      from.Some? && (!Legal(from.value, to) || (ReasonRequired(from.value, to) && reason == ""))
  {
  }

  // ---- Shared parts of the effects ----

  /** The rows the order held, and no others, pass to `to`. */
  predicate Flips(before: seq<Reservation>, after: seq<Reservation>, o: OrderId, to: ReservationState) {
    && |after| == |before|
    && forall i :: 0 <= i < |before| ==>
         after[i] == if before[i].order == o && before[i].state == Held then before[i].(state := to) else before[i]
  }

  /** The order alone moves, with its audit row. */
  predicate MovesOrder(s: State, t: State, o: OrderId, to: OrderState, reason: string) {
    && o in s.orders && t.orders == s.orders[o := s.orders[o].(state := to)]
    && t.events == s.events + [OrderEvent(o, Some(s.orders[o].state), to, reason)]
  }

  /** One more intent, unless it is there already. */
  predicate Tells(s: State, t: State, intent: Intent) {
    && t.outbox.Keys == s.outbox.Keys + {intent}
    && (forall i :: i in s.outbox ==> t.outbox[i] == s.outbox[i])
    && (intent !in s.outbox ==> t.outbox[intent] == 1)
  }

  predicate SameInvoices(s: State, t: State) {
    && t.carts == s.carts && t.core == s.core && t.nextHash == s.nextHash
    && t.pendingCalls == s.pendingCalls && t.createCalls == s.createCalls
  }

  predicate SameStock(s: State, t: State) {
    t.products == s.products && t.reservations == s.reservations
  }

  /** Each product keeps everything but `reserved`, which falls by what the order held of it. */
  predicate StockReturned(s: State, t: State, o: OrderId, held: seq<Item>) {
    && t.products.Keys == s.products.Keys
    && forall p :: p in s.products ==>
         t.products[p] == s.products[p].(reserved := s.products[p].reserved - QtyOf(held, p))
  }

  /** What an order holds: its cart, from the claim until the order is closed. */
  function HeldCart(s: State, o: OrderId): seq<Item> {
    if o in s.orders && s.orders[o].state in {InvoicePending, AwaitingPayment} then CartFor(s, o) else []
  }

  /** How many rows of a cart name the product. */
  function Rows(items: seq<Item>, p: ProductId): nat {
    multiset(seq(|items|, i requires 0 <= i < |items| => items[i].product))[p]
  }

  lemma {:induction false} RowsSnoc(items: seq<Item>, x: Item, p: ProductId)
    ensures Rows(items + [x], p) == Rows(items, p) + if x.product == p then 1 else 0
  {
    var a := seq(|items|, i requires 0 <= i < |items| => items[i].product);
    var b := seq(|items| + 1, i requires 0 <= i < |items| + 1 => (items + [x])[i].product);
    assert b == a + [x.product];
  }

  lemma {:induction false} HeldRowsAreCart(rows: seq<Reservation>, o: OrderId, p: ProductId)
    requires forall i :: 0 <= i < |rows| && rows[i].order == o ==> rows[i].state == Held
    ensures HeldBy(rows, o, p) == QtyOf(CartOf(rows, o), p)
    ensures HeldRows(rows, o, p) == Rows(CartOf(rows, o), p)
  {
    if rows != [] {
      var front, last := rows[..|rows| - 1], rows[|rows| - 1];
      HeldRowsAreCart(front, o, p);
      RowsSnoc(CartOf(front, o), last.item, p);
      QtyOfAppend(CartOf(front, o), last.item, p);
    }
  }

  lemma {:induction false} ClosedRowsHoldNothing(rows: seq<Reservation>, o: OrderId, p: ProductId)
    requires forall i :: 0 <= i < |rows| && rows[i].order == o ==> rows[i].state != Held
    ensures HeldBy(rows, o, p) == 0 && HeldRows(rows, o, p) == 0
  {
    if rows != [] {
      ClosedRowsHoldNothing(rows[..|rows| - 1], o, p);
    }
  }

  /** In every state that satisfies the invariant an order holds exactly its held cart. */
  lemma HoldsItsCart(s: State, initial: map<ProductId, Option<int>>, o: OrderId, p: ProductId)
    requires Inv(s, initial)
    ensures HeldBy(s.reservations, o, p) == QtyOf(HeldCart(s, o), p)
    ensures HeldRows(s.reservations, o, p) == Rows(HeldCart(s, o), p)
  {
    assert OrderOk(ViewOf(s, o));
    if o in s.orders && s.orders[o].state in {InvoicePending, AwaitingPayment} {
      HeldRowsAreCart(s.reservations, o, p);
    } else {
      EmptyCartNoRows(s.reservations, o);
      ClosedRowsHoldNothing(s.reservations, o, p);
    }
  }

  // ---- Intake and claim ----

  lemma IntakeExactly(s: State, o: OrderId, items: seq<Item>)
    ensures
      var step := Intake(s, o, items);
      && (step.reply == Done <==> o !in s.orders) && (step.reply != Done ==> step.state == s && step.reply == Refused)
      && (step.reply == Done ==>
            && step.state.orders == s.orders[o := Order(Received, false)] && step.state.carts == s.carts[o := items]
            && step.state.events == s.events + [OrderEvent(o, None, Received, "")]
            && SameStock(s, step.state) && step.state.payments == s.payments && step.state.outbox == s.outbox
            && step.state.core == s.core && step.state.deliveries == s.deliveries)
  {
  }

  /** A cart can be claimed exactly when each of its products is live and what is not reserved covers its total. */
  lemma ClaimableExactly(products: map<ProductId, Product>, items: seq<Item>)
    ensures Claimable(products, items) <==>
      forall x :: x in items ==>
        && x.product in products && !products[x.product].deleted
        && (products[x.product].onHand.Some? ==>
              products[x.product].reserved + QtyOf(items, x.product) <= products[x.product].onHand.value)
  {
    ClaimableByMembership(products, items);
  }

  lemma BeginReplies(s: State, o: OrderId, expiresAt: int)
    ensures
      var step := Begin(s, o, expiresAt);
      && (step.reply == MissingOrder <==> o !in s.orders)
      && (step.reply == StockConflict <==> o in s.orders && !Claimable(s.products, CartFor(s, o)))
      && (step.reply == StateConflict <==>
            o in s.orders && Claimable(s.products, CartFor(s, o)) && s.orders[o].state != Received)
      && step.reply in {Done, MissingOrder, StockConflict, StateConflict, ConstraintViolation}
  {
  }

  /** The constraints: one row per order and product, one item per product, one projection per order. */
  lemma BeginConstraints(s: State, o: OrderId, expiresAt: int)
    requires o in s.orders && s.orders[o].state == Received && Claimable(s.products, CartFor(s, o))
    ensures
      var items := CartFor(s, o);
      Begin(s, o, expiresAt).reply == ConstraintViolation <==>
      || o in s.payments || (exists x :: x in items && QtyOf(items, x.product) != x.qty)
      || (exists r, x :: r in s.reservations && x in items && r.order == o && r.item.product == x.product)
  {
    var items := CartFor(s, o);
    DistinctByTotals(items);
    if Reserved(s.reservations, o, items) {
      var i, j :| 0 <= i < |s.reservations| && 0 <= j < |items|
                  && s.reservations[i].order == o && s.reservations[i].item.product == items[j].product;
      assert s.reservations[i] in s.reservations && items[j] in items;
    }
    if r, x :| r in s.reservations && x in items && r.order == o && r.item.product == x.product {
      var i :| 0 <= i < |s.reservations| && s.reservations[i] == r;
      var j :| 0 <= j < |items| && items[j] == x;
      assert s.reservations[i].item.product == items[j].product;
    }
  }

  /** A claim that succeeds: one held row per item, a new projection, and the right to call LNbits once. */
  lemma BeginEffect(s: State, o: OrderId, expiresAt: int)
    requires Begin(s, o, expiresAt).reply == Done
    ensures
      var t := Begin(s, o, expiresAt).state;
      && MovesOrder(s, t, o, InvoicePending, "")
      && t.payments == s.payments[o := Payment(Creating, None)]
      && t.pendingCalls == s.pendingCalls + {o}
      && |t.reservations| == |s.reservations| + |CartFor(s, o)| && t.reservations[..|s.reservations|] == s.reservations
      && (forall i :: 0 <= i < |CartFor(s, o)| ==>
            t.reservations[|s.reservations| + i] == Reservation(o, CartFor(s, o)[i], Held, expiresAt))
      && t.products.Keys == s.products.Keys
      && (forall p :: p in s.products ==>
            t.products[p] == s.products[p].(reserved := s.products[p].reserved + QtyOf(CartFor(s, o), p)))
      && t.carts == s.carts && t.outbox == s.outbox && t.core == s.core && t.nextHash == s.nextHash
      && t.createCalls == s.createCalls && t.deliveries == s.deliveries
  {
  }

  lemma RejectIntakeExactly(s: State, o: OrderId)
    ensures
      var step := RejectIntake(s, o);
      && (step.reply == Done <==> o in s.orders && s.orders[o].state == Received)
      && (step.reply != Done ==> step.state == s && step.reply == Refused)
      && (step.reply == Done ==>
            && MovesOrder(s, step.state, o, Rejected, "intake-rejected") && SameStock(s, step.state)
            && SameInvoices(s, step.state) && step.state.payments == s.payments && step.state.outbox == s.outbox
            && step.state.deliveries == s.deliveries)
  {
  }

  // ---- The invoice ----

  /** Only a claim's own worker calls, once; LNbits then holds an open invoice unless it rejected or lost the call. */
  lemma CreateInvoiceExactly(s: State, o: OrderId, outcome: CallOutcome, expiresAt: int)
    ensures
      var step := CreateInvoice(s, o, outcome, expiresAt);
      var t := step.state;
      && (step.reply == Refused <==> o !in s.pendingCalls) && (step.reply == Refused ==> t == s)
      && (step.reply == Invoiced(s.nextHash) <==> o in s.pendingCalls && outcome.Succeeds?)
      && (step.reply == CallRejected <==> o in s.pendingCalls && outcome.Rejects?)
      && (step.reply == CallTimedOut <==> o in s.pendingCalls && outcome.TimesOut?)
      && (o in s.pendingCalls ==>
            && t.pendingCalls == s.pendingCalls - {o} && t.createCalls == s.createCalls[o := CallsFor(s, o) + 1]
            && (if outcome == Succeeds || outcome == TimesOut(true)
                then CoreFor(t, o) == CoreFor(s, o) + [CorePayment(s.nextHash, expiresAt, Open)] && t.nextHash == s.nextHash + 1
                else CoreFor(t, o) == CoreFor(s, o) && t.nextHash == s.nextHash)
            && (forall x: OrderId :: x != o ==> CoreFor(t, x) == CoreFor(s, x))
            && SameStock(s, t) && t.orders == s.orders && t.payments == s.payments && t.events == s.events
            && t.outbox == s.outbox && t.carts == s.carts && t.deliveries == s.deliveries)
  {
  }

  lemma AttachReplies(s: State, o: OrderId, hash: nat, expiresAt: int)
    ensures
      var reply := Attach(s, o, hash, expiresAt).reply;
      && (reply == MissingOrder <==> o !in s.orders)
      && (reply == AlreadyAttached <==>
            o in s.orders && o in s.payments && s.payments[o].status !in {Creating, CreationUnknown}
            && s.payments[o].hash == Some(hash))
      && (reply == Attached(true) <==>
            o in s.orders && o in s.payments && s.payments[o].status in {Creating, CreationUnknown}
            && s.orders[o].state == InvoicePending)
      && (reply == Attached(false) <==>
            o in s.orders && o in s.payments && s.payments[o].status in {Creating, CreationUnknown}
            && s.orders[o].state != InvoicePending)
      && reply in {MissingOrder, AlreadyAttached, AttachConflict, Attached(true), Attached(false)}
      && (reply !in {Attached(true), Attached(false)} ==> Attach(s, o, hash, expiresAt).state == s)
  {
  }

  /** The invoice always reaches the projection; only an order that waits for it is moved, told and delivered to. */
  lemma AttachEffect(s: State, o: OrderId, hash: nat, expiresAt: int)
    requires Attach(s, o, hash, expiresAt).reply in {Attached(true), Attached(false)}
    ensures
      var t := Attach(s, o, hash, expiresAt).state;
      && t.payments == s.payments[o := Payment(Pending, Some(hash))] && t.products == s.products && SameInvoices(s, t)
      && (Attach(s, o, hash, expiresAt).reply == Attached(false) ==>
            t.reservations == s.reservations && t.orders == s.orders && t.events == s.events && t.outbox == s.outbox
            && t.deliveries == s.deliveries)
      && (Attach(s, o, hash, expiresAt).reply == Attached(true) ==>
            && MovesOrder(s, t, o, AwaitingPayment, "") && Tells(s, t, PaymentRequest(o))
            && t.deliveries == s.deliveries + [Delivery(o, hash)]
            && |t.reservations| == |s.reservations|
            && forall i :: 0 <= i < |s.reservations| ==>
                 t.reservations[i] == if s.reservations[i].order == o && s.reservations[i].state == Held
                                      then s.reservations[i].(expiresAt := expiresAt) else s.reservations[i])
  {
  }

  /** A timeout leaves the outcome open, flags the order, and nothing else. */
  lemma MarkUnknownPayments(s: State, o: OrderId)
    ensures
      var t := MarkUnknown(s, o).state;
      && t.payments.Keys == s.payments.Keys
      && forall x :: x in s.payments ==>
           t.payments[x] == if x == o && s.payments[x].status == Creating
                            then s.payments[x].(status := CreationUnknown) else s.payments[x]
  {
  }

  lemma MarkUnknownFlags(s: State, o: OrderId)
    ensures MarkUnknown(s, o).reply == Done
    ensures
      var t := MarkUnknown(s, o).state;
      && t.orders == (if o in s.orders then s.orders[o := s.orders[o].(exception := true)] else s.orders)
      && SameStock(s, t) && SameInvoices(s, t) && t.events == s.events && t.outbox == s.outbox && t.deliveries == s.deliveries
  {
  }

  // ---- Closing an order ----

  lemma CancelReplies(s: State, o: OrderId, reason: string)
    ensures
      var step := Cancel(s, o, reason);
      && (step.reply == MissingOrder <==> o !in s.orders)
      && (step.reply == Done <==> o in s.orders && s.orders[o].state in {Received, InvoicePending, AwaitingPayment})
      && (step.reply == AlreadyCancelled <==> o in s.orders && s.orders[o].state == Cancelled)
      && (step.reply == NotCancellable <==>
            o in s.orders && s.orders[o].state in {Confirmed, Processing, Completed, Rejected, Expired})
      && (step.reply != Done ==> step.state == s)
  {
  }

  predicate Closes(s: State, t: State, o: OrderId, to: OrderState, rows: ReservationState, reason: string) {
    MovesOrder(s, t, o, to, reason) && Flips(s.reservations, t.reservations, o, rows) && SameInvoices(s, t)
    && t.deliveries == s.deliveries
  }

  /** Giving back the rows of an order returns what the order held. */
  lemma ReturnsHeldCart(s: State, t: State, initial: map<ProductId, Option<int>>, o: OrderId)
    requires Inv(s, initial) && t.products == GiveBack(s.products, s.reservations, o)
    ensures StockReturned(s, t, o, HeldCart(s, o))
  {
    forall p | p in s.products ensures HeldBy(s.reservations, o, p) == QtyOf(HeldCart(s, o), p) {
      HoldsItsCart(s, initial, o, p);
    }
  }

  lemma CancelEffect(s: State, initial: map<ProductId, Option<int>>, o: OrderId, reason: string)
    requires Inv(s, initial) && Cancel(s, o, reason).reply == Done
    ensures
      var t := Cancel(s, o, reason).state;
      && Closes(s, t, o, Cancelled, Released, reason) && StockReturned(s, t, o, HeldCart(s, o))
      && t.payments == s.payments && Tells(s, t, StatusCancelled(o))
  {
    ReturnsHeldCart(s, Cancel(s, o, reason).state, initial, o);
  }

  /**
   * In every reachable state a cancel succeeds exactly on a received, invoice_pending or awaiting order. It then closes the
   * order, releases its rows, returns exactly the stock it held and tells the buyer; otherwise it changes nothing.
   */
  lemma {:induction false} CancelSucceedsExactly(
    start: State, initial: map<ProductId, Option<int>>, events: seq<Event>, o: OrderId, reason: string)
    requires Fresh(start, initial)
    ensures
      var s := Run(start, events);
      var step := Cancel(s, o, reason);
      && (step.reply == Done <==> o in s.orders && s.orders[o].state in {Received, InvoicePending, AwaitingPayment})
      && (step.reply == AlreadyCancelled <==> o in s.orders && s.orders[o].state == Cancelled)
      && (step.reply == MissingOrder <==> o !in s.orders)
      && (step.reply != Done ==> step.state == s && step.reply in {AlreadyCancelled, MissingOrder, NotCancellable})
      && (step.reply == Done ==>
            && Closes(s, step.state, o, Cancelled, Released, reason) && StockReturned(s, step.state, o, HeldCart(s, o))
            && step.state.payments == s.payments && Tells(s, step.state, StatusCancelled(o)))
  {
    FreshInv(start, initial);
    RunKeeps(start, initial, events);
    CancelReplies(Run(start, events), o, reason);
    if Cancel(Run(start, events), o, reason).reply == Done {
      CancelEffect(Run(start, events), initial, o, reason);
    }
  }

  lemma ExpiryEffect(s: State, initial: map<ProductId, Option<int>>, o: OrderId)
    requires Inv(s, initial) && ExpireOrder(s, o).reply == Done
    ensures
      var t := ExpireOrder(s, o).state;
      && Closes(s, t, o, Expired, Lapsed, "invoice-expired-unpaid") && StockReturned(s, t, o, CartFor(s, o))
      && t.payments == s.payments && Tells(s, t, StatusCancelled(o))
  {
    ReturnsHeldCart(s, ExpireOrder(s, o).state, initial, o);
  }

  lemma ExpiryReplies(s: State, o: OrderId)
    ensures
      var step := ExpireOrder(s, o);
      && (step.reply == MissingOrder <==> o !in s.orders)
      && (step.reply == Done <==> o in s.orders && s.orders[o].state == AwaitingPayment)
      && (step.reply == NotAwaiting <==> o in s.orders && s.orders[o].state != AwaitingPayment)
      && (step.reply != Done ==> step.state == s)
  {
  }

  /** In every reachable state an expiry succeeds exactly on an awaiting order, and returns exactly its cart. */
  lemma {:induction false} ExpirySucceedsExactly(start: State, initial: map<ProductId, Option<int>>, events: seq<Event>, o: OrderId)
    requires Fresh(start, initial)
    ensures
      var s := Run(start, events);
      var step := ExpireOrder(s, o);
      && (step.reply == Done <==> o in s.orders && s.orders[o].state == AwaitingPayment)
      && (step.reply == MissingOrder <==> o !in s.orders)
      && (step.reply != Done ==> step.state == s && step.reply in {MissingOrder, NotAwaiting})
      && (step.reply == Done ==>
            && Closes(s, step.state, o, Expired, Lapsed, "invoice-expired-unpaid")
            && StockReturned(s, step.state, o, CartFor(s, o))
            && step.state.payments == s.payments && Tells(s, step.state, StatusCancelled(o)))
  {
    FreshInv(start, initial);
    RunKeeps(start, initial, events);
    ExpiryReplies(Run(start, events), o);
    if ExpireOrder(Run(start, events), o).reply == Done {
      ExpiryEffect(Run(start, events), initial, o);
    }
  }

  /** A definitive rejection fails an open projection, and closes only an order that still waits for its invoice. */
  lemma RejectionPayments(s: State, o: OrderId)
    ensures
      var step := MarkRejection(s, o);
      && (step.reply == MissingOrder <==> o !in s.orders) && (o in s.orders ==> step.reply == Done)
      && (o !in s.orders ==> step.state == s)
      && step.state.payments.Keys == s.payments.Keys
      && (o in s.orders ==> forall x :: x in s.payments ==>
            step.state.payments[x] == if x == o && s.payments[x].status in {Creating, CreationUnknown}
                                      then s.payments[x].(status := Failed) else s.payments[x])
  {
  }

  lemma RejectionLeavesOthers(s: State, o: OrderId)
    requires o in s.orders && s.orders[o].state != InvoicePending
    ensures
      var t := MarkRejection(s, o).state;
      SameStock(s, t) && SameInvoices(s, t) && t.orders == s.orders && t.events == s.events && t.outbox == s.outbox
      && t.deliveries == s.deliveries
  {
  }

  lemma RejectionEffect(s: State, initial: map<ProductId, Option<int>>, o: OrderId)
    requires Inv(s, initial) && o in s.orders && s.orders[o].state == InvoicePending
    ensures
      var t := MarkRejection(s, o).state;
      && Closes(s, t, o, Rejected, Released, "invoice-creation-rejected") && StockReturned(s, t, o, CartFor(s, o))
      && t.outbox == s.outbox
  {
    ReturnsHeldCart(s, MarkRejection(s, o).state, initial, o);
  }

  /** In every reachable state. */
  lemma {:induction false} RejectionClosesExactly(start: State, initial: map<ProductId, Option<int>>, events: seq<Event>, o: OrderId)
    requires Fresh(start, initial) && o in Run(start, events).orders
    ensures
      var s := Run(start, events);
      var t := MarkRejection(s, o).state;
      && t.payments.Keys == s.payments.Keys
      && (forall x :: x in s.payments ==>
            t.payments[x] == if x == o && s.payments[x].status in {Creating, CreationUnknown}
                             then s.payments[x].(status := Failed) else s.payments[x])
      && if s.orders[o].state == InvoicePending
         then Closes(s, t, o, Rejected, Released, "invoice-creation-rejected") && StockReturned(s, t, o, CartFor(s, o))
              && t.outbox == s.outbox
         else SameStock(s, t) && SameInvoices(s, t) && t.orders == s.orders && t.events == s.events && t.outbox == s.outbox
              && t.deliveries == s.deliveries
  {
    FreshInv(start, initial);
    RunKeeps(start, initial, events);
    RejectionPayments(Run(start, events), o);
    if Run(start, events).orders[o].state == InvoicePending {
      RejectionEffect(Run(start, events), initial, o);
    } else {
      RejectionLeavesOthers(Run(start, events), o);
    }
  }

  // ---- Settlement ----

  lemma SettlementReplies(s: State, o: OrderId)
    ensures
      var step := ConfirmSettlement(s, o);
      && (step.reply == MissingOrder <==> o !in s.orders)
      && (step.reply == MissingPayment <==> o in s.orders && o !in s.payments)
      && (step.reply == AlreadySettled <==> o in s.orders && o in s.payments && s.payments[o].status == Settled)
      && (step.reply == SettlementConflict <==> o in s.orders && o in s.payments && s.payments[o].status == Failed)
      && (step.reply == LateSettlement <==>
            o in s.orders && o in s.payments && s.payments[o].status in {Pending, Creating, CreationUnknown}
            && s.orders[o].state != AwaitingPayment)
      && (step.reply == Done <==>
            o in s.orders && o in s.payments && s.payments[o].status in {Pending, Creating, CreationUnknown}
            && s.orders[o].state == AwaitingPayment)
      && (step.reply !in {Done, LateSettlement} ==> step.state == s)
  {
  }

  /** Each product of the cart loses its quantity on hand and reserved, with one revision per row. */
  predicate StockSold(s: State, t: State, sold: seq<Item>) {
    && t.products.Keys == s.products.Keys
    && forall p :: p in s.products ==>
         && t.products[p].onHand == (if s.products[p].onHand.Some? then Some(s.products[p].onHand.value - QtyOf(sold, p)) else None)
         && t.products[p].reserved == s.products[p].reserved - QtyOf(sold, p)
         && t.products[p].deleted == s.products[p].deleted
         && t.products[p].revision == s.products[p].revision + Rows(sold, p)
  }

  /** The buyer is told, and each sold product is republished at its new revision. */
  ghost predicate SaleTold(s: State, t: State, o: OrderId, sold: seq<Item>) {
    && (forall i :: i in t.outbox <==>
          i in s.outbox || i == StatusConfirmed(o) || (i.StockUpdate? && i.order == o && Rows(sold, i.product) > 0))
    && (forall i :: i in s.outbox ==> t.outbox[i] == s.outbox[i])
    && (StatusConfirmed(o) !in s.outbox ==> t.outbox[StatusConfirmed(o)] == 1)
    && (forall i :: i in t.outbox && i !in s.outbox && i.StockUpdate? ==>
          i.product in t.products && t.outbox[i] == t.products[i.product].revision)
  }

  lemma SoldTables(s: State, o: OrderId)
    requires ConfirmSettlement(s, o).reply == Done
    ensures ConfirmSettlement(s, o).state.products == Sell(s.products, s.reservations, o)
  {
  }

  lemma SoldCart(s: State, t: State, o: OrderId, cart: seq<Item>)
    requires t.products == Sell(s.products, s.reservations, o)
    requires forall p :: p in s.products ==>
      HeldBy(s.reservations, o, p) == QtyOf(cart, p) && HeldRows(s.reservations, o, p) == Rows(cart, p)
    ensures StockSold(s, t, cart)
  {
  }

  lemma SaleStock(s: State, initial: map<ProductId, Option<int>>, o: OrderId)
    requires Inv(s, initial) && ConfirmSettlement(s, o).reply == Done
    ensures StockSold(s, ConfirmSettlement(s, o).state, CartFor(s, o))
  {
    SoldTables(s, o);
    var held := HeldCart(s, o);
    forall p: ProductId
      ensures HeldBy(s.reservations, o, p) == QtyOf(held, p) && HeldRows(s.reservations, o, p) == Rows(held, p)
    {
      HoldsItsCart(s, initial, o, p);
    }
    SoldCart(s, ConfirmSettlement(s, o).state, o, held);
  }

  lemma SaleIntents(s: State, initial: map<ProductId, Option<int>>, o: OrderId)
    requires Inv(s, initial) && ConfirmSettlement(s, o).reply == Done
    ensures SaleTold(s, ConfirmSettlement(s, o).state, o, CartFor(s, o))
  {
    var told := Enqueue(s.outbox, StatusConfirmed(o), 1);
    var t := ConfirmSettlement(s, o).state;
    forall i ensures
      && (i in t.outbox <==> i in told || (i.StockUpdate? && i.order == o && Rows(CartFor(s, o), i.product) > 0))
      && (i in told ==> t.outbox[i] == told[i])
      && (i in t.outbox && i !in told ==> i.product in t.products && t.outbox[i] == t.products[i.product].revision)
    {
      StockIntents(told, s.reservations, o, t.products, i);
      if i.StockUpdate? {
        HoldsItsCart(s, initial, o, i.product);
      }
    }
  }

  lemma SaleClosing(s: State, o: OrderId)
    requires ConfirmSettlement(s, o).reply == Done
    ensures Closes(s, ConfirmSettlement(s, o).state, o, Confirmed, Consumed, "")
    ensures ConfirmSettlement(s, o).state.payments == s.payments[o := s.payments[o].(status := Settled)]
  {
  }

  lemma LateEffect(s: State, o: OrderId)
    requires ConfirmSettlement(s, o).reply == LateSettlement
    ensures
      var t := ConfirmSettlement(s, o).state;
      && t.payments == s.payments[o := s.payments[o].(status := Settled)]
      && t.orders == s.orders[o := s.orders[o].(exception := true)]
      && SameStock(s, t) && SameInvoices(s, t) && t.events == s.events && t.outbox == s.outbox && t.deliveries == s.deliveries
  {
  }

  /**
   * In every reachable state a settlement of an open projection settles it. An awaiting order is sold: its cart leaves the
   * stock, its rows are consumed, and buyer and relays are told. Any other order is only flagged.
   */
  lemma {:induction false} SettlementSellsExactly(start: State, initial: map<ProductId, Option<int>>, events: seq<Event>, o: OrderId)
    requires Fresh(start, initial)
    ensures
      var s := Run(start, events);
      var step := ConfirmSettlement(s, o);
      && (step.reply == Done <==>
            o in s.orders && o in s.payments && s.payments[o].status in {Pending, Creating, CreationUnknown}
            && s.orders[o].state == AwaitingPayment)
      && (step.reply == LateSettlement <==>
            o in s.orders && o in s.payments && s.payments[o].status in {Pending, Creating, CreationUnknown}
            && s.orders[o].state != AwaitingPayment)
      && (step.reply !in {Done, LateSettlement} ==> step.state == s)
      && (step.reply in {Done, LateSettlement} ==> step.state.payments == s.payments[o := s.payments[o].(status := Settled)])
      && (step.reply == LateSettlement ==>
            step.state.orders == s.orders[o := s.orders[o].(exception := true)] && SameStock(s, step.state)
            && step.state.outbox == s.outbox)
      && (step.reply == Done ==>
            && Closes(s, step.state, o, Confirmed, Consumed, "")
            && StockSold(s, step.state, CartFor(s, o)) && SaleTold(s, step.state, o, CartFor(s, o)))
  {
    FreshInv(start, initial);
    RunKeeps(start, initial, events);
    var s := Run(start, events);
    SettlementReplies(s, o);
    if ConfirmSettlement(s, o).reply == Done {
      SaleClosing(s, o);
      SaleStock(s, initial, o);
      SaleIntents(s, initial, o);
    } else if ConfirmSettlement(s, o).reply == LateSettlement {
      LateEffect(s, o);
    }
  }

  // ---- Recovery and LNbits ----

  lemma ReenqueueExactly(s: State, o: OrderId)
    ensures
      var step := Reenqueue(s, o);
      && (step.reply == Done <==>
            o in s.orders && s.orders[o].state == AwaitingPayment && o in s.payments && s.payments[o].status == Pending)
      && (step.reply != Done ==> step.state == s && step.reply == Refused)
      && (step.reply == Done ==> Tells(s, step.state, PaymentRequest(o)) && step.state.(outbox := s.outbox) == s)
  {
  }

  /** LNbits settles or lapses the invoices it holds open for an order, all of them, and nothing else. */
  lemma InvoiceCloses(s: State, o: OrderId, paid: bool)
    ensures
      var t := Apply(s, if paid then CorePays(o) else CoreExpires(o));
      && t.(core := s.core) == s
      && (forall x: OrderId :: x != o ==> CoreFor(t, x) == CoreFor(s, x))
      && |CoreFor(t, o)| == |CoreFor(s, o)|
      && (forall i :: 0 <= i < |CoreFor(s, o)| ==>
            CoreFor(t, o)[i] ==
            if forall k :: 0 <= k < |CoreFor(s, o)| ==> CoreFor(s, o)[k].status == Open
            then CoreFor(s, o)[i].(status := if paid then Paid else Unpaid) else CoreFor(s, o)[i])
  {
  }

  lemma DeleteProductExactly(s: State, p: ProductId)
    ensures
      var t := Apply(s, DeleteProduct(p));
      && t.(products := s.products) == s && t.products.Keys == s.products.Keys
      && forall q :: q in s.products ==>
           t.products[q] == if q == p then s.products[q].(deleted := true) else s.products[q]
  {
  }

  /** A callback settles only what LNbits holds as paid, and an attach takes the invoice LNbits holds at that place. */
  lemma StepsNeedLNbits(s: State, o: OrderId, k: nat)
    ensures Apply(s, DoConfirm(o)) ==
      if CoreFor(s, o) != [] && (forall i :: 0 <= i < |CoreFor(s, o)| ==> CoreFor(s, o)[i].status == Paid)
      then ConfirmSettlement(s, o).state else s
    ensures Apply(s, DoAttach(o, k)) ==
      if k < |CoreFor(s, o)| then Attach(s, o, CoreFor(s, o)[k].hash, CoreFor(s, o)[k].expiresAt).state else s
  {
  }
}
