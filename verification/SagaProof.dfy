/** Every step of the saga keeps the invariant, so every run does. */
module SagaProof {
  import opened Wrappers
  import opened Orders
  import opened Inventory
  import opened Saga
  import opened SagaInvariant

  // ---- How the table functions act on carts and sums ----

  lemma CartsKept(a: seq<Reservation>, b: seq<Reservation>)
    requires |a| == |b|
    requires forall i :: 0 <= i < |a| ==> a[i].order == b[i].order && a[i].item == b[i].item
    ensures forall x {:trigger CartOf(b, x)} :: CartOf(b, x) == CartOf(a, x)
  {
    forall x ensures CartOf(b, x) == CartOf(a, x) {
      SameItemsSameCart(a, b, x);
    }
  }

  lemma DeliveredAppend(ds: seq<Delivery>, d: Delivery)
    ensures forall x {:trigger DeliveredTo(ds + [d], x)} ::
              DeliveredTo(ds + [d], x) == DeliveredTo(ds, x) + (if d.order == x then [d.hash] else [])
  {
  }

  lemma RepublishedKept(outbox: map<Intent, int>, intent: Intent, revision: int)
    requires !intent.StockUpdate?
    ensures forall x {:trigger Republished(Enqueue(outbox, intent, revision), x)} ::
              Republished(Enqueue(outbox, intent, revision), x) == Republished(outbox, x)
  {
  }

  lemma AppendedRows(rows: seq<Reservation>, o: OrderId, items: seq<Item>, expiresAt: int)
    ensures forall x {:trigger CartOf(rows + HeldRowsFor(o, items, expiresAt), x)} ::
      CartOf(rows + HeldRowsFor(o, items, expiresAt), x) == CartOf(rows, x) + (if x == o then items else [])
  {
    forall x ensures CartOf(rows + HeldRowsFor(o, items, expiresAt), x) == CartOf(rows, x) + (if x == o then items else [])
    {
      CartOfAppend(rows, HeldRowsFor(o, items, expiresAt), x);
      HeldRowsForSums(o, items, expiresAt, 0, x);
    }
  }

  lemma NoRowsFor(s: State, o: OrderId)
    requires CartOf(s.reservations, o) == []
    ensures forall i :: 0 <= i < |s.reservations| ==> s.reservations[i].order != o
  {
    EmptyCartNoRows(s.reservations, o);
  }

  // ---- One table at a time ----

  ghost predicate AllSame(s: State, t: State) {
    forall x: OrderId :: ViewOf(t, x) == ViewOf(s, x)
  }

  lemma StockView(s: State, products: map<ProductId, Product>)
    ensures AllSame(s, s.(products := products))
  {
  }

  lemma RowsView(s: State, rows: seq<Reservation>)
    requires |rows| == |s.reservations|
    requires forall i :: 0 <= i < |rows| ==>
      rows[i].order == s.reservations[i].order && rows[i].item == s.reservations[i].item
    ensures AllSame(s, s.(reservations := rows))
  {
    CartsKept(s.reservations, rows);
  }

  lemma PaymentView(s: State, o: OrderId, payment: Payment)
    ensures OthersSame(s, s.(payments := s.payments[o := payment]), o)
    ensures ViewOf(s.(payments := s.payments[o := payment]), o) == ViewOf(s, o).(payment := Some(payment))
  {
  }

  lemma MoveView(s: State, o: OrderId, to: OrderState, reason: string)
    requires o in s.orders && Admit(Some(s.orders[o].state), Some(s.orders[o].state), to, reason).Ok?
    ensures OthersSame(s, Move(s, o, to, reason), o)
    ensures ViewOf(Move(s, o, to, reason), o) == ViewOf(s, o).(
      order := Some(s.orders[o].(state := to)),
      trail := ViewOf(s, o).trail + [OrderEvent(o, Some(s.orders[o].state), to, reason)])
  {
  }

  lemma DeliverView(s: State, o: OrderId, hash: nat)
    ensures OthersSame(s, s.(deliveries := s.deliveries + [Delivery(o, hash)]), o)
    ensures ViewOf(s.(deliveries := s.deliveries + [Delivery(o, hash)]), o)
         == ViewOf(s, o).(delivered := ViewOf(s, o).delivered + [hash])
  {
  }

  lemma OutboxView(s: State, outbox: map<Intent, int>, x: OrderId)
    ensures ViewOf(s.(outbox := outbox), x) == ViewOf(s, x).(
      requested := PaymentRequest(x) in outbox,
      saidCancelled := StatusCancelled(x) in outbox,
      saidConfirmed := StatusConfirmed(x) in outbox,
      republished := Republished(outbox, x))
  {
  }

  lemma TellView(s: State, intent: Intent)
    requires !intent.StockUpdate?
    ensures OthersSame(s, s.(outbox := Enqueue(s.outbox, intent, 1)), intent.order)
    ensures ViewOf(s.(outbox := Enqueue(s.outbox, intent, 1)), intent.order) == match intent
      case PaymentRequest(o) => ViewOf(s, o).(requested := true)
      case StatusCancelled(o) => ViewOf(s, o).(saidCancelled := true)
      case StatusConfirmed(o) => ViewOf(s, o).(saidConfirmed := true)
      case StockUpdate(o, _) => ViewOf(s, o)
  {
    RepublishedKept(s.outbox, intent, 1);
    forall x {
      OutboxView(s, Enqueue(s.outbox, intent, 1), x);
    }
  }

  // ---- Each step keeps the invariant ----

  lemma IntakeViews(s: State, o: OrderId, items: seq<Item>)
    requires Intake(s, o, items).reply == Done
    ensures OthersSame(s, Intake(s, o, items).state, o)
    ensures ViewOf(Intake(s, o, items).state, o) == ViewOf(s, o).(
      order := Some(Order(Received, false)), cart := Some(items),
      trail := ViewOf(s, o).trail + [OrderEvent(o, None, Received, "")])
  {
  }

  lemma IntakeRows(s: State, o: OrderId, items: seq<Item>)
    requires RowsOk(s.reservations, s.orders, s.products) && Intake(s, o, items).reply == Done && CartOf(s.reservations, o) == []
    ensures RowsOk(Intake(s, o, items).state.reservations, Intake(s, o, items).state.orders, Intake(s, o, items).state.products)
  {
  }

  lemma IntakeKeeps(s: State, initial: map<ProductId, Option<int>>, o: OrderId, items: seq<Item>)
    requires Inv(s, initial)
    ensures Inv(Intake(s, o, items).state, initial)
  {
    if o !in s.orders {
      assert OrderOk(ViewOf(s, o));
      IntakeViews(s, o, items);
      IntakeRows(s, o, items);
      ViewsAfter(s, Intake(s, o, items).state, o);
    }
  }

  lemma BeginViews(s: State, o: OrderId, expiresAt: int)
    requires Begin(s, o, expiresAt).reply == Done
    ensures OthersSame(s, Begin(s, o, expiresAt).state, o)
    ensures o in s.orders && ViewOf(Begin(s, o, expiresAt).state, o) == ViewOf(s, o).(
      order := Some(s.orders[o].(state := InvoicePending)),
      reserved := ViewOf(s, o).reserved + CartFor(s, o),
      payment := Some(Payment(Creating, None)), callPending := true,
      trail := ViewOf(s, o).trail + [OrderEvent(o, Some(Received), InvoicePending, "")])
  {
    TrailAppend(s.events, OrderEvent(o, Some(Received), InvoicePending, ""));
    AppendedRows(s.reservations, o, CartFor(s, o), expiresAt);
  }

  lemma BeginOrder(v: View, o: OrderId, exception: bool)
    requires OrderOk(v) && v.order == Some(Order(Received, exception))
    ensures OrderOk(v.(
      order := Some(Order(InvoicePending, exception)), reserved := v.reserved + v.cart.value,
      payment := Some(Payment(Creating, None)), callPending := true,
      trail := v.trail + [OrderEvent(o, Some(Received), InvoicePending, "")]))
  {
  }

  lemma BeginStock(s: State, initial: map<ProductId, Option<int>>, o: OrderId, expiresAt: int)
    requires StockOk(s.products, s.reservations, initial) && Begin(s, o, expiresAt).reply == Done
    ensures StockOk(Begin(s, o, expiresAt).state.products, Begin(s, o, expiresAt).state.reservations, initial)
  {
    var t := Begin(s, o, expiresAt).state;
    var items := CartFor(s, o);
    forall p | p in t.products
      ensures ProductOk(t.products[p], initial[p], QtyIn(t.reservations, p, Held), QtyIn(t.reservations, p, Consumed))
    {
      QtyInAppend(s.reservations, HeldRowsFor(o, items, expiresAt), p, Held);
      QtyInAppend(s.reservations, HeldRowsFor(o, items, expiresAt), p, Consumed);
      HeldRowsForSums(o, items, expiresAt, p, o);
      QtyOfZero(items, p);
      assert ProductOk(s.products[p], initial[p], QtyIn(s.reservations, p, Held), QtyIn(s.reservations, p, Consumed));
      if QtyOf(items, p) != 0 {
        var i :| 0 <= i < |items| && items[i].product == p;
        assert Covers(s.products, items[i].product, QtyOf(items, items[i].product));
      }
    }
  }

  lemma BeginRows(s: State, o: OrderId, expiresAt: int)
    requires RowsOk(s.reservations, s.orders, s.products) && Begin(s, o, expiresAt).reply == Done && CartOf(s.reservations, o) == []
    ensures RowsOk(Begin(s, o, expiresAt).state.reservations, Begin(s, o, expiresAt).state.orders, Begin(s, o, expiresAt).state.products)
  {
  }

  lemma BeginViewsOk(s: State, o: OrderId, expiresAt: int)
    requires ViewsOk(s)
    ensures ViewsOk(Begin(s, o, expiresAt).state)
  {
    if Begin(s, o, expiresAt).reply == Done {
      assert OrderOk(ViewOf(s, o));
      BeginViews(s, o, expiresAt);
      BeginOrder(ViewOf(s, o), o, s.orders[o].exception);
      ViewsAfter(s, Begin(s, o, expiresAt).state, o);
    }
  }

  lemma BeginTables(s: State, initial: map<ProductId, Option<int>>, o: OrderId, expiresAt: int)
    requires TablesOk(s, initial) && (Begin(s, o, expiresAt).reply == Done ==> CartOf(s.reservations, o) == [])
    ensures TablesOk(Begin(s, o, expiresAt).state, initial)
  {
    if Begin(s, o, expiresAt).reply == Done {
      BeginStock(s, initial, o, expiresAt);
      BeginRows(s, o, expiresAt);
    }
  }

  lemma BeginKeeps(s: State, initial: map<ProductId, Option<int>>, o: OrderId, expiresAt: int)
    requires Inv(s, initial)
    ensures Inv(Begin(s, o, expiresAt).state, initial)
  {
    assert OrderOk(ViewOf(s, o));
    BeginViewsOk(s, o, expiresAt);
    BeginTables(s, initial, o, expiresAt);
  }

  lemma RejectIntakeViews(s: State, o: OrderId)
    requires RejectIntake(s, o).reply == Done
    ensures OthersSame(s, RejectIntake(s, o).state, o)
    ensures ViewOf(RejectIntake(s, o).state, o) == ViewOf(s, o).(
      order := Some(s.orders[o].(state := Rejected)),
      trail := ViewOf(s, o).trail + [OrderEvent(o, Some(Received), Rejected, "intake-rejected")])
  {
    MoveView(s, o, Rejected, "intake-rejected");
    assert RejectIntake(s, o).state == Move(s, o, Rejected, "intake-rejected");
  }

  lemma RejectIntakeViewsOk(s: State, o: OrderId)
    requires ViewsOk(s)
    ensures ViewsOk(RejectIntake(s, o).state)
  {
    if RejectIntake(s, o).reply == Done {
      assert OrderOk(ViewOf(s, o));
      RejectIntakeViews(s, o);
      RejectedOrder(ViewOf(s, o), o, s.orders[o]);
      ViewsAfter(s, RejectIntake(s, o).state, o);
    }
  }

  lemma RejectedOrder(v: View, o: OrderId, order: Order)
    requires OrderOk(v) && v.order == Some(order) && order.state == Received
    ensures OrderOk(v.(order := Some(order.(state := Rejected)),
                       trail := v.trail + [OrderEvent(o, Some(Received), Rejected, "intake-rejected")]))
  {
  }

  lemma RejectIntakeTables(s: State, initial: map<ProductId, Option<int>>, o: OrderId)
    requires TablesOk(s, initial)
    requires o in s.orders && s.orders[o].state == Received ==> CartOf(s.reservations, o) == []
    ensures TablesOk(RejectIntake(s, o).state, initial)
  {
    if RejectIntake(s, o).reply == Done {
      NoRowsFor(s, o);
    }
  }

  lemma RejectIntakeKeeps(s: State, initial: map<ProductId, Option<int>>, o: OrderId)
    requires Inv(s, initial)
    ensures Inv(RejectIntake(s, o).state, initial)
  {
    assert OrderOk(ViewOf(s, o));
    RejectIntakeViewsOk(s, o);
    RejectIntakeTables(s, initial, o);
  }

  lemma CreateInvoiceViews(s: State, o: OrderId, outcome: CallOutcome, expiresAt: int)
    requires o in s.pendingCalls
    ensures OthersSame(s, CreateInvoice(s, o, outcome, expiresAt).state, o)
    ensures ViewOf(CreateInvoice(s, o, outcome, expiresAt).state, o) == ViewOf(s, o).(
      calls := ViewOf(s, o).calls + 1, callPending := false,
      core := ViewOf(s, o).core + Issued(s, outcome, expiresAt))
  {
  }

  lemma CreateInvoiceOrder(v: View, issued: seq<CorePayment>)
    requires OrderOk(v) && v.callPending && |issued| <= 1
    ensures OrderOk(v.(calls := v.calls + 1, callPending := false, core := v.core + issued))
  {
  }

  lemma CreateInvoiceHashes(s: State, o: OrderId, outcome: CallOutcome, expiresAt: int)
    requires HashesOk(s.core, s.nextHash) && o in s.pendingCalls && CoreFor(s, o) == []
    ensures HashesOk(CreateInvoice(s, o, outcome, expiresAt).state.core, CreateInvoice(s, o, outcome, expiresAt).state.nextHash)
  {
  }

  lemma CreateInvoiceKeeps(s: State, initial: map<ProductId, Option<int>>, o: OrderId, outcome: CallOutcome, expiresAt: int)
    requires Inv(s, initial)
    ensures Inv(CreateInvoice(s, o, outcome, expiresAt).state, initial)
  {
    if o in s.pendingCalls {
      assert OrderOk(ViewOf(s, o));
      CreateInvoiceViews(s, o, outcome, expiresAt);
      CreateInvoiceOrder(ViewOf(s, o), Issued(s, outcome, expiresAt));
      ViewsAfter(s, CreateInvoice(s, o, outcome, expiresAt).state, o);
      CreateInvoiceHashes(s, o, outcome, expiresAt);
    }
  }

  // ---- Attach ----

  /** What an attach does to an order that waits for its invoice, once the projection has it. */
  function AwaitingFrom(kept: State, o: OrderId, hash: nat, expiresAt: int): State
    requires o in kept.orders && kept.orders[o].state == InvoicePending
  {
    Move(kept, o, AwaitingPayment, "").(
      reservations := Realign(kept.reservations, o, expiresAt),
      outbox := Enqueue(kept.outbox, PaymentRequest(o), 1),
      deliveries := kept.deliveries + [Delivery(o, hash)])
  }

  lemma AwaitingViews(kept: State, o: OrderId, hash: nat, expiresAt: int)
    requires o in kept.orders && kept.orders[o].state == InvoicePending
    ensures OthersSame(kept, AwaitingFrom(kept, o, hash, expiresAt), o)
    ensures ViewOf(AwaitingFrom(kept, o, hash, expiresAt), o) == ViewOf(kept, o).(
      order := Some(kept.orders[o].(state := AwaitingPayment)),
      trail := ViewOf(kept, o).trail + [OrderEvent(o, Some(InvoicePending), AwaitingPayment, "")],
      delivered := ViewOf(kept, o).delivered + [hash],
      requested := true)
  {
    var moved := Move(kept, o, AwaitingPayment, "");
    MoveView(kept, o, AwaitingPayment, "");
    RowsView(moved, Realign(kept.reservations, o, expiresAt));
    AskView(moved.(reservations := Realign(kept.reservations, o, expiresAt)), o, hash);
  }

  /** The payment request in the outbox, and its delivery. */
  lemma AskView(s: State, o: OrderId, hash: nat)
    ensures
      var t := s.(outbox := Enqueue(s.outbox, PaymentRequest(o), 1), deliveries := s.deliveries + [Delivery(o, hash)]);
      OthersSame(s, t, o) && ViewOf(t, o) == ViewOf(s, o).(delivered := ViewOf(s, o).delivered + [hash], requested := true)
  {
    TellView(s, PaymentRequest(o));
    DeliverView(s.(outbox := Enqueue(s.outbox, PaymentRequest(o), 1)), o, hash);
  }

  lemma AttachViews(s: State, o: OrderId, hash: nat, expiresAt: int)
    requires Attach(s, o, hash, expiresAt).reply.Attached?
    ensures OthersSame(s, Attach(s, o, hash, expiresAt).state, o)
    ensures ViewOf(Attach(s, o, hash, expiresAt).state, o) ==
      if s.orders[o].state != InvoicePending then ViewOf(s, o).(payment := Some(Payment(Pending, Some(hash))))
      else ViewOf(s, o).(
        order := Some(s.orders[o].(state := AwaitingPayment)),
        payment := Some(Payment(Pending, Some(hash))),
        trail := ViewOf(s, o).trail + [OrderEvent(o, Some(InvoicePending), AwaitingPayment, "")],
        delivered := ViewOf(s, o).delivered + [hash],
        requested := true)
  {
    var kept := s.(payments := s.payments[o := Payment(Pending, Some(hash))]);
    PaymentView(s, o, Payment(Pending, Some(hash)));
    if s.orders[o].state == InvoicePending {
      AwaitingViews(kept, o, hash, expiresAt);
      assert Attach(s, o, hash, expiresAt).state == AwaitingFrom(kept, o, hash, expiresAt);
    }
  }

  lemma AttachOrder(v: View, o: OrderId, order: Order)
    requires OrderOk(v) && v.order == Some(order) && |v.core| == 1
    requires v.payment.Some? && v.payment.value.status in {Creating, CreationUnknown}
    ensures order.state != InvoicePending ==>
      OrderOk(v.(payment := Some(Payment(Pending, Some(v.core[0].hash)))))
    ensures order.state == InvoicePending ==>
      OrderOk(v.(order := Some(order.(state := AwaitingPayment)),
                 payment := Some(Payment(Pending, Some(v.core[0].hash))),
                 trail := v.trail + [OrderEvent(o, Some(InvoicePending), AwaitingPayment, "")],
                 delivered := v.delivered + [v.core[0].hash],
                 requested := true))
  {
  }

  lemma RealignStock(s: State, t: State, initial: map<ProductId, Option<int>>, o: OrderId, expiresAt: int)
    requires StockOk(s.products, s.reservations, initial) && t.products == s.products
    requires t.reservations == Realign(s.reservations, o, expiresAt)
    ensures StockOk(t.products, t.reservations, initial)
  {
    forall p | p in t.products
      ensures ProductOk(t.products[p], initial[p], QtyIn(t.reservations, p, Held), QtyIn(t.reservations, p, Consumed))
    {
      SameStatesSameQty(s.reservations, t.reservations, p, Held);
      SameStatesSameQty(s.reservations, t.reservations, p, Consumed);
    }
  }

  lemma AttachTables(s: State, initial: map<ProductId, Option<int>>, o: OrderId, hash: nat, expiresAt: int)
    requires TablesOk(s, initial)
    ensures TablesOk(Attach(s, o, hash, expiresAt).state, initial)
  {
    if Attach(s, o, hash, expiresAt).reply == Attached(true) {
      RealigningTables(s, Attach(s, o, hash, expiresAt).state, initial, o, expiresAt);
    } else {
      SameTables(s, Attach(s, o, hash, expiresAt).state, initial);
    }
  }

  lemma RealigningTables(s: State, t: State, initial: map<ProductId, Option<int>>, o: OrderId, expiresAt: int)
    requires TablesOk(s, initial) && o in s.orders && s.orders[o].state == InvoicePending
    requires t.orders == s.orders[o := s.orders[o].(state := AwaitingPayment)] && t.products == s.products
    requires t.reservations == Realign(s.reservations, o, expiresAt)
    requires t.outbox == Enqueue(s.outbox, PaymentRequest(o), 1) && t.core == s.core && t.nextHash == s.nextHash
    ensures TablesOk(t, initial)
  {
    RealignStock(s, t, initial, o, expiresAt);
    assert RowsOk(t.reservations, t.orders, t.products);
  }

  lemma AttachKeeps(s: State, initial: map<ProductId, Option<int>>, o: OrderId, k: nat)
    requires Inv(s, initial) && k < |CoreFor(s, o)|
    ensures Inv(Attach(s, o, CoreFor(s, o)[k].hash, CoreFor(s, o)[k].expiresAt).state, initial)
  {
    var hash, expiresAt := CoreFor(s, o)[k].hash, CoreFor(s, o)[k].expiresAt;
    AttachTables(s, initial, o, hash, expiresAt);
    AttachViewsOk(s, o, k);
  }

  lemma AttachViewsOk(s: State, o: OrderId, k: nat)
    requires ViewsOk(s) && k < |CoreFor(s, o)|
    ensures ViewsOk(Attach(s, o, CoreFor(s, o)[k].hash, CoreFor(s, o)[k].expiresAt).state)
  {
    var hash, expiresAt := CoreFor(s, o)[k].hash, CoreFor(s, o)[k].expiresAt;
    if Attach(s, o, hash, expiresAt).reply.Attached? {
      assert OrderOk(ViewOf(s, o));
      AttachViews(s, o, hash, expiresAt);
      AttachOrder(ViewOf(s, o), o, s.orders[o]);
      ViewsAfter(s, Attach(s, o, hash, expiresAt).state, o);
    }
  }

  // ---- Closing an order: cancel, reject, expire ----

  /** Giving the held stock of one order back keeps the stock equations. */
  lemma GiveBackStock(s: State, t: State, initial: map<ProductId, Option<int>>, o: OrderId, to: ReservationState)
    requires StockOk(s.products, s.reservations, initial) && to in {Released, Lapsed}
    requires t.products == GiveBack(s.products, s.reservations, o)
    requires t.reservations == CloseHeld(s.reservations, o, to)
    ensures StockOk(t.products, t.reservations, initial)
  {
    forall p | p in t.products
      ensures ProductOk(t.products[p], initial[p], QtyIn(t.reservations, p, Held), QtyIn(t.reservations, p, Consumed))
    {
      CloseHeldSums(s.reservations, o, to, p, Held);
      CloseHeldSums(s.reservations, o, to, p, Consumed);
      assert ProductOk(s.products[p], initial[p], QtyIn(s.reservations, p, Held), QtyIn(s.reservations, p, Consumed));
    }
  }

  lemma ClosedRows(s: State, t: State, o: OrderId, order: Order)
    requires RowsOk(s.reservations, s.orders, s.products) && o in s.orders && RowState(s.orders[o].state) == Held
    requires t.orders == s.orders[o := order] && t.products.Keys == s.products.Keys
    requires t.reservations == CloseHeld(s.reservations, o, RowState(order.state))
    ensures RowsOk(t.reservations, t.orders, t.products)
  {
  }

  /** A step that gives an order's stock back, closes its rows and moves it to `order` keeps the shared tables. */
  lemma ClosingTables(s: State, t: State, initial: map<ProductId, Option<int>>, o: OrderId, order: Order)
    requires TablesOk(s, initial) && o in s.orders && RowState(s.orders[o].state) == Held
    requires RowState(order.state) in {Released, Lapsed} && t.orders == s.orders[o := order]
    requires t.products == GiveBack(s.products, s.reservations, o)
    requires t.reservations == CloseHeld(s.reservations, o, RowState(order.state))
    requires t.outbox == s.outbox || t.outbox == Enqueue(s.outbox, StatusCancelled(o), 1)
    requires t.core == s.core && t.nextHash == s.nextHash
    ensures TablesOk(t, initial)
  {
    GiveBackStock(s, t, initial, o, RowState(order.state));
    ClosedRows(s, t, o, order);
    ClosingRevisions(s, t, o);
  }

  lemma ClosingRevisions(s: State, t: State, o: OrderId)
    requires RevisionsOk(s.outbox, s.products) && t.products == GiveBack(s.products, s.reservations, o)
    requires t.outbox == s.outbox || t.outbox == Enqueue(s.outbox, StatusCancelled(o), 1)
    ensures RevisionsOk(t.outbox, t.products)
  {
  }

  lemma ClosingView(s: State, o: OrderId, to: OrderState, reason: string, rowState: ReservationState)
    requires o in s.orders && Admit(Some(s.orders[o].state), Some(s.orders[o].state), to, reason).Ok?
    ensures OthersSame(s, Move(s, o, to, reason).(reservations := CloseHeld(s.reservations, o, rowState)), o)
    ensures ViewOf(Move(s, o, to, reason).(reservations := CloseHeld(s.reservations, o, rowState)), o) == ViewOf(s, o).(
      order := Some(s.orders[o].(state := to)),
      trail := ViewOf(s, o).trail + [OrderEvent(o, Some(s.orders[o].state), to, reason)])
  {
    MoveView(s, o, to, reason);
    RowsView(Move(s, o, to, reason), CloseHeld(s.reservations, o, rowState));
  }

  lemma CancelViews(s: State, o: OrderId, reason: string)
    requires Cancel(s, o, reason).reply == Done
    ensures OthersSame(s, Cancel(s, o, reason).state, o)
    ensures ViewOf(Cancel(s, o, reason).state, o) == ViewOf(s, o).(
      order := Some(s.orders[o].(state := Cancelled)),
      trail := ViewOf(s, o).trail + [OrderEvent(o, Some(s.orders[o].state), Cancelled, reason)],
      saidCancelled := true)
  {
    ClosingView(s, o, Cancelled, reason, Released);
    var closed := Move(s, o, Cancelled, reason).(reservations := CloseHeld(s.reservations, o, Released));
    TellView(closed, StatusCancelled(o));
    StockView(closed.(outbox := Enqueue(s.outbox, StatusCancelled(o), 1)), GiveBack(s.products, s.reservations, o));
  }

  lemma CancelOrder(v: View, o: OrderId, order: Order, reason: string)
    requires OrderOk(v) && v.order == Some(order) && order.state in {Received, InvoicePending, AwaitingPayment}
    ensures OrderOk(v.(order := Some(order.(state := Cancelled)),
                       trail := v.trail + [OrderEvent(o, Some(order.state), Cancelled, reason)],
                       saidCancelled := true))
  {
  }

  lemma CancelViewsOk(s: State, o: OrderId, reason: string)
    requires ViewsOk(s)
    ensures ViewsOk(Cancel(s, o, reason).state)
  {
    if Cancel(s, o, reason).reply == Done {
      assert OrderOk(ViewOf(s, o));
      CancelViews(s, o, reason);
      CancelOrder(ViewOf(s, o), o, s.orders[o], reason);
      ViewsAfter(s, Cancel(s, o, reason).state, o);
    }
  }

  lemma CancelTables(s: State, initial: map<ProductId, Option<int>>, o: OrderId, reason: string)
    requires TablesOk(s, initial)
    ensures TablesOk(Cancel(s, o, reason).state, initial)
  {
    if Cancel(s, o, reason).reply == Done {
      ClosingTables(s, Cancel(s, o, reason).state, initial, o, s.orders[o].(state := Cancelled));
    }
  }

  lemma CancelKeeps(s: State, initial: map<ProductId, Option<int>>, o: OrderId, reason: string)
    requires Inv(s, initial)
    ensures Inv(Cancel(s, o, reason).state, initial)
  {
    CancelViewsOk(s, o, reason);
    CancelTables(s, initial, o, reason);
  }

  lemma MarkRejectionViews(s: State, o: OrderId)
    requires o in s.orders
    ensures OthersSame(s, MarkRejection(s, o).state, o)
    ensures
      var v := ViewOf(s, o);
      var payment := if v.payment.Some? && v.payment.value.status in {Creating, CreationUnknown}
                     then Some(v.payment.value.(status := Failed)) else v.payment;
      ViewOf(MarkRejection(s, o).state, o) ==
        if s.orders[o].state != InvoicePending then v.(payment := payment)
        else v.(payment := payment, order := Some(s.orders[o].(state := Rejected)),
                trail := v.trail + [OrderEvent(o, Some(InvoicePending), Rejected, "invoice-creation-rejected")])
  {
    var failed :=
      if o in s.payments && s.payments[o].status in {Creating, CreationUnknown}
      then s.(payments := s.payments[o := s.payments[o].(status := Failed)]) else s;
    if o in s.payments {
      PaymentView(s, o, s.payments[o].(status := Failed));
    }
    if s.orders[o].state == InvoicePending {
      ClosingView(failed, o, Rejected, "invoice-creation-rejected", Released);
      StockView(Move(failed, o, Rejected, "invoice-creation-rejected").(reservations := CloseHeld(s.reservations, o, Released)),
                GiveBack(s.products, s.reservations, o));
    }
  }

  lemma MarkRejectionOrder(v: View, o: OrderId, order: Order)
    requires OrderOk(v) && v.order == Some(order)
    ensures
      var payment := if v.payment.Some? && v.payment.value.status in {Creating, CreationUnknown}
                     then Some(v.payment.value.(status := Failed)) else v.payment;
      OrderOk(if order.state != InvoicePending then v.(payment := payment)
              else v.(payment := payment, order := Some(order.(state := Rejected)),
                      trail := v.trail + [OrderEvent(o, Some(InvoicePending), Rejected, "invoice-creation-rejected")]))
  {
  }

  lemma MarkRejectionViewsOk(s: State, o: OrderId)
    requires ViewsOk(s)
    ensures ViewsOk(MarkRejection(s, o).state)
  {
    if o in s.orders {
      assert OrderOk(ViewOf(s, o));
      MarkRejectionViews(s, o);
      MarkRejectionOrder(ViewOf(s, o), o, s.orders[o]);
      ViewsAfter(s, MarkRejection(s, o).state, o);
    }
  }

  lemma MarkRejectionTables(s: State, initial: map<ProductId, Option<int>>, o: OrderId)
    requires TablesOk(s, initial)
    ensures TablesOk(MarkRejection(s, o).state, initial)
  {
    if o in s.orders && s.orders[o].state == InvoicePending {
      ClosingTables(s, MarkRejection(s, o).state, initial, o, s.orders[o].(state := Rejected));
    } else {
      SameTables(s, MarkRejection(s, o).state, initial);
    }
  }

  lemma MarkRejectionKeeps(s: State, initial: map<ProductId, Option<int>>, o: OrderId)
    requires Inv(s, initial)
    ensures Inv(MarkRejection(s, o).state, initial)
  {
    MarkRejectionViewsOk(s, o);
    MarkRejectionTables(s, initial, o);
  }

  lemma ExpireViews(s: State, o: OrderId)
    requires ExpireOrder(s, o).reply == Done
    ensures OthersSame(s, ExpireOrder(s, o).state, o)
    ensures ViewOf(ExpireOrder(s, o).state, o) == ViewOf(s, o).(
      order := Some(s.orders[o].(state := Expired)),
      trail := ViewOf(s, o).trail + [OrderEvent(o, Some(AwaitingPayment), Expired, "invoice-expired-unpaid")],
      saidCancelled := true)
  {
    ClosingView(s, o, Expired, "invoice-expired-unpaid", Lapsed);
    var closed := Move(s, o, Expired, "invoice-expired-unpaid").(reservations := CloseHeld(s.reservations, o, Lapsed));
    TellView(closed, StatusCancelled(o));
    StockView(closed.(outbox := Enqueue(s.outbox, StatusCancelled(o), 1)), GiveBack(s.products, s.reservations, o));
  }

  lemma ExpireViewsOk(s: State, o: OrderId)
    requires ViewsOk(s)
    ensures ViewsOk(ExpireOrder(s, o).state)
  {
    if ExpireOrder(s, o).reply == Done {
      assert OrderOk(ViewOf(s, o));
      ExpireViews(s, o);
      ExpiredOrder(ViewOf(s, o), o, s.orders[o]);
      ViewsAfter(s, ExpireOrder(s, o).state, o);
    }
  }

  lemma ExpiredOrder(v: View, o: OrderId, order: Order)
    requires OrderOk(v) && v.order == Some(order) && order.state == AwaitingPayment
    ensures OrderOk(v.(order := Some(order.(state := Expired)),
                       trail := v.trail + [OrderEvent(o, Some(AwaitingPayment), Expired, "invoice-expired-unpaid")],
                       saidCancelled := true))
  {
  }

  lemma ExpireTables(s: State, initial: map<ProductId, Option<int>>, o: OrderId)
    requires TablesOk(s, initial)
    ensures TablesOk(ExpireOrder(s, o).state, initial)
  {
    if ExpireOrder(s, o).reply == Done {
      ClosingTables(s, ExpireOrder(s, o).state, initial, o, s.orders[o].(state := Expired));
    }
  }

  lemma ExpireKeeps(s: State, initial: map<ProductId, Option<int>>, o: OrderId)
    requires Inv(s, initial)
    ensures Inv(ExpireOrder(s, o).state, initial)
  {
    ExpireViewsOk(s, o);
    ExpireTables(s, initial, o);
  }

  // ---- Settlement ----

  function HeldProducts(rows: seq<Reservation>, o: OrderId): set<ProductId> {
    set r | r in rows && r.order == o && r.state == Held :: r.item.product
  }

  lemma {:induction false} HeldRowsPositive(rows: seq<Reservation>, o: OrderId, p: ProductId)
    ensures p in HeldProducts(rows, o) <==> HeldRows(rows, o, p) > 0
  {
    if rows != [] {
      var front, last := rows[..|rows| - 1], rows[|rows| - 1];
      HeldRowsPositive(front, o, p);
      assert rows == front + [last];
    }
  }

  /** When an order's rows are all held, the products it holds are those of its cart. */
  lemma {:induction false} HeldIsCart(rows: seq<Reservation>, o: OrderId)
    requires forall i :: 0 <= i < |rows| && rows[i].order == o ==> rows[i].state == Held
    ensures HeldProducts(rows, o) == ProductsOf(CartOf(rows, o))
  {
    if rows != [] {
      var front, last := rows[..|rows| - 1], rows[|rows| - 1];
      assert forall i :: 0 <= i < |front| ==> front[i] == rows[i];
      HeldIsCart(front, o);
      assert rows == front + [last];
      forall p ensures p in HeldProducts(rows, o) <==> p in ProductsOf(CartOf(rows, o)) {
        assert p in HeldProducts(rows, o) <==> p in HeldProducts(front, o) || (last.order == o && last.item.product == p);
        assert p in ProductsOf(CartOf(front, o) + [last.item])
          <==> p in ProductsOf(CartOf(front, o)) || last.item.product == p;
      }
    }
  }

  /** The new intents are the republications of the held products, at their current revisions. */
  lemma {:induction false} StockIntents(
    outbox: map<Intent, int>, rows: seq<Reservation>, o: OrderId, products: map<ProductId, Product>, i: Intent)
    requires forall k :: 0 <= k < |rows| ==> rows[k].item.product in products
    ensures
      var after := EnqueueStock(outbox, rows, o, products);
      && (i in after <==> i in outbox || (i.StockUpdate? && i.order == o && HeldRows(rows, o, i.product) > 0))
      && (i in outbox ==> after[i] == outbox[i])
      && (i in after && i !in outbox ==> i.product in products && after[i] == products[i.product].revision)
  {
    if rows != [] {
      StockIntents(outbox, rows[..|rows| - 1], o, products, i);
    }
  }

  lemma RepublishedAfter(
    outbox: map<Intent, int>, rows: seq<Reservation>, o: OrderId, products: map<ProductId, Product>, x: OrderId)
    requires forall k :: 0 <= k < |rows| ==> rows[k].item.product in products
    ensures Republished(EnqueueStock(outbox, rows, o, products), x)
         == Republished(outbox, x) + (if x == o then HeldProducts(rows, o) else {})
  {
    var after := EnqueueStock(outbox, rows, o, products);
    forall p ensures p in Republished(after, x) <==> p in Republished(outbox, x) || (x == o && p in HeldProducts(rows, o))
    {
      StockIntents(outbox, rows, o, products, StockUpdate(x, p));
      HeldRowsPositive(rows, o, p);
      assert p in Republished(after, x) <==> StockUpdate(x, p) in after;
      assert p in Republished(outbox, x) <==> StockUpdate(x, p) in outbox;
    }
  }

  lemma StockIntentsView(s: State, o: OrderId, products: map<ProductId, Product>, rows: seq<Reservation>)
    requires forall k :: 0 <= k < |rows| ==> rows[k].item.product in products
    ensures OthersSame(s, s.(outbox := EnqueueStock(s.outbox, rows, o, products)), o)
    ensures ViewOf(s.(outbox := EnqueueStock(s.outbox, rows, o, products)), o)
         == ViewOf(s, o).(republished := ViewOf(s, o).republished + HeldProducts(rows, o))
  {
    var t := s.(outbox := EnqueueStock(s.outbox, rows, o, products));
    forall x: OrderId
      ensures ViewOf(t, x) == ViewOf(s, x).(republished := Republished(s.outbox, x) + if x == o then HeldProducts(rows, o) else {})
    {
      StockIntents(s.outbox, rows, o, products, PaymentRequest(x));
      StockIntents(s.outbox, rows, o, products, StatusCancelled(x));
      StockIntents(s.outbox, rows, o, products, StatusConfirmed(x));
      RepublishedAfter(s.outbox, rows, o, products, x);
      OutboxView(s, t.outbox, x);
    }
  }

  lemma AnnounceView(s: State, o: OrderId, products: map<ProductId, Product>, rows: seq<Reservation>)
    requires forall k :: 0 <= k < |rows| ==> rows[k].item.product in products
    ensures OthersSame(s, s.(outbox := EnqueueStock(Enqueue(s.outbox, StatusConfirmed(o), 1), rows, o, products)), o)
    ensures ViewOf(s.(outbox := EnqueueStock(Enqueue(s.outbox, StatusConfirmed(o), 1), rows, o, products)), o)
         == ViewOf(s, o).(saidConfirmed := true, republished := ViewOf(s, o).republished + HeldProducts(rows, o))
  {
    TellView(s, StatusConfirmed(o));
    StockIntentsView(s.(outbox := Enqueue(s.outbox, StatusConfirmed(o), 1)), o, products, rows);
  }

  lemma ConfirmViews(s: State, o: OrderId)
    requires RowsOk(s.reservations, s.orders, s.products) && ConfirmSettlement(s, o).reply == Done
    ensures OthersSame(s, ConfirmSettlement(s, o).state, o)
    ensures ViewOf(ConfirmSettlement(s, o).state, o) == ViewOf(s, o).(
      order := Some(s.orders[o].(state := Confirmed)),
      payment := Some(s.payments[o].(status := Settled)),
      trail := ViewOf(s, o).trail + [OrderEvent(o, Some(AwaitingPayment), Confirmed, "")],
      saidConfirmed := true,
      republished := ViewOf(s, o).republished + HeldProducts(s.reservations, o))
  {
    var paid := s.(payments := s.payments[o := s.payments[o].(status := Settled)]);
    var products := Sell(s.products, s.reservations, o);
    PaymentView(s, o, s.payments[o].(status := Settled));
    ClosingView(paid, o, Confirmed, "", Consumed);
    var closed := Move(paid, o, Confirmed, "").(reservations := CloseHeld(s.reservations, o, Consumed));
    StockView(closed, products);
    AnnounceView(closed.(products := products), o, products, s.reservations);
  }

  lemma LateViews(s: State, o: OrderId)
    requires ConfirmSettlement(s, o).reply == LateSettlement
    ensures OthersSame(s, ConfirmSettlement(s, o).state, o)
    ensures ViewOf(ConfirmSettlement(s, o).state, o) == ViewOf(s, o).(
      order := Some(s.orders[o].(exception := true)), payment := Some(s.payments[o].(status := Settled)))
  {
    PaymentView(s, o, s.payments[o].(status := Settled));
    FlagView(s.(payments := s.payments[o := s.payments[o].(status := Settled)]), o);
  }

  lemma FlagView(s: State, o: OrderId)
    requires o in s.orders
    ensures OthersSame(s, Flagged(s, o), o)
    ensures ViewOf(Flagged(s, o), o) == ViewOf(s, o).(order := Some(s.orders[o].(exception := true)))
  {
  }

  lemma ConfirmOrder(v: View, o: OrderId, order: Order)
    requires OrderOk(v) && v.order == Some(order) && v.payment.Some?
    ensures order.state == AwaitingPayment && v.core[0].status == Paid ==>
      OrderOk(v.(order := Some(order.(state := Confirmed)),
                 payment := Some(v.payment.value.(status := Settled)),
                 trail := v.trail + [OrderEvent(o, Some(AwaitingPayment), Confirmed, "")],
                 saidConfirmed := true,
                 republished := v.republished + ProductsOf(v.reserved)))
    ensures order.state != AwaitingPayment && v.payment.value.status !in {Settled, Failed} ==>
      OrderOk(v.(order := Some(order.(exception := true)), payment := Some(v.payment.value.(status := Settled))))
  {
  }

  lemma ConfirmViewsOk(s: State, o: OrderId)
    requires ViewsOk(s) && RowsOk(s.reservations, s.orders, s.products) && CoreIs(s, o, Paid)
    ensures ViewsOk(ConfirmSettlement(s, o).state)
  {
    var t := ConfirmSettlement(s, o).state;
    if ConfirmSettlement(s, o).reply in {Done, LateSettlement} {
      assert OrderOk(ViewOf(s, o));
      if ConfirmSettlement(s, o).reply == Done {
        ConfirmViews(s, o);
        HeldIsCart(s.reservations, o);
      } else {
        LateViews(s, o);
      }
      ConfirmOrder(ViewOf(s, o), o, s.orders[o]);
      ViewsAfter(s, t, o);
    }
  }

  /** Selling the held stock moves it from on-hand to consumed. */
  lemma SellStock(s: State, t: State, initial: map<ProductId, Option<int>>, o: OrderId)
    requires StockOk(s.products, s.reservations, initial)
    requires t.products == Sell(s.products, s.reservations, o)
    requires t.reservations == CloseHeld(s.reservations, o, Consumed)
    ensures StockOk(t.products, t.reservations, initial)
  {
    forall p | p in t.products
      ensures ProductOk(t.products[p], initial[p], QtyIn(t.reservations, p, Held), QtyIn(t.reservations, p, Consumed))
    {
      CloseHeldSums(s.reservations, o, Consumed, p, Held);
      CloseHeldSums(s.reservations, o, Consumed, p, Consumed);
      assert ProductOk(s.products[p], initial[p], QtyIn(s.reservations, p, Held), QtyIn(s.reservations, p, Consumed));
    }
  }

  lemma SellRevisions(s: State, o: OrderId)
    requires RevisionsOk(s.outbox, s.products) && RowsOk(s.reservations, s.orders, s.products)
    requires Republished(s.outbox, o) == {}
    ensures
      var products := Sell(s.products, s.reservations, o);
      RevisionsOk(EnqueueStock(Enqueue(s.outbox, StatusConfirmed(o), 1), s.reservations, o, products), products)
  {
    var products := Sell(s.products, s.reservations, o);
    var told := Enqueue(s.outbox, StatusConfirmed(o), 1);
    var outbox := EnqueueStock(told, s.reservations, o, products);
    forall i | i in outbox && i.StockUpdate?
      ensures i.product in products && outbox[i] <= products[i.product].revision
      ensures i !in s.outbox ==> i.order == o && s.products[i.product].revision < outbox[i]
      ensures i in s.outbox ==> outbox[i] == s.outbox[i]
    {
      StockIntents(told, s.reservations, o, products, i);
    }
    forall i, j | i in outbox && j in outbox && i != j
      ensures !SameRevision(outbox, i, j)
    {
      if i in s.outbox && j in s.outbox {
        assert !SameRevision(s.outbox, i, j);
      }
    }
  }

  lemma ConfirmStock(s: State, initial: map<ProductId, Option<int>>, o: OrderId)
    requires StockOk(s.products, s.reservations, initial) && ConfirmSettlement(s, o).reply == Done
    ensures StockOk(ConfirmSettlement(s, o).state.products, ConfirmSettlement(s, o).state.reservations, initial)
  {
    SellStock(s, ConfirmSettlement(s, o).state, initial, o);
  }

  lemma ConfirmRows(s: State, o: OrderId)
    requires RowsOk(s.reservations, s.orders, s.products) && ConfirmSettlement(s, o).reply == Done
    ensures RowsOk(ConfirmSettlement(s, o).state.reservations, ConfirmSettlement(s, o).state.orders, ConfirmSettlement(s, o).state.products)
  {
  }

  lemma ConfirmTables(s: State, initial: map<ProductId, Option<int>>, o: OrderId)
    requires TablesOk(s, initial)
    requires o in s.orders && s.orders[o].state == AwaitingPayment ==> Republished(s.outbox, o) == {}
    ensures TablesOk(ConfirmSettlement(s, o).state, initial)
  {
    if ConfirmSettlement(s, o).reply == Done {
      ConfirmStock(s, initial, o);
      SellRevisions(s, o);
      ConfirmRows(s, o);
    } else {
      SameTables(s, ConfirmSettlement(s, o).state, initial);
    }
  }

  lemma ConfirmKeeps(s: State, initial: map<ProductId, Option<int>>, o: OrderId)
    requires Inv(s, initial) && CoreIs(s, o, Paid)
    ensures Inv(ConfirmSettlement(s, o).state, initial)
  {
    assert OrderOk(ViewOf(s, o));
    ConfirmViewsOk(s, o);
    ConfirmTables(s, initial, o);
  }

  // ---- The remaining events ----

  lemma MarkUnknownViews(s: State, o: OrderId)
    requires o in s.orders
    ensures OthersSame(s, MarkUnknown(s, o).state, o)
    ensures ViewOf(MarkUnknown(s, o).state, o) == ViewOf(s, o).(
      order := Some(s.orders[o].(exception := true)),
      payment := if o in s.payments && s.payments[o].status == Creating
                 then Some(s.payments[o].(status := CreationUnknown)) else ViewOf(s, o).payment)
  {
    if o in s.payments && s.payments[o].status == Creating {
      PaymentView(s, o, s.payments[o].(status := CreationUnknown));
      FlagView(s.(payments := s.payments[o := s.payments[o].(status := CreationUnknown)]), o);
    } else {
      FlagView(s, o);
    }
  }

  lemma MarkUnknownOrder(v: View, o: OrderId, order: Order)
    requires OrderOk(v) && v.order == Some(order)
    ensures OrderOk(v.(order := Some(order.(exception := true))))
    ensures v.payment.Some? && v.payment.value.status == Creating ==>
      OrderOk(v.(order := Some(order.(exception := true)), payment := Some(v.payment.value.(status := CreationUnknown))))
  {
  }

  lemma MarkUnknownViewsOk(s: State, o: OrderId)
    requires ViewsOk(s)
    ensures ViewsOk(MarkUnknown(s, o).state)
  {
    assert OrderOk(ViewOf(s, o));
    if o in s.orders {
      MarkUnknownViews(s, o);
      MarkUnknownOrder(ViewOf(s, o), o, s.orders[o]);
      ViewsAfter(s, MarkUnknown(s, o).state, o);
    }
  }

  /** A step that leaves stock, rows, intents and order states alone keeps the shared tables. */
  lemma SameTables(s: State, t: State, initial: map<ProductId, Option<int>>)
    requires TablesOk(s, initial)
    requires t.products == s.products && t.reservations == s.reservations && t.outbox == s.outbox
    requires t.core == s.core && t.nextHash == s.nextHash
    requires forall o :: o in s.orders ==> o in t.orders && t.orders[o].state == s.orders[o].state
    ensures TablesOk(t, initial)
  {
  }

  lemma PaymentTables(s: State, initial: map<ProductId, Option<int>>, payments: map<OrderId, Payment>)
    requires TablesOk(s, initial)
    ensures TablesOk(s.(payments := payments), initial)
  {
  }

  lemma FlagTables(s: State, initial: map<ProductId, Option<int>>, o: OrderId)
    requires TablesOk(s, initial) && o in s.orders
    ensures TablesOk(Flagged(s, o), initial)
  {
  }

  lemma MarkUnknownTables(s: State, initial: map<ProductId, Option<int>>, o: OrderId)
    requires TablesOk(s, initial)
    ensures TablesOk(MarkUnknown(s, o).state, initial)
  {
    var payments := if o in s.payments && s.payments[o].status == Creating
      then s.payments[o := s.payments[o].(status := CreationUnknown)] else s.payments;
    var unknown := s.(payments := payments);
    PaymentTables(s, initial, payments);
    assert MarkUnknown(s, o).state == if o in s.orders then Flagged(unknown, o) else unknown;
    if o in s.orders {
      FlagTables(unknown, initial, o);
    }
  }

  lemma CoreEventTables(s: State, initial: map<ProductId, Option<int>>, o: OrderId, status: CoreStatus)
    requires TablesOk(s, initial) && CoreIs(s, o, Open)
    ensures TablesOk(s.(core := s.core[o := Retag(CoreFor(s, o), status)]), initial)
  {
  }

  lemma ReenqueueTables(s: State, initial: map<ProductId, Option<int>>, o: OrderId)
    requires TablesOk(s, initial)
    ensures TablesOk(Reenqueue(s, o).state, initial)
  {
  }

  lemma CoreView(s: State, o: OrderId, payments: seq<CorePayment>)
    ensures OthersSame(s, s.(core := s.core[o := payments]), o)
    ensures ViewOf(s.(core := s.core[o := payments]), o) == ViewOf(s, o).(core := payments)
  {
  }

  lemma CoreEventViewsOk(s: State, o: OrderId, status: CoreStatus)
    requires ViewsOk(s) && CoreIs(s, o, Open)
    ensures ViewsOk(s.(core := s.core[o := Retag(CoreFor(s, o), status)]))
  {
    assert OrderOk(ViewOf(s, o));
    CoreView(s, o, Retag(CoreFor(s, o), status));
    ViewsAfter(s, s.(core := s.core[o := Retag(CoreFor(s, o), status)]), o);
  }

  lemma ReenqueueViewsOk(s: State, o: OrderId)
    requires ViewsOk(s)
    ensures ViewsOk(Reenqueue(s, o).state)
  {
    if Reenqueue(s, o).reply == Done {
      assert OrderOk(ViewOf(s, o));
      TellView(s, PaymentRequest(o));
      ViewsAfter(s, Reenqueue(s, o).state, o);
    }
  }

  lemma DeleteKeeps(s: State, initial: map<ProductId, Option<int>>, p: ProductId)
    requires Inv(s, initial)
    ensures Inv(Apply(s, DeleteProduct(p)), initial)
  {
    var t := Apply(s, DeleteProduct(p));
    StockView(s, t.products);
    forall x: OrderId ensures OrderOk(ViewOf(t, x)) {
      assert ViewOf(t, x) == ViewOf(s, x);
    }
  }

  lemma MarkUnknownKeeps(s: State, initial: map<ProductId, Option<int>>, o: OrderId)
    requires Inv(s, initial)
    ensures Inv(MarkUnknown(s, o).state, initial)
  {
    MarkUnknownViewsOk(s, o);
    MarkUnknownTables(s, initial, o);
  }

  lemma ReenqueueKeeps(s: State, initial: map<ProductId, Option<int>>, o: OrderId)
    requires Inv(s, initial)
    ensures Inv(Reenqueue(s, o).state, initial)
  {
    ReenqueueViewsOk(s, o);
    ReenqueueTables(s, initial, o);
  }

  lemma CoreEventKeeps(s: State, initial: map<ProductId, Option<int>>, o: OrderId, status: CoreStatus)
    requires Inv(s, initial) && CoreIs(s, o, Open)
    ensures Inv(s.(core := s.core[o := Retag(CoreFor(s, o), status)]), initial)
  {
    CoreEventViewsOk(s, o, status);
    CoreEventTables(s, initial, o, status);
  }

  lemma ClaimStepsKeep(s: State, initial: map<ProductId, Option<int>>, e: Event)
    requires Inv(s, initial)
    requires e.DoIntake? || e.DoBegin? || e.DoRejectIntake? || e.DoCreateInvoice?
    ensures Inv(Apply(s, e), initial)
  {
    match e
    case DoIntake(o, items) => IntakeKeeps(s, initial, o, items);
    case DoBegin(o, expiresAt) => BeginKeeps(s, initial, o, expiresAt);
    case DoRejectIntake(o) => RejectIntakeKeeps(s, initial, o);
    case DoCreateInvoice(o, outcome, expiresAt) => CreateInvoiceKeeps(s, initial, o, outcome, expiresAt);
  }

  lemma ClosingStepsKeep(s: State, initial: map<ProductId, Option<int>>, e: Event)
    requires Inv(s, initial)
    requires e.DoCancel? || e.DoMarkRejection?
    ensures Inv(Apply(s, e), initial)
  {
    match e
    case DoCancel(o, reason) => CancelKeeps(s, initial, o, reason);
    case DoMarkRejection(o) => MarkRejectionKeeps(s, initial, o);
  }

  lemma LateStepsKeep(s: State, initial: map<ProductId, Option<int>>, e: Event)
    requires Inv(s, initial)
    requires e.DoConfirm? || e.DoExpire?
    ensures Inv(Apply(s, e), initial)
  {
    match e
    case DoConfirm(o) => if CoreIs(s, o, Paid) { ConfirmKeeps(s, initial, o); }
    case DoExpire(o) => ExpireKeeps(s, initial, o);
  }

  lemma CorePaysKeeps(s: State, initial: map<ProductId, Option<int>>, o: OrderId)
    requires Inv(s, initial)
    ensures Inv(Apply(s, CorePays(o)), initial)
  {
    if CoreIs(s, o, Open) {
      CoreEventKeeps(s, initial, o, Paid);
    }
  }

  lemma CoreExpiresKeeps(s: State, initial: map<ProductId, Option<int>>, o: OrderId)
    requires Inv(s, initial)
    ensures Inv(Apply(s, CoreExpires(o)), initial)
  {
    if CoreIs(s, o, Open) {
      CoreEventKeeps(s, initial, o, Unpaid);
    }
  }

  lemma {:induction false} StepKeeps(s: State, initial: map<ProductId, Option<int>>, e: Event)
    requires Inv(s, initial)
    ensures Inv(Apply(s, e), initial)
  {
    match e
    case DoIntake(_, _) => ClaimStepsKeep(s, initial, e);
    case DoBegin(_, _) => ClaimStepsKeep(s, initial, e);
    case DoRejectIntake(_) => ClaimStepsKeep(s, initial, e);
    case DoCreateInvoice(_, _, _) => ClaimStepsKeep(s, initial, e);
    case DoAttach(o, k) => if k < |CoreFor(s, o)| { AttachKeeps(s, initial, o, k); }
    case DoMarkUnknown(o) => MarkUnknownKeeps(s, initial, o);
    case DoReenqueue(o) => ReenqueueKeeps(s, initial, o);
    case CorePays(o) => CorePaysKeeps(s, initial, o);
    case CoreExpires(o) => CoreExpiresKeeps(s, initial, o);
    case DeleteProduct(p) => DeleteKeeps(s, initial, p);
    case DoConfirm(_) => LateStepsKeep(s, initial, e);
    case DoExpire(_) => LateStepsKeep(s, initial, e);
    case _ => ClosingStepsKeep(s, initial, e);
  }

  lemma FreshInv(s: State, initial: map<ProductId, Option<int>>)
    requires Fresh(s, initial)
    ensures Inv(s, initial)
  {
  }

  lemma {:induction false} RunKeeps(s: State, initial: map<ProductId, Option<int>>, events: seq<Event>)
    requires Inv(s, initial)
    ensures Inv(Run(s, events), initial)
  {
    if events != [] {
      RunKeeps(s, initial, events[..|events| - 1]);
      StepKeeps(Run(s, events[..|events| - 1]), initial, events[|events| - 1]);
    }
  }
}
