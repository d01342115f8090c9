/**
 * How checkout hands an attached invoice to a buyer with a Nostr key: the payment request is enqueued in a transaction of
 * its own, after the attach (infinitemarkets/services/checkout.py; recovery in order_messages.py).
 */
module Handover {
  import opened Wrappers
  import opened Orders
  import opened Inventory
  import opened Saga
  import SagaInvariant
  import SagaProof
  import SagaTheorems

  datatype Path = Web | Gamma | Recovery

  /** What the worker whose attach entered `awaiting_payment` still has to do. */
  datatype Unsent = Unsent(hash: nat, path: Path)

  /** One enqueued payment request, with the order's state at that moment. */
  datatype Request = Request(order: OrderId, hash: nat, path: Path, state: OrderState)

  datatype State = State(
    shop: Saga.State,
    pending: map<OrderId, Unsent>,
    scanned: set<(nat, OrderId, nat)>,    // (recovery pass, order, payment hash) read as missing its request
    requests: seq<Request>)

  // ---- The steps ----

  /** begin_saga's attach: on success the caller holds the invoice, to be sent by its own path. */
  function AttachFor(s: State, o: OrderId, k: nat, path: Path): State {
    if k >= |CoreFor(s.shop, o)| then s
    else
      var invoice := CoreFor(s.shop, o)[k];
      After(s, Attach(s.shop, o, invoice.hash, invoice.expiresAt), o, Unsent(invoice.hash, path))
  }

  /** The attach's step, and what its caller remembers of it. */
  function After(s: State, step: Step, o: OrderId, unsent: Unsent): State {
    s.(shop := step.state, pending := if step.reply == Attached(true) then s.pending[o := unsent] else s.pending)
  }

  /** The web path re-reads the order under a lock (checkout.py:766-790); the Gamma path does not (1491-1506). */
  predicate Sends(s: State, o: OrderId) {
    && o in s.pending && o in s.shop.orders
    && (s.pending[o].path == Web ==> s.shop.orders[o].state == AwaitingPayment)
  }

  function SendRequest(s: State, o: OrderId): State {
    if o !in s.pending then s
    else
      s.(pending := s.pending - {o},
         requests := if Sends(s, o)
                     then s.requests + [Request(o, s.pending[o].hash, s.pending[o].path, s.shop.orders[o].state)]
                     else s.requests)
  }

  /** A crash between attach and enqueue. */
  function Crash(s: State, o: OrderId): State {
    s.(pending := s.pending - {o})
  }

  predicate Requested(requests: seq<Request>, o: OrderId) {
    exists i :: 0 <= i < |requests| && requests[i].order == o
  }

  /** Recovery reads awaiting orders without a request ... */
  function ScanMissing(s: State, pass: nat, o: OrderId): State {
    if o in s.shop.orders && s.shop.orders[o].state == AwaitingPayment && o in s.shop.payments
       && s.shop.payments[o].status == Saga.Pending && s.shop.payments[o].hash.Some? && !Requested(s.requests, o)
    then s.(scanned := s.scanned + {(pass, o, s.shop.payments[o].hash.value)})
    else s
  }

  /** ... and enqueues in a later transaction, without reading the order again (order_messages.py:882-918). */
  function SendMissing(s: State, pass: nat, o: OrderId, hash: nat): State {
    if (pass, o, hash) !in s.scanned || o !in s.shop.orders then s
    else
      s.(scanned := s.scanned - {(pass, o, hash)},
         requests := s.requests + [Request(o, hash, Recovery, s.shop.orders[o].state)])
  }

  datatype Event =
    | OnShop(step: Saga.Event)
    | DoAttachFor(order: OrderId, index: nat, path: Path)
    | DoSendRequest(order: OrderId)
    | DoCrash(order: OrderId)
    | DoScanMissing(pass: nat, order: OrderId)
    | DoSendMissing(pass: nat, order: OrderId, hash: nat)

  function Apply(s: State, e: Event): State {
    match e
    case OnShop(step) => s.(shop := Saga.Apply(s.shop, step))
    case DoAttachFor(o, k, path) => if path == Recovery then s else AttachFor(s, o, k, path)
    case DoSendRequest(o) => SendRequest(s, o)
    case DoCrash(o) => Crash(s, o)
    case DoScanMissing(pass, o) => ScanMissing(s, pass, o)
    case DoSendMissing(pass, o, hash) => SendMissing(s, pass, o, hash)
  }

  function Run(s: State, events: seq<Event>): State {
    if events == [] then s else Apply(Run(s, events[..|events| - 1]), events[|events| - 1])
  }

  function Opening(shop: Saga.State): State {
    State.State(shop, map[], {}, [])
  }

  // ---- When each path asks ----

  /** An attach leaves its caller the invoice to send exactly when it made an invoice_pending order await payment. */
  lemma AttachForExactly(s: State, o: OrderId, k: nat, path: Path)
    requires path != Recovery
    ensures
      var t := Apply(s, DoAttachFor(o, k, path));
      && t.requests == s.requests && t.scanned == s.scanned && t.shop == Saga.Apply(s.shop, DoAttach(o, k))
      && t.pending ==
           if && k < |CoreFor(s.shop, o)| && o in s.shop.orders && s.shop.orders[o].state == InvoicePending
              && o in s.shop.payments && s.shop.payments[o].status in {Creating, CreationUnknown}
           then s.pending[o := Unsent(CoreFor(s.shop, o)[k].hash, path)] else s.pending
  {
  }

  /** The invoice is asked for once: on the web path only while the order awaits payment, on the Gamma path in any state. */
  lemma SendExactly(s: State, o: OrderId)
    ensures
      var t := SendRequest(s, o);
      && t.pending == s.pending - {o} && t.shop == s.shop && t.scanned == s.scanned
      && t.requests == s.requests +
           if && o in s.pending && o in s.shop.orders
              && (s.pending[o].path == Web ==> s.shop.orders[o].state == AwaitingPayment)
           then [Request(o, s.pending[o].hash, s.pending[o].path, s.shop.orders[o].state)] else []
    ensures Apply(s, DoCrash(o)) == s.(pending := s.pending - {o})
  {
  }

  /** Recovery reads an awaiting order with a pending payment and no request of any path, and later asks for what it read. */
  lemma RecoveryExactly(s: State, pass: nat, o: OrderId, hash: nat)
    ensures
      var t := ScanMissing(s, pass, o);
      && t.(scanned := s.scanned) == s
      && ((pass, o, hash) in t.scanned <==>
            || (pass, o, hash) in s.scanned
            || (&& o in s.shop.orders && s.shop.orders[o].state == AwaitingPayment && o in s.shop.payments
                && s.shop.payments[o] == Payment(Saga.Pending, Some(hash))
                && forall i :: 0 <= i < |s.requests| ==> s.requests[i].order != o))
    ensures
      var t := SendMissing(s, pass, o, hash);
      && t.shop == s.shop && t.pending == s.pending
      && t.requests == s.requests +
           (if (pass, o, hash) in s.scanned && o in s.shop.orders
            then [Request(o, hash, Recovery, s.shop.orders[o].state)] else [])
      && (o in s.shop.orders ==> t.scanned == s.scanned - {(pass, o, hash)})
  {
  }

  // ---- When a closed order is asked to pay ----

  /** A step asks for the payment of an order that does not await it. */
  predicate AsksClosed(s: State, e: Event, o: OrderId) {
    && |Apply(s, e).requests| > |s.requests|
    && Apply(s, e).requests[|s.requests|].order == o
    && Apply(s, e).requests[|s.requests|].state != AwaitingPayment
  }

  /**
   * A closed order's request is enqueued exactly when the order was closed between the read that justified the request
   * and its enqueue, on one of the two paths that do not read again.
   */
  lemma ClosedIsAskedExactly(s: State, e: Event, o: OrderId)
    ensures
      AsksClosed(s, e, o) <==>
      && o in s.shop.orders && s.shop.orders[o].state != AwaitingPayment
      && ((e == DoSendRequest(o) && o in s.pending && s.pending[o].path != Web)
          || (e.DoSendMissing? && e.order == o && (e.pass, o, e.hash) in s.scanned))
  {
  }

  /** From any state in which a Gamma worker holds an attached invoice: a cancel in between, and the closed order is asked. */
  lemma CancelBeforeEnqueueAsksClosed(s: State, o: OrderId, reason: string)
    requires o in s.pending && s.pending[o].path == Gamma
    requires o in s.shop.orders && s.shop.orders[o].state == AwaitingPayment
    ensures
      var cancelled := Apply(s, OnShop(DoCancel(o, reason)));
      && cancelled.shop.orders[o].state == Cancelled
      && AsksClosed(cancelled, DoSendRequest(o), o)
  {
  }

  // ---- What every run keeps ----

  predicate FromAttach(r: Request, o: OrderId) {
    r.order == o && r.path != Recovery
  }

  function AttachRequests(requests: seq<Request>, o: OrderId): nat {
    if requests == [] then 0
    else AttachRequests(requests[..|requests| - 1], o) + if FromAttach(requests[|requests| - 1], o) then 1 else 0
  }

  function Owed(s: State, o: OrderId): nat {
    AttachRequests(s.requests, o) + if o in s.pending then 1 else 0
  }

  /** The one invoice LNbits holds for the order. */
  predicate InvoiceOf(shop: Saga.State, o: OrderId, hash: nat) {
    CoreFor(shop, o) != [] && CoreFor(shop, o)[0].hash == hash
  }

  predicate RequestsOk(s: State) {
    && (forall i :: 0 <= i < |s.requests| ==>
          && InvoiceOf(s.shop, s.requests[i].order, s.requests[i].hash)
          && (s.requests[i].path == Web ==> s.requests[i].state == AwaitingPayment))
    && (forall o :: o in s.pending ==> InvoiceOf(s.shop, o, s.pending[o].hash) && s.pending[o].path != Recovery)
    && (forall x :: x in s.scanned ==> InvoiceOf(s.shop, x.1, x.2))
  }

  ghost predicate Inv(s: State, initial: map<ProductId, Option<int>>) {
    && SagaInvariant.Inv(s.shop, initial)
    && RequestsOk(s)
    && forall o: OrderId :: Owed(s, o) <= |SagaInvariant.DeliveredTo(s.shop.deliveries, o)|
  }

  lemma DeliveriesGrow(s: Saga.State, e: Saga.Event, o: OrderId)
    ensures |SagaInvariant.DeliveredTo(Saga.Apply(s, e).deliveries, o)| >= |SagaInvariant.DeliveredTo(s.deliveries, o)|
  {
    SagaTheorems.OnlyAttachAppends(s, e);
    if Saga.Apply(s, e).deliveries != s.deliveries {
      SagaProof.DeliveredAppend(s.deliveries, Delivery(e.order, CoreFor(s, e.order)[e.index].hash));
    }
  }

  lemma ShopStepKeeps(s: State, initial: map<ProductId, Option<int>>, e: Saga.Event)
    requires Inv(s, initial)
    ensures Inv(s.(shop := Saga.Apply(s.shop, e)), initial)
  {
    SagaProof.StepKeeps(s.shop, initial, e);
    var t := s.(shop := Saga.Apply(s.shop, e));
    forall o: OrderId, hash: nat | InvoiceOf(s.shop, o, hash) ensures InvoiceOf(t.shop, o, hash) {
      SagaTheorems.StepGrows(s.shop, e, o);
    }
    forall o: OrderId ensures Owed(t, o) <= |SagaInvariant.DeliveredTo(t.shop.deliveries, o)| {
      DeliveriesGrow(s.shop, e, o);
      assert Owed(t, o) == Owed(s, o);
    }
  }

  lemma NewDebtKeeps(s: State, initial: map<ProductId, Option<int>>, o: OrderId, unsent: Unsent)
    requires Inv(s, initial) && o !in s.pending && AttachRequests(s.requests, o) == 0
    requires |SagaInvariant.DeliveredTo(s.shop.deliveries, o)| == 1
    requires InvoiceOf(s.shop, o, unsent.hash) && unsent.path != Recovery
    ensures Inv(s.(pending := s.pending[o := unsent]), initial)
  {
    var t := s.(pending := s.pending[o := unsent]);
    forall x: OrderId ensures Owed(t, x) <= |SagaInvariant.DeliveredTo(t.shop.deliveries, x)| {
      assert x != o ==> Owed(t, x) == Owed(s, x);
    }
  }

  lemma AttachIsStep(shop: Saga.State, o: OrderId, k: nat)
    requires k < |CoreFor(shop, o)|
    ensures
      Attach(shop, o, CoreFor(shop, o)[k].hash, CoreFor(shop, o)[k].expiresAt).state == Saga.Apply(shop, DoAttach(o, k))
  {
  }

  /** A successful attach delivers the one invoice, once more than before. */
  predicate Delivers(s: Saga.State, step: Step, o: OrderId, hash: nat) {
    step.reply == Attached(true) ==>
      && InvoiceOf(step.state, o, hash)
      && |SagaInvariant.DeliveredTo(step.state.deliveries, o)| == |SagaInvariant.DeliveredTo(s.deliveries, o)| + 1
  }

  lemma AttachEffect(s: Saga.State, o: OrderId, k: nat)
    requires SagaInvariant.ViewsOk(s) && k < |CoreFor(s, o)|
    ensures Delivers(s, Attach(s, o, CoreFor(s, o)[k].hash, CoreFor(s, o)[k].expiresAt), o, CoreFor(s, o)[k].hash)
  {
    LoneInvoice(s, o);
    if Attach(s, o, CoreFor(s, o)[k].hash, CoreFor(s, o)[k].expiresAt).reply == Attached(true) {
      AttachDelivers(s, o, CoreFor(s, o)[k].hash, CoreFor(s, o)[k].expiresAt);
    }
  }

  lemma AfterKeeps(s: State, initial: map<ProductId, Option<int>>, step: Step, o: OrderId, unsent: Unsent)
    requires Inv(s, initial) && Inv(s.(shop := step.state), initial)
    requires Delivers(s.shop, step, o, unsent.hash) && unsent.path != Recovery
    ensures Inv(After(s, step, o, unsent), initial)
  {
    if step.reply == Attached(true) {
      DeliveredDebtKeeps(s, step.state, initial, o, unsent);
    }
  }

  lemma AttachKeeps(s: State, initial: map<ProductId, Option<int>>, o: OrderId, k: nat, path: Path)
    requires Inv(s, initial) && path != Recovery
    ensures Inv(AttachFor(s, o, k, path), initial)
  {
    if k < |CoreFor(s.shop, o)| {
      var invoice := CoreFor(s.shop, o)[k];
      ShopStepKeeps(s, initial, DoAttach(o, k));
      AttachIsStep(s.shop, o, k);
      AttachEffect(s.shop, o, k);
      AfterKeeps(s, initial, Attach(s.shop, o, invoice.hash, invoice.expiresAt), o, Unsent(invoice.hash, path));
    }
  }

  lemma DeliveredDebtKeeps(s: State, shop: Saga.State, initial: map<ProductId, Option<int>>, o: OrderId, unsent: Unsent)
    requires Inv(s, initial) && Inv(s.(shop := shop), initial)
    requires |SagaInvariant.DeliveredTo(shop.deliveries, o)| == |SagaInvariant.DeliveredTo(s.shop.deliveries, o)| + 1
    requires InvoiceOf(shop, o, unsent.hash) && unsent.path != Recovery
    ensures Inv(s.(shop := shop, pending := s.pending[o := unsent]), initial)
  {
    NothingOwed(s, s.(shop := shop), o);
    NewDebtKeeps(s.(shop := shop), initial, o, unsent);
  }

  lemma NothingOwed(s: State, moved: State, o: OrderId)
    requires SagaInvariant.ViewsOk(moved.shop) && moved.pending == s.pending && moved.requests == s.requests
    requires Owed(s, o) <= |SagaInvariant.DeliveredTo(s.shop.deliveries, o)|
    requires |SagaInvariant.DeliveredTo(moved.shop.deliveries, o)| == |SagaInvariant.DeliveredTo(s.shop.deliveries, o)| + 1
    ensures o !in moved.pending && AttachRequests(moved.requests, o) == 0
    ensures |SagaInvariant.DeliveredTo(moved.shop.deliveries, o)| == 1
  {
    LoneDelivery(moved.shop, o);
  }

  lemma AttachDelivers(s: Saga.State, o: OrderId, hash: nat, expiresAt: int)
    requires Attach(s, o, hash, expiresAt).reply == Attached(true)
    ensures
      |SagaInvariant.DeliveredTo(Attach(s, o, hash, expiresAt).state.deliveries, o)|
      == |SagaInvariant.DeliveredTo(s.deliveries, o)| + 1
    ensures CoreFor(Attach(s, o, hash, expiresAt).state, o) == CoreFor(s, o)
  {
    SagaProof.DeliveredAppend(s.deliveries, Delivery(o, hash));
  }

  lemma LoneInvoice(s: Saga.State, o: OrderId)
    requires SagaInvariant.ViewsOk(s)
    ensures |CoreFor(s, o)| <= 1
  {
    assert SagaInvariant.OrderOk(SagaInvariant.ViewOf(s, o));
  }

  lemma LoneDelivery(s: Saga.State, o: OrderId)
    requires SagaInvariant.ViewsOk(s)
    ensures |SagaInvariant.DeliveredTo(s.deliveries, o)| <= 1
  {
    assert SagaInvariant.OrderOk(SagaInvariant.ViewOf(s, o));
  }

  lemma AttachRequestsSnoc(requests: seq<Request>, r: Request, o: OrderId)
    ensures AttachRequests(requests + [r], o) == AttachRequests(requests, o) + if FromAttach(r, o) then 1 else 0
  {
    assert (requests + [r])[..|requests|] == requests;
  }

  lemma SendKeeps(s: State, initial: map<ProductId, Option<int>>, o: OrderId)
    requires Inv(s, initial)
    ensures Inv(SendRequest(s, o), initial)
  {
    var t := SendRequest(s, o);
    if o in s.pending {
      forall x: OrderId ensures Owed(t, x) <= Owed(s, x) {
        if Sends(s, o) {
          AttachRequestsSnoc(s.requests, t.requests[|s.requests|], x);
        }
      }
    }
  }

  lemma SendMissingKeeps(s: State, initial: map<ProductId, Option<int>>, pass: nat, o: OrderId, hash: nat)
    requires Inv(s, initial)
    ensures Inv(SendMissing(s, pass, o, hash), initial)
  {
    var t := SendMissing(s, pass, o, hash);
    if t != s {
      assert InvoiceOf(s.shop, (pass, o, hash).1, (pass, o, hash).2);
      forall x: OrderId ensures Owed(t, x) == Owed(s, x) {
        AttachRequestsSnoc(s.requests, t.requests[|s.requests|], x);
      }
    }
  }

  lemma ScanKeeps(s: State, initial: map<ProductId, Option<int>>, pass: nat, o: OrderId)
    requires Inv(s, initial)
    ensures Inv(ScanMissing(s, pass, o), initial)
  {
    var t := ScanMissing(s, pass, o);
    if t != s {
      assert SagaInvariant.OrderOk(SagaInvariant.ViewOf(s.shop, o));
      assert InvoiceOf(s.shop, o, s.shop.payments[o].hash.value);
    }
    forall x: OrderId ensures Owed(t, x) == Owed(s, x) {
    }
  }

  lemma CrashKeeps(s: State, initial: map<ProductId, Option<int>>, o: OrderId)
    requires Inv(s, initial)
    ensures Inv(Crash(s, o), initial)
  {
    forall x: OrderId ensures Owed(Crash(s, o), x) <= Owed(s, x) {
    }
  }

  lemma StepKeeps(s: State, initial: map<ProductId, Option<int>>, e: Event)
    requires Inv(s, initial)
    ensures Inv(Apply(s, e), initial)
  {
    match e
    case OnShop(step) => ShopStepKeeps(s, initial, step);
    case DoAttachFor(o, k, path) => if path != Recovery { AttachKeeps(s, initial, o, k, path); }
    case DoSendRequest(o) => SendKeeps(s, initial, o);
    case DoCrash(o) => CrashKeeps(s, initial, o);
    case DoScanMissing(pass, o) => ScanKeeps(s, initial, pass, o);
    case DoSendMissing(pass, o, hash) => SendMissingKeeps(s, initial, pass, o, hash);
  }

  lemma {:induction false} RunKeeps(shop: Saga.State, initial: map<ProductId, Option<int>>, events: seq<Event>)
    requires Fresh(shop, initial)
    ensures Inv(Run(Opening(shop), events), initial)
  {
    if events == [] {
      SagaProof.FreshInv(shop, initial);
    } else {
      var front := events[..|events| - 1];
      RunKeeps(shop, initial, front);
      StepKeeps(Run(Opening(shop), front), initial, events[|events| - 1]);
    }
  }

  /**
   * In every run: checkout enqueues at most one request per order, every request names the one invoice LNbits holds for
   * the order, and the web path never asks for the payment of an order that does not await it.
   */
  lemma {:induction false} RequestsAreSound(
    shop: Saga.State, initial: map<ProductId, Option<int>>, events: seq<Event>, o: OrderId)
    requires Fresh(shop, initial)
    ensures
      var t := Run(Opening(shop), events);
      && AttachRequests(t.requests, o) <= 1
      && (forall i :: 0 <= i < |t.requests| ==>
            && InvoiceOf(t.shop, t.requests[i].order, t.requests[i].hash)
            && (t.requests[i].path == Web ==> t.requests[i].state == AwaitingPayment))
  {
    RunKeeps(shop, initial, events);
    LoneDelivery(Run(Opening(shop), events).shop, o);
    assert Owed(Run(Opening(shop), events), o) <= |SagaInvariant.DeliveredTo(Run(Opening(shop), events).shop.deliveries, o)|;
  }

  lemma RunSnoc(s: State, events: seq<Event>, e: Event)
    ensures Run(s, events + [e]) == Apply(Run(s, events), e)
  {
    assert (events + [e])[..|events|] == events;
  }

  /** A run of saga steps alone. */
  function OnlyShop(steps: seq<Saga.Event>): seq<Event> {
    seq(|steps|, i requires 0 <= i < |steps| => OnShop(steps[i]))
  }

  lemma {:induction false} OnlyShopRuns(shop: Saga.State, steps: seq<Saga.Event>)
    ensures Run(Opening(shop), OnlyShop(steps)) == Opening(Saga.Run(shop, steps))
  {
    if steps != [] {
      var front := steps[..|steps| - 1];
      OnlyShopRuns(shop, front);
      assert OnlyShop(steps) == OnlyShop(front) + [OnShop(steps[|steps| - 1])];
      RunSnoc(Opening(shop), OnlyShop(front), OnShop(steps[|steps| - 1]));
    }
  }

  /** A fresh shop's empty order, begun, invoiced and attached for a Gamma buyer. */
  lemma GammaAttaches(shop: Saga.State, initial: map<ProductId, Option<int>>) returns (events: seq<Event>)
    requires Fresh(shop, initial)
    ensures
      var t := Run(Opening(shop), events);
      && 0 in t.shop.orders && t.shop.orders[0].state == AwaitingPayment
      && 0 in t.pending && t.pending[0] == Unsent(shop.nextHash, Gamma)
  {
    var steps := [DoIntake(0, []), DoBegin(0, 9)] + [DoCreateInvoice(0, Succeeds, 9)];
    OnlyShopRuns(shop, steps);
    SagaTheorems.EmptyCartBegins(shop, initial);
    RunSnoc(Opening(shop), OnlyShop(steps), DoAttachFor(0, 0, Gamma));
    AttachSucceeds(Run(Opening(shop), OnlyShop(steps)), shop.nextHash);
    events := OnlyShop(steps) + [DoAttachFor(0, 0, Gamma)];
  }

  lemma AttachSucceeds(s: State, hash: nat)
    requires 0 in s.shop.orders && s.shop.orders[0].state == InvoicePending
    requires 0 in s.shop.payments && s.shop.payments[0].status == Creating
    requires CoreFor(s.shop, 0) == [CorePayment(hash, 9, Open)]
    ensures
      var t := AttachFor(s, 0, 0, Gamma);
      && 0 in t.shop.orders && t.shop.orders[0].state == AwaitingPayment
      && t.pending == s.pending[0 := Unsent(hash, Gamma)]
  {
  }

  /** From every fresh shop a run of a Gamma order that is cancelled between attach and enqueue, and asked to pay after. */
  lemma ClosedGammaOrderIsAsked(shop: Saga.State, initial: map<ProductId, Option<int>>)
    returns (events: seq<Event>, e: Event)
    requires Fresh(shop, initial)
    ensures
      var t := Run(Opening(shop), events);
      && 0 in t.shop.orders && t.shop.orders[0].state == Cancelled
      && AsksClosed(t, e, 0)
  {
    var attached := GammaAttaches(shop, initial);
    RunSnoc(Opening(shop), attached, OnShop(DoCancel(0, "buyer")));
    CancelBeforeEnqueueAsksClosed(Run(Opening(shop), attached), 0, "buyer");
    events, e := attached + [OnShop(DoCancel(0, "buyer"))], DoSendRequest(0);
  }
}
