/**
 * The reservation, invoice and settlement saga as atomic steps over its tables
 * (harness/saga.py; the attach guard is the one of services/checkout.py).
 *
 * Every function is one committed transaction, one call to LNbits, or one
 * event on the LNbits side. A transaction that raises leaves the state as it
 * was. A run is any sequence of steps, so crashes, retries and concurrent
 * workers are the sequences in which a step is missing, repeated or late.
 */
module Saga {
  import opened Wrappers
  import opened Orders
  import opened Inventory

  datatype Order = Order(state: OrderState, exception: bool)

  datatype PaymentStatus = Creating | CreationUnknown | Pending | Settled | Failed

  datatype Payment = Payment(status: PaymentStatus, hash: Option<nat>)

  datatype CoreStatus = Open | Paid | Unpaid

  /** An invoice as LNbits holds it, found again by the order's external id. */
  datatype CorePayment = CorePayment(hash: nat, expiresAt: int, status: CoreStatus)

  /** Outbox intents have deterministic ids, so the id is the intent. */
  datatype Intent =
    | PaymentRequest(order: OrderId)
    | StatusCancelled(order: OrderId)
    | StatusConfirmed(order: OrderId)
    | StockUpdate(order: OrderId, product: ProductId)

  datatype Delivery = Delivery(order: OrderId, hash: nat)

  datatype State = State(
    products: map<ProductId, Product>,
    orders: map<OrderId, Order>,
    carts: map<OrderId, seq<Item>>,
    reservations: seq<Reservation>,
    payments: map<OrderId, Payment>,
    events: seq<OrderEvent>,
    outbox: map<Intent, int>,        // intent -> aggregate revision
    core: map<OrderId, seq<CorePayment>>,
    nextHash: nat,
    pendingCalls: set<OrderId>,      // begun, create_invoice not called yet
    createCalls: map<OrderId, nat>,
    deliveries: seq<Delivery>)

  datatype Reply =
    | Done | MissingOrder | MissingPayment | Refused
    | StockConflict | StateConflict | ConstraintViolation
    | Invoiced(hash: nat) | CallRejected | CallTimedOut
    | Attached(delivered: bool) | AlreadyAttached | AttachConflict
    | AlreadyCancelled | NotCancellable
    | LateSettlement | AlreadySettled | SettlementConflict
    | NotAwaiting

  datatype Step = Step(state: State, reply: Reply)

  datatype CallOutcome = Succeeds | Rejects | TimesOut(persisted: bool)

  // ---- Small pieces ----

  function CartFor(s: State, o: OrderId): seq<Item> {
    if o in s.carts then s.carts[o] else []
  }

  function CoreFor(s: State, o: OrderId): seq<CorePayment> {
    if o in s.core then s.core[o] else []
  }

  function CallsFor(s: State, o: OrderId): nat {
    if o in s.createCalls then s.createCalls[o] else 0
  }

  /** `transition_order` on an admitted transition: the row and its audit row. */
  function Move(s: State, o: OrderId, to: OrderState, reason: string): State
    requires o in s.orders
    requires Admit(Some(s.orders[o].state), Some(s.orders[o].state), to, reason).Ok?
  {
    s.(orders := s.orders[o := s.orders[o].(state := to)],
       events := s.events + [OrderEvent(o, Some(s.orders[o].state), to, reason)])
  }

  /** INSERT ... ON CONFLICT DO NOTHING. */
  function Enqueue(outbox: map<Intent, int>, intent: Intent, revision: int): map<Intent, int> {
    if intent in outbox then outbox else outbox[intent := revision]
  }

  /** One republication per held row of `o`, carrying the product's revision. */
  function EnqueueStock(outbox: map<Intent, int>, rows: seq<Reservation>, o: OrderId, products: map<ProductId, Product>)
    : map<Intent, int>
  {
    if rows == [] then outbox
    else
      var last := rows[|rows| - 1];
      var rest := EnqueueStock(outbox, rows[..|rows| - 1], o, products);
      if last.order == o && last.state == Held && last.item.product in products
      then Enqueue(rest, StockUpdate(o, last.item.product), products[last.item.product].revision)
      else rest
  }

  function Flagged(s: State, o: OrderId): State
    requires o in s.orders
  {
    s.(orders := s.orders[o := s.orders[o].(exception := true)])
  }

  predicate Reserved(rows: seq<Reservation>, o: OrderId, items: seq<Item>) {
    exists i, j :: 0 <= i < |rows| && 0 <= j < |items|
                && rows[i].order == o && rows[i].item.product == items[j].product
  }

  // ---- The steps ----

  /** A committed intake: the order row in `received`, its items, its first audit row. */
  function Intake(s: State, o: OrderId, items: seq<Item>): Step {
    if o in s.orders then Step(s, Refused)
    else
      Step(s.(orders := s.orders[o := Order(Received, false)],
              carts := s.carts[o := items],
              events := s.events + [OrderEvent(o, None, Received, "")]),
           Done)
  }

  /** Step 1: claim the stock of the whole cart, move the order, insert reservations and projection. */
  function Begin(s: State, o: OrderId, expiresAt: int): Step {
    var items := CartFor(s, o);
    if o !in s.orders then Step(s, MissingOrder)
    else if !Claimable(s.products, items) then Step(s, StockConflict)
    else if s.orders[o].state != Received then Step(s, StateConflict)
    else if !DistinctProducts(items) || Reserved(s.reservations, o, items) || o in s.payments then
      Step(s, ConstraintViolation)
    else
      Step(Claimed(s, o, items, Reserve(s.products, items), expiresAt), Done)
  }

  function Claimed(s: State, o: OrderId, items: seq<Item>, stock: map<ProductId, Product>, expiresAt: int): State
    requires o in s.orders && s.orders[o].state == Received
  {
    Move(s, o, InvoicePending, "").(
      products := stock,
      reservations := s.reservations + HeldRowsFor(o, items, expiresAt),
      payments := s.payments[o := Payment(Creating, None)],
      pendingCalls := s.pendingCalls + {o})
  }

  /** A refused claim rejects an order that is still `received` (checkout only). */
  function RejectIntake(s: State, o: OrderId): Step {
    if o !in s.orders || s.orders[o].state != Received then Step(s, Refused)
    else Step(Move(s, o, Rejected, "intake-rejected"), Done)
  }

  /** LNbits persists the invoice before it returns it, so a call that times out may have left one. */
  function Issued(s: State, outcome: CallOutcome, expiresAt: int): seq<CorePayment> {
    if outcome == Rejects || outcome == TimesOut(false) then [] else [CorePayment(s.nextHash, expiresAt, Open)]
  }

  function CallReply(s: State, outcome: CallOutcome): Reply {
    match outcome
    case Succeeds => Invoiced(s.nextHash)
    case Rejects => CallRejected
    case TimesOut(_) => CallTimedOut
  }

  /** Step 2: the call to LNbits, made by the worker whose claim committed. */
  function CreateInvoice(s: State, o: OrderId, outcome: CallOutcome, expiresAt: int): Step {
    if o !in s.pendingCalls then Step(s, Refused)
    else
      var issued := Issued(s, outcome, expiresAt);
      Step(s.(pendingCalls := s.pendingCalls - {o},
              createCalls := s.createCalls[o := CallsFor(s, o) + 1],
              core := s.core[o := CoreFor(s, o) + issued],
              nextHash := s.nextHash + |issued|),
           CallReply(s, outcome))
  }

  /** Step 3: attach an invoice to the projection; deliver only for `invoice_pending`. */
  function Attach(s: State, o: OrderId, hash: nat, expiresAt: int): Step {
    if o !in s.orders then Step(s, MissingOrder)
    else if o !in s.payments then Step(s, AttachConflict)
    else if s.payments[o].status !in {Creating, CreationUnknown} then
      Step(s, if s.payments[o].hash == Some(hash) then AlreadyAttached else AttachConflict)
    else
      var kept := s.(payments := s.payments[o := Payment(Pending, Some(hash))]);
      if s.orders[o].state != InvoicePending then Step(kept, Attached(false))
      else
        Step(Move(kept, o, AwaitingPayment, "").(
               reservations := Realign(s.reservations, o, expiresAt),
               outbox := Enqueue(s.outbox, PaymentRequest(o), 1),
               deliveries := s.deliveries + [Delivery(o, hash)]),
             Attached(true))
  }

  /** Step 4: cancellation gives the held stock back. */
  function Cancel(s: State, o: OrderId, reason: string): Step {
    if o !in s.orders then Step(s, MissingOrder)
    else if s.orders[o].state == Cancelled then Step(s, AlreadyCancelled)
    else if s.orders[o].state !in {Received, InvoicePending, AwaitingPayment} then Step(s, NotCancellable)
    else
      Step(Move(s, o, Cancelled, reason).(
             products := GiveBack(s.products, s.reservations, o),
             reservations := CloseHeld(s.reservations, o, Released),
             outbox := Enqueue(s.outbox, StatusCancelled(o), 1)),
           Done)
  }

  /** Definitive rejection: the projection fails; only an `invoice_pending` order is rejected. */
  function MarkRejection(s: State, o: OrderId): Step {
    if o !in s.orders then Step(s, MissingOrder)
    else
      var failed :=
        if o in s.payments && s.payments[o].status in {Creating, CreationUnknown}
        then s.(payments := s.payments[o := s.payments[o].(status := Failed)]) else s;
      if s.orders[o].state != InvoicePending then Step(failed, Done)
      else
        Step(Move(failed, o, Rejected, "invoice-creation-rejected").(
               products := GiveBack(s.products, s.reservations, o),
               reservations := CloseHeld(s.reservations, o, Released)),
             Done)
  }

  /** Timeout: the outcome stays open and the order is flagged. */
  function MarkUnknown(s: State, o: OrderId): Step {
    var unknown :=
      if o in s.payments && s.payments[o].status == Creating
      then s.(payments := s.payments[o := s.payments[o].(status := CreationUnknown)]) else s;
    if o in s.orders then Step(Flagged(unknown, o), Done) else Step(unknown, Done)
  }

  /** The settlement transaction. */
  function ConfirmSettlement(s: State, o: OrderId): Step {
    if o !in s.orders then Step(s, MissingOrder)
    else if o !in s.payments then Step(s, MissingPayment)
    else if s.payments[o].status == Settled then Step(s, AlreadySettled)
    else if s.payments[o].status == Failed then Step(s, SettlementConflict)
    else
      var paid := s.(payments := s.payments[o := s.payments[o].(status := Settled)]);
      if s.orders[o].state != AwaitingPayment then Step(Flagged(paid, o), LateSettlement)
      else Step(Sold(paid, o), Done)
  }

  /** The awaited order is confirmed: its held stock is sold and republished. */
  function Sold(s: State, o: OrderId): State
    requires o in s.orders && s.orders[o].state == AwaitingPayment
  {
    var products := Sell(s.products, s.reservations, o);
    Move(s, o, Confirmed, "").(
      products := products,
      reservations := CloseHeld(s.reservations, o, Consumed),
      outbox := EnqueueStock(Enqueue(s.outbox, StatusConfirmed(o), 1), s.reservations, o, products))
  }

  /** The invoice expired unpaid. */
  function ExpireOrder(s: State, o: OrderId): Step {
    if o !in s.orders then Step(s, MissingOrder)
    else if s.orders[o].state != AwaitingPayment then Step(s, NotAwaiting)
    else
      Step(Move(s, o, Expired, "invoice-expired-unpaid").(
             products := GiveBack(s.products, s.reservations, o),
             reservations := CloseHeld(s.reservations, o, Lapsed),
             outbox := Enqueue(s.outbox, StatusCancelled(o), 1)),
           Done)
  }

  /** Reconciliation re-enqueues a payment request that is missing. */
  function Reenqueue(s: State, o: OrderId): Step {
    if o in s.orders && s.orders[o].state == AwaitingPayment && o in s.payments && s.payments[o].status == Pending
    then Step(s.(outbox := Enqueue(s.outbox, PaymentRequest(o), 1)), Done)
    else Step(s, Refused)
  }

  function Retag(payments: seq<CorePayment>, status: CoreStatus): seq<CorePayment> {
    seq(|payments|, i requires 0 <= i < |payments| => payments[i].(status := status))
  }

  /** `payment_status`: the one status all core payments of the order share. */
  predicate CoreIs(s: State, o: OrderId, status: CoreStatus) {
    && CoreFor(s, o) != []
    && forall i :: 0 <= i < |CoreFor(s, o)| ==> CoreFor(s, o)[i].status == status
  }

  // ---- Runs ----

  datatype Event =
    | DoIntake(order: OrderId, items: seq<Item>)
    | DoBegin(order: OrderId, expiresAt: int)
    | DoRejectIntake(order: OrderId)
    | DoCreateInvoice(order: OrderId, outcome: CallOutcome, expiresAt: int)
    | DoAttach(order: OrderId, index: nat)   // an invoice LNbits holds for the order
    | DoCancel(order: OrderId, reason: string)
    | DoMarkRejection(order: OrderId)
    | DoMarkUnknown(order: OrderId)
    | DoConfirm(order: OrderId)              // callback or reconciliation saw it paid
    | DoExpire(order: OrderId)
    | DoReenqueue(order: OrderId)
    | CorePays(order: OrderId)
    | CoreExpires(order: OrderId)
    | DeleteProduct(product: ProductId)

  function Apply(s: State, e: Event): State {
    match e
    case DoIntake(o, items) => Intake(s, o, items).state
    case DoBegin(o, expiresAt) => Begin(s, o, expiresAt).state
    case DoRejectIntake(o) => RejectIntake(s, o).state
    case DoCreateInvoice(o, outcome, expiresAt) => CreateInvoice(s, o, outcome, expiresAt).state
    case DoAttach(o, k) =>
      if k < |CoreFor(s, o)| then Attach(s, o, CoreFor(s, o)[k].hash, CoreFor(s, o)[k].expiresAt).state else s
    case DoCancel(o, reason) => Cancel(s, o, reason).state
    case DoMarkRejection(o) => MarkRejection(s, o).state
    case DoMarkUnknown(o) => MarkUnknown(s, o).state
    case DoConfirm(o) => if CoreIs(s, o, Paid) then ConfirmSettlement(s, o).state else s
    case DoExpire(o) => ExpireOrder(s, o).state
    case DoReenqueue(o) => Reenqueue(s, o).state
    case CorePays(o) => if CoreIs(s, o, Open) then s.(core := s.core[o := Retag(CoreFor(s, o), Paid)]) else s
    case CoreExpires(o) => if CoreIs(s, o, Open) then s.(core := s.core[o := Retag(CoreFor(s, o), Unpaid)]) else s
    case DeleteProduct(p) =>
      if p in s.products then s.(products := s.products[p := s.products[p].(deleted := true)]) else s
  }

  function Run(s: State, events: seq<Event>): State {
    if events == [] then s else Apply(Run(s, events[..|events| - 1]), events[|events| - 1])
  }

  /** An empty shop whose products start with the stock of `initial`. */
  predicate Fresh(s: State, initial: map<ProductId, Option<int>>) {
    && s.orders == map[] && s.carts == map[] && s.reservations == [] && s.payments == map[]
    && s.events == [] && s.outbox == map[] && s.core == map[]
    && s.pendingCalls == {} && s.createCalls == map[] && s.deliveries == []
    && s.products.Keys == initial.Keys
    && forall p :: p in s.products ==>
         s.products[p].onHand == initial[p] && s.products[p].reserved == 0
         && (initial[p].Some? ==> initial[p].value >= 0)
  }
}
