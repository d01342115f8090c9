/** What every run of the saga keeps. */
module SagaInvariant {
  import opened Wrappers
  import opened Orders
  import opened Inventory
  import opened Saga

  // ---- One order as all tables see it ----

  datatype View = View(
    order: Option<Order>,
    cart: Option<seq<Item>>,
    reserved: seq<Item>,
    payment: Option<Payment>,
    trail: seq<OrderEvent>,
    core: seq<CorePayment>,
    calls: nat,
    callPending: bool,
    delivered: seq<nat>,
    requested: bool,
    saidCancelled: bool,
    saidConfirmed: bool,
    republished: set<ProductId>)

  function DeliveredTo(deliveries: seq<Delivery>, o: OrderId): seq<nat> {
    if deliveries == [] then []
    else
      var last := deliveries[|deliveries| - 1];
      DeliveredTo(deliveries[..|deliveries| - 1], o) + if last.order == o then [last.hash] else []
  }

  function Republished(outbox: map<Intent, int>, o: OrderId): set<ProductId> {
    set i | i in outbox && i.StockUpdate? && i.order == o :: i.product
  }

  function ViewOf(s: State, o: OrderId): View {
    View(if o in s.orders then Some(s.orders[o]) else None,
         if o in s.carts then Some(s.carts[o]) else None,
         CartOf(s.reservations, o),
         if o in s.payments then Some(s.payments[o]) else None,
         Trail(s.events, o),
         CoreFor(s, o),
         CallsFor(s, o),
         o in s.pendingCalls,
         DeliveredTo(s.deliveries, o),
         PaymentRequest(o) in s.outbox,
         StatusCancelled(o) in s.outbox,
         StatusConfirmed(o) in s.outbox,
         Republished(s.outbox, o))
  }

  function ProductsOf(items: seq<Item>): set<ProductId> {
    set x | x in items :: x.product
  }

  /** The invoice was asked for at most once, and LNbits holds at most what was asked for. */
  predicate CallsOk(v: View) {
    && v.calls <= 1
    && (v.callPending ==> v.calls == 0)
    && |v.core| <= v.calls
  }

  predicate Silent(v: View) {
    v.delivered == [] && !v.requested && !v.saidConfirmed && v.republished == {}
  }

  /** The projection names the one invoice LNbits holds. */
  predicate Correlated(v: View) {
    && v.payment.Some?
    && v.payment.value.hash.Some?
    && |v.core| == 1
    && v.core[0].hash == v.payment.value.hash.value
  }

  /** The buyer got exactly the payment request of that invoice. */
  predicate DeliveredOnce(v: View) {
    Correlated(v) && v.delivered == [v.payment.value.hash.value] && v.requested
  }

  predicate PaymentOk(v: View) {
    v.order.Some? && v.payment.Some? ==>
      && (v.payment.value.status == CreationUnknown ==> v.order.value.exception)
      && (v.payment.value.status == Settled && v.order.value.state != Confirmed ==> v.order.value.exception)
      && (v.payment.value.hash.Some? ==> Correlated(v))
      && (v.payment.value.status in {Creating, CreationUnknown} ==> v.payment.value.hash.None?)
      && (v.payment.value.status == Pending ==> v.payment.value.hash.Some?)
  }

  /** What the state of an order says about every other table. */
  predicate OrderOk(v: View) {
    if v.order.None? then
      v == View(None, None, [], None, [], [], 0, false, [], false, false, false, {})
    else
      var st := v.order.value.state;
      && v.cart.Some?
      && LegalPath(v.trail, st)
      && CallsOk(v)
      && PaymentOk(v)
      && (v.payment.None? ==> v.reserved == [] && v.calls == 0 && !v.callPending)
      && (v.payment.Some? ==> v.reserved == v.cart.value)
      && (v.saidCancelled <==> st in {Cancelled, Expired})
      && match st
         case Received => v.payment.None? && Silent(v)
         case InvoicePending =>
           v.payment.Some? && v.payment.value.status in {Creating, CreationUnknown, Settled}
           && v.payment.value.hash.None? && Silent(v)
         case AwaitingPayment =>
           v.payment.Some? && v.payment.value.status == Pending && DeliveredOnce(v)
           && !v.saidConfirmed && v.republished == {}
         case Confirmed =>
           v.payment.Some? && v.payment.value.status == Settled && DeliveredOnce(v)
           && v.core[0].status == Paid
           && v.saidConfirmed && v.republished == ProductsOf(v.cart.value)
         case Expired =>
           v.payment.Some? && v.payment.value.status in {Pending, Settled} && DeliveredOnce(v)
           && !v.saidConfirmed && v.republished == {}
         case Rejected =>
           (v.payment.Some? ==> v.payment.value.status in {Failed, Settled}) && Silent(v)
         case Cancelled =>
           (Silent(v) || DeliveredOnce(v)) && !v.saidConfirmed && v.republished == {}
         case _ => false
  }

  // ---- The shared tables ----

  /** The one state all reservations of an order in state `st` are in. */
  function RowState(st: OrderState): ReservationState {
    match st
    case Received => Held
    case InvoicePending => Held
    case AwaitingPayment => Held
    case Rejected => Released
    case Cancelled => Released
    case Expired => Lapsed
    case _ => Consumed
  }

  predicate RowsOk(rows: seq<Reservation>, orders: map<OrderId, Order>, products: map<ProductId, Product>) {
    forall i :: 0 <= i < |rows| ==>
      && rows[i].order in orders
      && rows[i].state == RowState(orders[rows[i].order].state)
      && rows[i].item.product in products
  }

  predicate ProductOk(product: Product, initial: Option<int>, held: nat, consumed: nat) {
    && product.reserved == held
    && (product.onHand.Some? <==> initial.Some?)
    && (initial.Some? ==>
          product.reserved <= product.onHand.value && product.onHand.value + consumed == initial.value)
  }

  predicate StockOk(products: map<ProductId, Product>, rows: seq<Reservation>, initial: map<ProductId, Option<int>>) {
    && products.Keys == initial.Keys
    && forall p :: p in products ==>
         ProductOk(products[p], initial[p], QtyIn(rows, p, Held), QtyIn(rows, p, Consumed))
  }

  predicate SameRevision(outbox: map<Intent, int>, i: Intent, j: Intent)
    requires i in outbox && j in outbox
  {
    i.StockUpdate? && j.StockUpdate? && i.product == j.product && outbox[i] == outbox[j]
  }

  /** Stock republications carry revisions of their product that never repeat. */
  predicate RevisionsOk(outbox: map<Intent, int>, products: map<ProductId, Product>) {
    && (forall i :: i in outbox && i.StockUpdate? ==>
          i.product in products && outbox[i] <= products[i.product].revision)
    && (forall i, j :: i in outbox && j in outbox && i != j ==> !SameRevision(outbox, i, j))
  }

  /** Invoices of different orders never share a payment hash. */
  predicate HashesOk(core: map<OrderId, seq<CorePayment>>, nextHash: nat) {
    && (forall o :: o in core && core[o] != [] ==> core[o][0].hash < nextHash)
    && (forall o, x :: o in core && x in core && o != x && core[o] != [] && core[x] != [] ==>
          core[o][0].hash != core[x][0].hash)
  }

  ghost predicate ViewsOk(s: State) {
    forall o: OrderId :: OrderOk(ViewOf(s, o))
  }

  predicate TablesOk(s: State, initial: map<ProductId, Option<int>>) {
    && RowsOk(s.reservations, s.orders, s.products)
    && StockOk(s.products, s.reservations, initial)
    && RevisionsOk(s.outbox, s.products)
    && HashesOk(s.core, s.nextHash)
  }

  ghost predicate Inv(s: State, initial: map<ProductId, Option<int>>) {
    ViewsOk(s) && TablesOk(s, initial)
  }

  /** All orders but `o` look the same in both states. */
  ghost predicate OthersSame(s: State, t: State, o: OrderId) {
    forall x: OrderId :: x != o ==> ViewOf(t, x) == ViewOf(s, x)
  }

  lemma ViewsAfter(s: State, t: State, o: OrderId)
    requires ViewsOk(s) && OthersSame(s, t, o) && OrderOk(ViewOf(t, o))
    ensures ViewsOk(t)
  {
  }
}
