/**
 * The saga as the program runs it: tables that its transactions update in
 * place, with the loops of the source. Every method is proved to be the step
 * of the same name in `Saga`, for which the invariants are proved.
 */
module SagaEngine {
  import opened Wrappers
  import opened Orders
  import opened Inventory
  import Saga
  import Reconcile

  /** The guarded stock updates, in the given order; the first lost guard stops the claim. */
  method ClaimEach(products: map<ProductId, Product>, items: seq<Item>)
    returns (claimed: bool, after: map<ProductId, Product>)
    ensures claimed <==> Claimable(products, items)
    ensures claimed ==> after == Reserve(products, items)
  {
    after := products;
    for i := 0 to |items|
      invariant Claimable(products, items[..i])
      invariant after == Reserve(products, items[..i])
    {
      ClaimStep(products, items[..i], items[i]);
      assert items[..i + 1] == items[..i] + [items[i]];
      var next := ClaimOne(after, items[i]);
      if next.None? {
        UnclaimablePrefix(products, items, i + 1);
        return false, after;
      }
      after := next.value;
    }
    assert items[..|items|] == items;
    return true, after;
  }

  /** The claim takes its product locks in sorted order, whatever the cart's order is. */
  method ClaimStock(products: map<ProductId, Product>, items: seq<Item>)
    returns (claimed: bool, after: map<ProductId, Product>)
    ensures claimed <==> Claimable(products, items)
    ensures claimed ==> after == Reserve(products, items)
  {
    ClaimIgnoresCartOrder(products, SortByProduct(items), items);
    claimed, after := ClaimEach(products, SortByProduct(items));
  }

  /** One held row per item, in cart order. */
  method InsertReservations(rows: seq<Reservation>, o: OrderId, items: seq<Item>, expiresAt: int)
    returns (after: seq<Reservation>)
    ensures after == rows + HeldRowsFor(o, items, expiresAt)
  {
    after := rows;
    for i := 0 to |items|
      invariant after == rows + HeldRowsFor(o, items, expiresAt)[..i]
    {
      after := after + [Reservation(o, items[i], Held, expiresAt)];
    }
  }

  /** Each row still held flips once, and the stock it held is given back with it. */
  method ReleaseReservations(products: map<ProductId, Product>, rows: seq<Reservation>, o: OrderId, to: ReservationState)
    returns (stock: map<ProductId, Product>, after: seq<Reservation>)
    ensures stock == GiveBack(products, rows, o)
    ensures after == CloseHeld(rows, o, to)
  {
    stock, after := products, rows;
    for i := 0 to |rows|
      invariant stock == GiveBack(products, rows[..i], o)
      invariant |after| == |rows|
      invariant forall k :: 0 <= k < |rows| ==> after[k] == if k < i then Closed(rows[k], o, to) else rows[k]
    {
      GiveBackStep(products, rows[..i], rows[i], o);
      assert rows[..i + 1] == rows[..i] + [rows[i]];
      after := after[i := Closed(rows[i], o, to)];
      stock := GiveBackRow(stock, rows[i], o);
    }
    assert rows[..|rows|] == rows;
  }

  /** The held rows of the order are consumed and its products lose the sold stock. */
  method ConsumeReservations(products: map<ProductId, Product>, rows: seq<Reservation>, o: OrderId)
    returns (stock: map<ProductId, Product>, after: seq<Reservation>)
    ensures stock == Sell(products, rows, o)
    ensures after == CloseHeld(rows, o, Consumed)
  {
    stock, after := products, rows;
    for i := 0 to |rows|
      invariant stock == Sell(products, rows[..i], o)
      invariant |after| == |rows|
      invariant forall k :: 0 <= k < |rows| ==> after[k] == if k < i then Closed(rows[k], o, Consumed) else rows[k]
    {
      SellStep(products, rows[..i], rows[i], o);
      assert rows[..i + 1] == rows[..i] + [rows[i]];
      after := after[i := Closed(rows[i], o, Consumed)];
      stock := SellRow(stock, rows[i], o);
    }
    assert rows[..|rows|] == rows;
  }

  /** One republication intent per row that was held. */
  method EnqueueRepublications(
    outbox: map<Saga.Intent, int>, rows: seq<Reservation>, o: OrderId, products: map<ProductId, Product>)
    returns (after: map<Saga.Intent, int>)
    ensures after == Saga.EnqueueStock(outbox, rows, o, products)
  {
    after := outbox;
    for i := 0 to |rows|
      invariant after == Saga.EnqueueStock(outbox, rows[..i], o, products)
    {
      assert rows[..i + 1][..i] == rows[..i];
      if rows[i].order == o && rows[i].state == Held && rows[i].item.product in products {
        var p := rows[i].item.product;
        after := Saga.Enqueue(after, Saga.StockUpdate(o, p), products[p].revision);
      }
    }
    assert rows[..|rows|] == rows;
  }

  class InvoiceSaga {
    var products: map<ProductId, Product>
    var orders: map<OrderId, Saga.Order>
    var carts: map<OrderId, seq<Item>>
    var reservations: seq<Reservation>
    var payments: map<OrderId, Saga.Payment>
    var events: seq<OrderEvent>
    var outbox: map<Saga.Intent, int>
    var core: map<OrderId, seq<Saga.CorePayment>>
    var nextHash: nat
    var pendingCalls: set<OrderId>
    var createCalls: map<OrderId, nat>
    var deliveries: seq<Saga.Delivery>

    function Tables(): Saga.State
      reads this
    {
      Saga.State(products, orders, carts, reservations, payments, events, outbox, core, nextHash,
                 pendingCalls, createCalls, deliveries)
    }

    constructor (initial: map<ProductId, Product>)
      ensures Tables() == Saga.State(initial, map[], map[], [], map[], [], map[], map[], 0, {}, map[], [])
    {
      products, orders, carts, reservations := initial, map[], map[], [];
      payments, events, outbox, core, nextHash := map[], [], map[], map[], 0;
      pendingCalls, createCalls, deliveries := {}, map[], [];
    }

    /** The legality check, the compare-and-swap and the audit row, in the caller's transaction. */
    method TransitionOrder(o: OrderId, expected: Option<OrderState>, to: OrderState, reason: string)
      returns (r: Result<OrderState, TransitionError>)
      modifies this`orders, this`events
      ensures r == Admit(if o in old(orders) then Some(old(orders)[o].state) else None, expected, to, reason)
      ensures r.Ok? ==> o in old(orders) && orders == old(orders)[o := old(orders)[o].(state := to)]
      ensures r.Ok? ==> events == old(events) + [OrderEvent(o, Some(r.value), to, reason)]
      ensures r.Err? ==> orders == old(orders) && events == old(events)
    {
      var from;
      if expected.Some? {
        from := expected.value;
      } else if o in orders {
        from := orders[o].state;
      } else {
        return Err(TransitionConflict);
      }
      if !Legal(from, to) || (ReasonRequired(from, to) && reason == "") {
        return Err(IllegalTransition);
      }
      if o !in orders || orders[o].state != from {
        return Err(TransitionConflict);
      }
      orders := orders[o := orders[o].(state := to)];
      events := events + [OrderEvent(o, Some(from), to, reason)];
      return Ok(from);
    }

    /** A transition the caller has already checked under the row's lock: it succeeds. */
    method MoveOrder(o: OrderId, to: OrderState, reason: string)
      requires o in orders && Admit(Some(orders[o].state), Some(orders[o].state), to, reason).Ok?
      modifies this`orders, this`events
      ensures Tables() == Saga.Move(old(Tables()), o, to, reason)
    {
      var moved := TransitionOrder(o, Some(orders[o].state), to, reason);
    }

    /** One transaction: any lost guard, compare-and-swap or constraint rolls the whole claim back. */
    method Begin(o: OrderId, expiresAt: int) returns (reply: Saga.Reply)
      modifies this
      ensures Saga.Step(Tables(), reply) == Saga.Begin(old(Tables()), o, expiresAt)
    {
      if o !in orders {
        return Saga.MissingOrder;
      }
      var items := if o in carts then carts[o] else [];
      var claimed, stock := ClaimStock(products, items);
      if !claimed {
        return Saga.StockConflict;
      }
      if orders[o].state != Received {
        return Saga.StateConflict;
      }
      if !DistinctProducts(items) || Saga.Reserved(reservations, o, items) || o in payments {
        return Saga.ConstraintViolation;
      }
      CommitClaim(o, items, stock, expiresAt);
      return Saga.Done;
    }

    method CommitClaim(o: OrderId, items: seq<Item>, stock: map<ProductId, Product>, expiresAt: int)
      requires o in orders && orders[o].state == Received
      modifies this
      ensures Tables() == Saga.Claimed(old(Tables()), o, items, stock, expiresAt)
    {
      var rows := InsertReservations(reservations, o, items, expiresAt);
      MoveOrder(o, InvoicePending, "");
      products, reservations := stock, rows;
      payments := payments[o := Saga.Payment(Saga.Creating, None)];
      pendingCalls := pendingCalls + {o};
    }

    method Attach(o: OrderId, hash: nat, expiresAt: int) returns (reply: Saga.Reply)
      modifies this
      ensures Saga.Step(Tables(), reply) == Saga.Attach(old(Tables()), o, hash, expiresAt)
    {
      if o !in orders {
        return Saga.MissingOrder;
      }
      if o !in payments || payments[o].status !in {Saga.Creating, Saga.CreationUnknown} {
        return if o in payments && payments[o].hash == Some(hash) then Saga.AlreadyAttached else Saga.AttachConflict;
      }
      payments := payments[o := Saga.Payment(Saga.Pending, Some(hash))];
      if orders[o].state != InvoicePending {
        return Saga.Attached(false);
      }
      MoveOrder(o, AwaitingPayment, "");
      reservations := Realign(reservations, o, expiresAt);
      outbox := Saga.Enqueue(outbox, Saga.PaymentRequest(o), 1);
      deliveries := deliveries + [Saga.Delivery(o, hash)];
      return Saga.Attached(true);
    }

    method Cancel(o: OrderId, reason: string) returns (reply: Saga.Reply)
      modifies this
      ensures Saga.Step(Tables(), reply) == Saga.Cancel(old(Tables()), o, reason)
    {
      if o !in orders {
        return Saga.MissingOrder;
      }
      if orders[o].state == Cancelled {
        return Saga.AlreadyCancelled;
      }
      if orders[o].state !in {Received, InvoicePending, AwaitingPayment} {
        return Saga.NotCancellable;
      }
      MoveOrder(o, Cancelled, reason);
      products, reservations := ReleaseReservations(products, reservations, o, Released);
      outbox := Saga.Enqueue(outbox, Saga.StatusCancelled(o), 1);
      return Saga.Done;
    }

    method MarkRejection(o: OrderId) returns (reply: Saga.Reply)
      modifies this
      ensures Saga.Step(Tables(), reply) == Saga.MarkRejection(old(Tables()), o)
    {
      if o !in orders {
        return Saga.MissingOrder;
      }
      if o in payments && payments[o].status in {Saga.Creating, Saga.CreationUnknown} {
        payments := payments[o := payments[o].(status := Saga.Failed)];
      }
      if orders[o].state == InvoicePending {
        MoveOrder(o, Rejected, "invoice-creation-rejected");
        products, reservations := ReleaseReservations(products, reservations, o, Released);
      }
      return Saga.Done;
    }

    method MarkUnknown(o: OrderId) returns (reply: Saga.Reply)
      modifies this
      ensures Saga.Step(Tables(), reply) == Saga.MarkUnknown(old(Tables()), o)
    {
      if o in payments && payments[o].status == Saga.Creating {
        payments := payments[o := payments[o].(status := Saga.CreationUnknown)];
      }
      if o in orders {
        orders := orders[o := orders[o].(exception := true)];
      }
      return Saga.Done;
    }

    method ConfirmSettlement(o: OrderId) returns (reply: Saga.Reply)
      modifies this
      ensures Saga.Step(Tables(), reply) == Saga.ConfirmSettlement(old(Tables()), o)
    {
      if o !in orders {
        return Saga.MissingOrder;
      }
      if o !in payments {
        return Saga.MissingPayment;
      }
      if payments[o].status !in {Saga.Pending, Saga.Creating, Saga.CreationUnknown} {
        return if payments[o].status == Saga.Settled then Saga.AlreadySettled else Saga.SettlementConflict;
      }
      payments := payments[o := payments[o].(status := Saga.Settled)];
      if orders[o].state != AwaitingPayment {
        orders := orders[o := orders[o].(exception := true)];
        return Saga.LateSettlement;
      }
      SellOrder(o);
      return Saga.Done;
    }

    method SellOrder(o: OrderId)
      requires o in orders && orders[o].state == AwaitingPayment
      modifies this
      ensures Tables() == Saga.Sold(old(Tables()), o)
    {
      var stock, rows := ConsumeReservations(products, reservations, o);
      var intents := Saga.Enqueue(outbox, Saga.StatusConfirmed(o), 1);
      intents := EnqueueRepublications(intents, reservations, o, stock);
      MoveOrder(o, Confirmed, "");
      products, reservations, outbox := stock, rows, intents;
    }

    method ExpireOrder(o: OrderId) returns (reply: Saga.Reply)
      modifies this
      ensures Saga.Step(Tables(), reply) == Saga.ExpireOrder(old(Tables()), o)
    {
      if o !in orders {
        return Saga.MissingOrder;
      }
      if orders[o].state != AwaitingPayment {
        return Saga.NotAwaiting;
      }
      MoveOrder(o, Expired, "invoice-expired-unpaid");
      products, reservations := ReleaseReservations(products, reservations, o, Lapsed);
      outbox := Saga.Enqueue(outbox, Saga.StatusCancelled(o), 1);
      return Saga.Done;
    }

    /** LNbits: the call is counted first, and the invoice is stored before it is returned. */
    method CreateInvoice(o: OrderId, outcome: Saga.CallOutcome, expiresAt: int) returns (reply: Saga.Reply)
      modifies this
      ensures Saga.Step(Tables(), reply) == Saga.CreateInvoice(old(Tables()), o, outcome, expiresAt)
    {
      if o !in pendingCalls {
        return Saga.Refused;
      }
      reply := Saga.CallReply(Tables(), outcome);
      var issued := Saga.Issued(Tables(), outcome, expiresAt);
      var stored, calls := Saga.CoreFor(Tables(), o), Saga.CallsFor(Tables(), o);
      pendingCalls := pendingCalls - {o};
      createCalls := createCalls[o := calls + 1];
      core := core[o := stored + issued];
      nextHash := nextHash + |issued|;
    }

    /** A committed order intake. */
    method Intake(o: OrderId, items: seq<Item>) returns (reply: Saga.Reply)
      modifies this
      ensures Saga.Step(Tables(), reply) == Saga.Intake(old(Tables()), o, items)
    {
      if o in orders {
        return Saga.Refused;
      }
      orders := orders[o := Saga.Order(Received, false)];
      carts := carts[o := items];
      events := events + [OrderEvent(o, None, Received, "")];
      return Saga.Done;
    }

    /** A refused claim rejects an order that is still `received`. */
    method RejectIntake(o: OrderId) returns (reply: Saga.Reply)
      modifies this
      ensures Saga.Step(Tables(), reply) == Saga.RejectIntake(old(Tables()), o)
    {
      if o !in orders || orders[o].state != Received {
        return Saga.Refused;
      }
      MoveOrder(o, Rejected, "intake-rejected");
      return Saga.Done;
    }

    /** The recovery of a missing payment request. */
    method ReenqueueRequest(o: OrderId) returns (reply: Saga.Reply)
      modifies this
      ensures Saga.Step(Tables(), reply) == Saga.Reenqueue(old(Tables()), o)
    {
      if o !in orders || orders[o].state != AwaitingPayment || o !in payments || payments[o].status != Saga.Pending {
        return Saga.Refused;
      }
      outbox := Saga.Enqueue(outbox, Saga.PaymentRequest(o), 1);
      return Saga.Done;
    }

    /** LNbits settles or expires an open invoice. */
    method CloseInvoice(o: OrderId, status: Saga.CoreStatus) returns (closed: bool)
      modifies this
      ensures closed <==> Saga.CoreIs(old(Tables()), o, Saga.Open)
      ensures Tables() == if closed then old(Tables()).(core := old(core)[o := Saga.Retag(Saga.CoreFor(old(Tables()), o), status)])
                          else old(Tables())
    {
      closed := Saga.CoreIs(Tables(), o, Saga.Open);
      if closed {
        core := core[o := Saga.Retag(Saga.CoreFor(Tables(), o), status)];
      }
    }

    method DeleteProduct(p: ProductId)
      modifies this
      ensures Tables() == Saga.Apply(old(Tables()), Saga.DeleteProduct(p))
    {
      if p in products {
        products := products[p := products[p].(deleted := true)];
      }
    }

    /** The pass over the pending payments; a raising step ends it. */
    method ReconcilePending(os: seq<OrderId>) returns (raised: Option<OrderId>)
      modifies this
      ensures Reconcile.Pass(old(Tables()), os)
           == if raised.Some? then Reconcile.Raised(Tables(), raised.value) else Reconcile.Finished(Tables())
    {
      for i := 0 to |os|
        invariant Reconcile.Pass(old(Tables()), os[..i]) == Reconcile.Finished(Tables())
      {
        assert os[..i + 1][..i] == os[..i];
        var reply := Saga.Done;
        if Saga.CoreIs(Tables(), os[i], Saga.Paid) {
          reply := ConfirmSettlement(os[i]);
        } else if Saga.CoreIs(Tables(), os[i], Saga.Unpaid) {
          reply := ExpireOrder(os[i]);
        }
        if Reconcile.Raises(reply) {
          PassStays(old(Tables()), os, i + 1);
          return Some(os[i]);
        }
      }
      assert os[..|os|] == os;
      return None;
    }
  }

  lemma {:induction false} PassStays(s: Saga.State, os: seq<OrderId>, k: nat)
    requires k <= |os| && Reconcile.Pass(s, os[..k]).Raised?
    ensures Reconcile.Pass(s, os) == Reconcile.Pass(s, os[..k])
  {
    if k < |os| {
      assert os[..|os| - 1][..k] == os[..k];
      PassStays(s, os[..|os| - 1], k);
    } else {
      assert os[..k] == os;
    }
  }
}
