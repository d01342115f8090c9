/** A shop from its opening on: customers, workers and LNbits drive the saga, and `history` records their steps. */
module ShopEngine {
  import opened Wrappers
  import opened Orders
  import opened Inventory
  import Saga
  import SagaInvariant
  import SagaTheorems
  import opened SagaEngine

  class Shop {
    const saga: InvoiceSaga
    ghost const start: Saga.State
    ghost const stock: map<ProductId, Option<int>>
    ghost var history: seq<Saga.Event>

    /** The tables are what the committed steps made of the fresh shop, so every run theorem holds of them. */
    ghost predicate Valid()
      reads this, saga
    {
      Saga.Fresh(start, stock) && saga.Tables() == Saga.Run(start, history)
    }

    constructor (initial: map<ProductId, Product>)
      requires forall p :: p in initial ==>
        initial[p].reserved == 0 && (initial[p].onHand.Some? ==> initial[p].onHand.value >= 0)
      ensures Valid() && history == [] && fresh(saga)
      ensures stock == map p | p in initial :: initial[p].onHand
    {
      saga := new InvoiceSaga(initial);
      start := Saga.State(initial, map[], map[], [], map[], [], map[], map[], 0, {}, map[], []);
      stock := map p | p in initial :: initial[p].onHand;
      history := [];
    }

    /** Record a step whose effect the saga has already committed. */
    ghost method Commit(e: Saga.Event, before: Saga.State)
      requires Saga.Fresh(start, stock) && before == Saga.Run(start, history)
      requires saga.Tables() == Saga.Apply(before, e)
      modifies this
      ensures Valid() && history == old(history) + [e]
    {
      SagaTheorems.RunPush(start, history, e);
      history := history + [e];
    }

    method PlaceOrder(o: OrderId, items: seq<Item>) returns (reply: Saga.Reply)
      requires Valid()
      modifies this, saga
      ensures Valid() && Saga.Step(saga.Tables(), reply) == Saga.Intake(old(saga.Tables()), o, items)
    {
      ghost var before := saga.Tables();
      reply := saga.Intake(o, items);
      Commit(Saga.DoIntake(o, items), before);
    }

    method Begin(o: OrderId, expiresAt: int) returns (reply: Saga.Reply)
      requires Valid()
      modifies this, saga
      ensures Valid() && Saga.Step(saga.Tables(), reply) == Saga.Begin(old(saga.Tables()), o, expiresAt)
    {
      ghost var before := saga.Tables();
      reply := saga.Begin(o, expiresAt);
      Commit(Saga.DoBegin(o, expiresAt), before);
    }

    method RejectIntake(o: OrderId) returns (reply: Saga.Reply)
      requires Valid()
      modifies this, saga
      ensures Valid() && Saga.Step(saga.Tables(), reply) == Saga.RejectIntake(old(saga.Tables()), o)
    {
      ghost var before := saga.Tables();
      reply := saga.RejectIntake(o);
      Commit(Saga.DoRejectIntake(o), before);
    }

    method CallLNbits(o: OrderId, outcome: Saga.CallOutcome, expiresAt: int) returns (reply: Saga.Reply)
      requires Valid()
      modifies this, saga
      ensures Valid() && Saga.Step(saga.Tables(), reply) == Saga.CreateInvoice(old(saga.Tables()), o, outcome, expiresAt)
    {
      ghost var before := saga.Tables();
      reply := saga.CreateInvoice(o, outcome, expiresAt);
      Commit(Saga.DoCreateInvoice(o, outcome, expiresAt), before);
    }

    /** Attach the k-th invoice LNbits holds for the order. */
    method AttachInvoice(o: OrderId, k: nat) returns (reply: Saga.Reply)
      requires Valid() && k < |Saga.CoreFor(saga.Tables(), o)|
      modifies this, saga
      ensures Valid()
      ensures
        var invoice := Saga.CoreFor(old(saga.Tables()), o)[k];
        Saga.Step(saga.Tables(), reply) == Saga.Attach(old(saga.Tables()), o, invoice.hash, invoice.expiresAt)
    {
      ghost var before := saga.Tables();
      var invoice := Saga.CoreFor(saga.Tables(), o)[k];
      reply := saga.Attach(o, invoice.hash, invoice.expiresAt);
      Commit(Saga.DoAttach(o, k), before);
    }

    method Cancel(o: OrderId, reason: string) returns (reply: Saga.Reply)
      requires Valid()
      modifies this, saga
      ensures Valid() && Saga.Step(saga.Tables(), reply) == Saga.Cancel(old(saga.Tables()), o, reason)
    {
      ghost var before := saga.Tables();
      reply := saga.Cancel(o, reason);
      Commit(Saga.DoCancel(o, reason), before);
    }

    method MarkRejection(o: OrderId) returns (reply: Saga.Reply)
      requires Valid()
      modifies this, saga
      ensures Valid() && Saga.Step(saga.Tables(), reply) == Saga.MarkRejection(old(saga.Tables()), o)
    {
      ghost var before := saga.Tables();
      reply := saga.MarkRejection(o);
      Commit(Saga.DoMarkRejection(o), before);
    }

    method MarkUnknown(o: OrderId) returns (reply: Saga.Reply)
      requires Valid()
      modifies this, saga
      ensures Valid() && Saga.Step(saga.Tables(), reply) == Saga.MarkUnknown(old(saga.Tables()), o)
    {
      ghost var before := saga.Tables();
      reply := saga.MarkUnknown(o);
      Commit(Saga.DoMarkUnknown(o), before);
    }

    /** A callback or a reconciliation that found the invoice paid. */
    method Callback(o: OrderId) returns (reply: Saga.Reply)
      requires Valid() && Saga.CoreIs(saga.Tables(), o, Saga.Paid)
      modifies this, saga
      ensures Valid() && Saga.Step(saga.Tables(), reply) == Saga.ConfirmSettlement(old(saga.Tables()), o)
    {
      ghost var before := saga.Tables();
      reply := saga.ConfirmSettlement(o);
      Commit(Saga.DoConfirm(o), before);
    }

    method Expire(o: OrderId) returns (reply: Saga.Reply)
      requires Valid()
      modifies this, saga
      ensures Valid() && Saga.Step(saga.Tables(), reply) == Saga.ExpireOrder(old(saga.Tables()), o)
    {
      ghost var before := saga.Tables();
      reply := saga.ExpireOrder(o);
      Commit(Saga.DoExpire(o), before);
    }

    method ReenqueueRequest(o: OrderId) returns (reply: Saga.Reply)
      requires Valid()
      modifies this, saga
      ensures Valid() && Saga.Step(saga.Tables(), reply) == Saga.Reenqueue(old(saga.Tables()), o)
    {
      ghost var before := saga.Tables();
      reply := saga.ReenqueueRequest(o);
      Commit(Saga.DoReenqueue(o), before);
    }

    /** The buyer pays, or the invoice lapses, at LNbits. */
    method InvoiceCloses(o: OrderId, paid: bool) returns (closed: bool)
      requires Valid()
      modifies this, saga
      ensures Valid() && (closed <==> Saga.CoreIs(old(saga.Tables()), o, Saga.Open))
      ensures closed ==>
        Saga.CoreFor(saga.Tables(), o) == Saga.Retag(Saga.CoreFor(old(saga.Tables()), o), if paid then Saga.Paid else Saga.Unpaid)
    {
      ghost var before := saga.Tables();
      closed := saga.CloseInvoice(o, if paid then Saga.Paid else Saga.Unpaid);
      Commit(if paid then Saga.CorePays(o) else Saga.CoreExpires(o), before);
    }

    method DeleteProduct(p: ProductId)
      requires Valid()
      modifies this, saga
      ensures Valid() && saga.Tables() == Saga.Apply(old(saga.Tables()), Saga.DeleteProduct(p))
    {
      ghost var before := saga.Tables();
      saga.DeleteProduct(p);
      Commit(Saga.DeleteProduct(p), before);
    }

    /** What the run theorems say of the fields of any valid shop. */
    lemma BooksBalance(p: ProductId)
      requires Valid() && p in stock
      ensures p in saga.products && saga.products[p].reserved == QtyIn(saga.reservations, p, Held)
      ensures stock[p].Some? ==>
        && saga.products[p].onHand.Some?
        && saga.products[p].reserved <= saga.products[p].onHand.value
        && saga.products[p].onHand.value + QtyIn(saga.reservations, p, Consumed) == stock[p].value
    {
      SagaTheorems.StockConserved(start, stock, history, p);
    }

    lemma OneInvoicePerOrder(o: OrderId)
      requires Valid()
      ensures Saga.CallsFor(saga.Tables(), o) <= 1 && |SagaInvariant.DeliveredTo(saga.deliveries, o)| <= 1
    {
      SagaTheorems.NoSecondInvoice(start, stock, history, o);
    }
  }
}
