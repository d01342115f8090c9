/** Checkout keys and the saga as one machine: an order, its link and its key come into being in one step. */
module CheckoutGuarantee {
  import opened Wrappers
  import opened Orders
  import opened Inventory
  import Idempotency
  import Saga
  import SagaInvariant
  import SagaProof
  import SagaTheorems

  datatype State = State(keys: Idempotency.State, shop: Saga.State)

  // ---- The steps ----

  /** The intake transaction: the order row with its items, and the link in the key's record, or neither. */
  function PlaceOrder(
    s: State, scope: Idempotency.Scope, token: nat, o: OrderId, items: seq<Item>, now: int, openOrders: nat): State
  {
    var (keys, reply) := Idempotency.InsertOrder(s.keys, scope, token, o, now, openOrders);
    if o in s.shop.orders || reply != Idempotency.Inserted then s
    else State(keys, Saga.Intake(s.shop, o, items).state)
  }

  datatype Event =
    | OnKeys(key: Idempotency.Event)           // claim, complete, fail, retention
    | DoPlace(scope: Idempotency.Scope, token: nat, order: OrderId, items: seq<Item>, now: int, openOrders: nat)
    | DoGammaIntake(order: OrderId, items: seq<Item>)
    | OnShop(step: Saga.Event)                 // begin, also of a resumed order, and every later step

  /** Orders are inserted by the two intakes only. */
  function Apply(s: State, e: Event): State {
    match e
    case OnKeys(key) => if key.DoInsert? then s else s.(keys := Idempotency.Apply(s.keys, key))
    case DoPlace(scope, token, o, items, now, openOrders) => PlaceOrder(s, scope, token, o, items, now, openOrders)
    case DoGammaIntake(o, items) => s.(shop := Saga.Intake(s.shop, o, items).state)
    case OnShop(step) => if step.DoIntake? then s else s.(shop := Saga.Apply(s.shop, step))
  }

  /** Both sides or neither: the order in `received` with its items, and the link in the record of the live claim. */
  lemma PlaceExactly(
    s: State, scope: Idempotency.Scope, token: nat, o: OrderId, items: seq<Item>, now: int, openOrders: nat)
    ensures
      var t, records := Apply(s, DoPlace(scope, token, o, items, now, openOrders)), s.keys.records;
      if && openOrders < 10 && o !in s.shop.orders && o !in s.keys.orders && scope in records && records[scope].order == None
         && records[scope].phase == Idempotency.InProgress && records[scope].token == token && now < records[scope].leaseUntil
      then
        && t.keys.records == records[scope := records[scope].(order := Some(o))]
        && t.keys.orders == s.keys.orders[o := scope] && t.keys.terminal == s.keys.terminal
        && t.shop.orders == s.shop.orders[o := Saga.Order(Received, false)] && t.shop.carts == s.shop.carts[o := items]
        && t.shop.events == s.shop.events + [OrderEvent(o, None, Received, "")]
      else t == s
  {
  }

  /** Keys and shop each take their own steps, and leave the other side alone; only the intakes touch both. */
  lemma SidesMoveApart(s: State, key: Idempotency.Event, step: Saga.Event, o: OrderId, items: seq<Item>)
    ensures Apply(s, OnKeys(key)).shop == s.shop && Apply(s, OnShop(step)).keys == s.keys
    ensures !key.DoInsert? ==> Apply(s, OnKeys(key)).keys == Idempotency.Apply(s.keys, key)
    ensures !step.DoIntake? ==> Apply(s, OnShop(step)).shop == Saga.Apply(s.shop, step)
    ensures key.DoInsert? ==> Apply(s, OnKeys(key)) == s
    ensures step.DoIntake? ==> Apply(s, OnShop(step)) == s
    ensures Apply(s, DoGammaIntake(o, items)) == s.(shop := Saga.Apply(s.shop, Saga.DoIntake(o, items)))
  {
  }

  function Run(s: State, events: seq<Event>): State {
    if events == [] then s else Apply(Run(s, events[..|events| - 1]), events[|events| - 1])
  }

  // ---- Invariant ----

  ghost predicate Inv(s: State, initial: map<ProductId, Option<int>>) {
    && Idempotency.Linked(s.keys)
    && SagaInvariant.Inv(s.shop, initial)
    && s.keys.orders.Keys <= s.shop.orders.Keys
  }

  lemma {:induction false} StepKeeps(s: State, initial: map<ProductId, Option<int>>, e: Event)
    requires Inv(s, initial)
    ensures Inv(Apply(s, e), initial)
  {
    match e
    case OnKeys(key) =>
      Idempotency.StepKeepsLinked(s.keys, key);
      if !key.DoInsert? {
        OnlyInsertAddsOrders(s.keys, key);
      }
    case DoPlace(scope, token, o, items, now, openOrders) =>
      Idempotency.StepKeepsLinked(s.keys, Idempotency.DoInsert(scope, token, o, now, openOrders));
      SagaProof.IntakeKeeps(s.shop, initial, o, items);
    case DoGammaIntake(o, items) => SagaProof.IntakeKeeps(s.shop, initial, o, items);
    case OnShop(step) =>
      SagaProof.StepKeeps(s.shop, initial, step);
      SagaTheorems.StepGrows(s.shop, step, 0);
  }

  lemma OnlyInsertAddsOrders(s: Idempotency.State, e: Idempotency.Event)
    requires !e.DoInsert?
    ensures Idempotency.Apply(s, e).orders == s.orders
  {
  }

  predicate Opening(s: State, initial: map<ProductId, Option<int>>) {
    s.keys == Idempotency.Empty && Saga.Fresh(s.shop, initial)
  }

  lemma {:induction false} RunKeeps(s: State, initial: map<ProductId, Option<int>>, events: seq<Event>)
    requires Opening(s, initial)
    ensures Inv(Run(s, events), initial)
  {
    if events == [] {
      SagaProof.FreshInv(s.shop, initial);
    } else {
      RunKeeps(s, initial, events[..|events| - 1]);
      StepKeeps(Run(s, events[..|events| - 1]), initial, events[|events| - 1]);
    }
  }

  // ---- Main results ----

  function OrdersOf(s: State, scope: Idempotency.Scope): set<OrderId> {
    set o | o in s.keys.orders && s.keys.orders[o] == scope
  }

  /** All calls of create_invoice for a set of orders. */
  ghost function TotalCalls(shop: Saga.State, os: set<OrderId>): nat {
    if os == {} then 0
    else
      var o :| o in os;
      Saga.CallsFor(shop, o) + TotalCalls(shop, os - {o})
  }

  lemma {:induction false} LoneOrderCalls(shop: Saga.State, os: set<OrderId>)
    requires forall a, b :: a in os && b in os ==> a == b
    requires forall o :: o in os ==> Saga.CallsFor(shop, o) <= 1
    ensures TotalCalls(shop, os) <= 1 && |os| <= 1
  {
    if os != {} {
      var o :| o in os && TotalCalls(shop, os) == Saga.CallsFor(shop, o) + TotalCalls(shop, os - {o});
      assert os - {o} == {};
      assert os == {o};
    }
  }

  /**
   * In every run of keys, intakes and saga steps, one key has at most one order, LNbits was called at most once for all
   * orders of the key together, and the order is in the shop, linked from the key's record.
   */
  lemma {:induction false} OneInvoicePerKey(
    s: State, initial: map<ProductId, Option<int>>, events: seq<Event>, scope: Idempotency.Scope)
    requires Opening(s, initial)
    ensures
      var t := Run(s, events);
      && |OrdersOf(t, scope)| <= 1
      && TotalCalls(t.shop, OrdersOf(t, scope)) <= 1
      && forall o :: o in OrdersOf(t, scope) ==>
           && o in t.shop.orders
           && scope in t.keys.records && t.keys.records[scope].order == Some(o)
           && |SagaInvariant.DeliveredTo(t.shop.deliveries, o)| <= 1
  {
    RunKeeps(s, initial, events);
    var t := Run(s, events);
    forall o ensures Saga.CallsFor(t.shop, o) <= 1 && |SagaInvariant.DeliveredTo(t.shop.deliveries, o)| <= 1 {
      AtMostOneCall(t.shop, o);
    }
    LoneOrderCalls(t.shop, OrdersOf(t, scope));
  }

  lemma AtMostOneCall(shop: Saga.State, o: OrderId)
    requires SagaInvariant.ViewsOk(shop)
    ensures Saga.CallsFor(shop, o) <= 1 && |SagaInvariant.DeliveredTo(shop.deliveries, o)| <= 1
  {
    assert SagaInvariant.OrderOk(SagaInvariant.ViewOf(shop, o));
  }

  /** A resumed key names an order the shop has; a retry never finds its link without its order. */
  lemma {:induction false} ResumeFindsItsOrder(
    s: State, initial: map<ProductId, Option<int>>, events: seq<Event>,
    scope: Idempotency.Scope, hash: Idempotency.RequestHash, now: int)
    requires Opening(s, initial)
    ensures
      var t := Run(s, events);
      var (keys, claim) := Idempotency.ClaimRecord(t.keys, scope, hash, now);
      claim.Resume? ==>
        claim.order in t.shop.orders && claim.order in t.keys.orders && t.keys.orders[claim.order] == scope
  {
    RunKeeps(s, initial, events);
  }

  /** An answered key belongs to an order of the shop, and no placement is left half done: link and order agree. */
  lemma {:induction false} LinksAndOrdersAgree(
    s: State, initial: map<ProductId, Option<int>>, events: seq<Event>, scope: Idempotency.Scope)
    requires Opening(s, initial) && scope in Run(s, events).keys.records
    ensures
      var t := Run(s, events);
      && (t.keys.records[scope].phase == Idempotency.Completed ==> t.keys.records[scope].order.Some?)
      && (t.keys.records[scope].order.Some? ==>
            t.keys.records[scope].order.value in t.shop.orders && OrdersOf(t, scope) == {t.keys.records[scope].order.value})
      && (t.keys.records[scope].order.None? ==> OrdersOf(t, scope) == {})
  {
    RunKeeps(s, initial, events);
  }
}
