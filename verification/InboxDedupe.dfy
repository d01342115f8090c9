/** Inbox rows, deduplicated by outer event id and then by rumor id (infinitemarkets/services/inbox.py). */
module InboxDedupe {
  import opened Wrappers

  type RowId = nat
  type Outer = nat
  type Merchant = nat
  type Rumor = nat

  datatype RowState = Received | Validated | Rejected | Duplicate | Processed | Quarantined

  datatype Row = Row(outer: Outer, merchant: Merchant, rumor: Option<Rumor>, state: RowState)

  datatype Validation = Validation(merchant: Merchant, rumor: Rumor, row: RowId)

  /**
   * `wraps` gives the rumor that unwrapping an outer event yields, the same one every time.
   * `log` holds every transition to `validated`, in order.
   */
  datatype State = State(wraps: Outer -> Rumor, rows: map<RowId, Row>, log: seq<Validation>)

  function Empty(wraps: Outer -> Rumor): State {
    State(wraps, map[], [])
  }

  // ---- The steps ----

  predicate SeenOuter(s: State, outer: Outer) {
    exists id :: id in s.rows && s.rows[id].outer == outer
  }

  /** INSERT ... ON CONFLICT (outer_event_id) DO NOTHING. */
  function Admit(s: State, id: RowId, outer: Outer, merchant: Merchant): State {
    if id in s.rows || SeenOuter(s, outer) then s
    else s.(rows := s.rows[id := Row(outer, merchant, None, Received)])
  }

  /** Unwrap failures, bounds, the author cap, a muted author's first drop. */
  function Reject(s: State, id: RowId): State {
    if id in s.rows then s.(rows := s.rows[id := s.rows[id].(state := Rejected)]) else s
  }

  /** A muted author's later wraps: the row is deleted. */
  function Drop(s: State, id: RowId): State {
    s.(rows := s.rows - {id})
  }

  predicate HasRumor(s: State, merchant: Merchant, rumor: Rumor) {
    exists x :: x in s.rows && s.rows[x].merchant == merchant && s.rows[x].rumor == Some(rumor)
  }

  /** The index of migrations.py:704-707 is over the rumor id alone: another merchant's row makes the update raise. */
  predicate RumorElsewhere(s: State, merchant: Merchant, rumor: Rumor) {
    exists x :: x in s.rows && s.rows[x].merchant != merchant && s.rows[x].rumor == Some(rumor)
  }

  /** The guarded update, then the duplicate mark when it touched no row. Neither looks at the row's state. */
  function Validate(s: State, id: RowId): State {
    if id !in s.rows then s
    else
      var row := s.rows[id];
      var rumor := s.wraps(row.outer);
      if HasRumor(s, row.merchant, rumor) then s.(rows := s.rows[id := row.(state := Duplicate)])
      else if RumorElsewhere(s, row.merchant, rumor) then s
      else
        s.(rows := s.rows[id := row.(rumor := Some(rumor), state := Validated)],
           log := s.log + [Validation(row.merchant, rumor, id)])
  }

  /** The end of a dispatch marks the row by id. */
  function Dispatched(s: State, id: RowId, outcome: RowState): State {
    if id in s.rows && outcome in {Processed, Rejected, Quarantined}
    then s.(rows := s.rows[id := s.rows[id].(state := outcome)])
    else s
  }

  datatype Event =
    | DoAdmit(id: RowId, outer: Outer, merchant: Merchant)
    | DoReject(id: RowId)
    | DoDrop(id: RowId)
    | DoValidate(id: RowId)
    | DoDispatched(id: RowId, outcome: RowState)

  function Apply(s: State, e: Event): State {
    match e
    case DoAdmit(id, outer, merchant) => Admit(s, id, outer, merchant)
    case DoReject(id) => Reject(s, id)
    case DoDrop(id) => Drop(s, id)
    case DoValidate(id) => Validate(s, id)
    case DoDispatched(id, outcome) => Dispatched(s, id, outcome)
  }

  function Run(s: State, events: seq<Event>): State {
    if events == [] then s else Apply(Run(s, events[..|events| - 1]), events[|events| - 1])
  }

  lemma RunSnoc(s: State, events: seq<Event>, e: Event)
    ensures Run(s, events + [e]) == Apply(Run(s, events), e)
  {
    assert (events + [e])[..|events|] == events;
  }

  // ---- When each step acts ----

  /** An outer event is stored once, with nothing known of its rumor yet. */
  lemma AdmitExactly(s: State, id: RowId, outer: Outer, merchant: Merchant)
    ensures
      Admit(s, id, outer, merchant) ==
      if id in s.rows || exists x :: x in s.rows && s.rows[x].outer == outer then s
      else s.(rows := s.rows[id := Row(outer, merchant, None, Received)])
  {
  }

  /** A row is validated exactly when no row carries its rumor, and a duplicate when one of its own merchant does. */
  lemma ValidateExactly(s: State, id: RowId)
    requires id in s.rows
    ensures
      var t, r, rumor := Validate(s, id), s.rows[id], s.wraps(s.rows[id].outer);
      && ((forall x :: x in s.rows ==> s.rows[x].rumor != Some(rumor)) ==>
            && t.rows == s.rows[id := Row(r.outer, r.merchant, Some(rumor), Validated)]
            && t.log == s.log + [Validation(r.merchant, rumor, id)])
      && ((exists x :: x in s.rows && s.rows[x].rumor == Some(rumor) && s.rows[x].merchant == r.merchant) ==>
            t.rows == s.rows[id := Row(r.outer, r.merchant, r.rumor, Duplicate)] && t.log == s.log)
      && ((exists x :: x in s.rows && s.rows[x].rumor == Some(rumor)) ==>
            (forall x :: x in s.rows && s.rows[x].rumor == Some(rumor) ==> s.rows[x].merchant != r.merchant) ==> t == s)
      && t.wraps == s.wraps
  {
  }

  /** Rejection, deletion and the end of a dispatch go by id alone. */
  lemma MarksExactly(s: State, id: RowId, outcome: RowState)
    requires id in s.rows
    ensures Reject(s, id) == s.(rows := s.rows[id := Row(s.rows[id].outer, s.rows[id].merchant, s.rows[id].rumor, Rejected)])
    ensures Drop(s, id).(rows := s.rows) == s && Drop(s, id).rows.Keys == s.rows.Keys - {id}
    ensures forall x :: x in s.rows && x != id ==> Drop(s, id).rows[x] == s.rows[x]
    ensures
      Dispatched(s, id, outcome) ==
      if outcome == Processed || outcome == Rejected || outcome == Quarantined
      then s.(rows := s.rows[id := Row(s.rows[id].outer, s.rows[id].merchant, s.rows[id].rumor, outcome)]) else s
  {
  }

  lemma MarksNeedARow(s: State, id: RowId, outcome: RowState)
    requires id !in s.rows
    ensures Reject(s, id) == Drop(s, id) == Validate(s, id) == Dispatched(s, id, outcome) == s
  {
  }

  // ---- Invariants ----

  /** One row per outer id; a row's rumor is what it wraps, and no two rows carry the same one. */
  predicate Unique(s: State) {
    && (forall a, b :: a in s.rows && b in s.rows && s.rows[a].outer == s.rows[b].outer ==> a == b)
    && (forall a :: a in s.rows && s.rows[a].rumor.Some? ==> s.rows[a].rumor.value == s.wraps(s.rows[a].outer))
    && (forall a, b :: a in s.rows && b in s.rows && s.rows[a].rumor.Some? && s.rows[a].rumor == s.rows[b].rumor ==> a == b)
    && (forall a :: a in s.rows && s.rows[a].state == Validated ==> s.rows[a].rumor.Some?)
  }

  lemma ValidateKeepsUnique(s: State, id: RowId)
    requires Unique(s)
    ensures Unique(Validate(s, id))
  {
  }

  lemma StepKeepsUnique(s: State, e: Event)
    requires Unique(s)
    ensures Unique(Apply(s, e)) && Apply(s, e).wraps == s.wraps
  {
    if e.DoValidate? {
      ValidateKeepsUnique(s, e.id);
    }
  }

  /** One row per outer id and per rumor, in every run. */
  lemma {:induction false} RunKeepsUnique(s: State, events: seq<Event>)
    requires Unique(s)
    ensures Unique(Run(s, events)) && Run(s, events).wraps == s.wraps
  {
    if events != [] {
      RunKeepsUnique(s, events[..|events| - 1]);
      StepKeepsUnique(Run(s, events[..|events| - 1]), events[|events| - 1]);
    }
  }

  /** Every validation ever logged still owns its row, and each rumor was validated once. */
  predicate LogOk(s: State) {
    && (forall i :: 0 <= i < |s.log| ==>
          && s.log[i].row in s.rows
          && s.rows[s.log[i].row].merchant == s.log[i].merchant
          && s.rows[s.log[i].row].rumor == Some(s.log[i].rumor))
    && (forall i, j :: 0 <= i < j < |s.log| ==> s.log[i].rumor != s.log[j].rumor)
  }

  /** The muted-author delete does not hit a row that was validated meanwhile. */
  predicate SparesValidated(s: State, e: Event) {
    e.DoDrop? && e.id in s.rows ==> s.rows[e.id].rumor.None?
  }

  ghost predicate RunSpares(s: State, events: seq<Event>) {
    forall i :: 0 <= i < |events| ==> SparesValidated(Run(s, events[..i]), events[i])
  }

  lemma RunSparesFront(s: State, events: seq<Event>)
    requires RunSpares(s, events) && events != []
    ensures RunSpares(s, events[..|events| - 1])
    ensures SparesValidated(Run(s, events[..|events| - 1]), events[|events| - 1])
  {
    var front := events[..|events| - 1];
    forall i | 0 <= i < |front| ensures SparesValidated(Run(s, front[..i]), front[i]) {
      assert front[..i] == events[..i];
    }
  }

  lemma StepKeepsLog(s: State, e: Event)
    requires LogOk(s) && Unique(s) && SparesValidated(s, e)
    ensures LogOk(Apply(s, e))
  {
  }

  lemma {:induction false} RunKeepsLog(wraps: Outer -> Rumor, events: seq<Event>)
    requires RunSpares(Empty(wraps), events)
    ensures LogOk(Run(Empty(wraps), events)) && Unique(Run(Empty(wraps), events))
  {
    if events != [] {
      RunSparesFront(Empty(wraps), events);
      RunKeepsLog(wraps, events[..|events| - 1]);
      StepKeepsLog(Run(Empty(wraps), events[..|events| - 1]), events[|events| - 1]);
      StepKeepsUnique(Run(Empty(wraps), events[..|events| - 1]), events[|events| - 1]);
    }
  }

  // ---- Main results ----

  /**
   * Over all retries under fresh outer ids, stale second passes and crash re-dispatches, a rumor becomes validated at
   * most once, ever, as long as no muted-author delete removes a row that was validated meanwhile.
   */
  lemma {:induction false} ValidatedAtMostOnce(wraps: Outer -> Rumor, events: seq<Event>, i: nat, j: nat)
    requires RunSpares(Empty(wraps), events)
    requires i < |Run(Empty(wraps), events).log| && j < |Run(Empty(wraps), events).log|
    requires Run(Empty(wraps), events).log[i].rumor == Run(Empty(wraps), events).log[j].rumor
    ensures i == j
    ensures Run(Empty(wraps), events).log[i].row in Run(Empty(wraps), events).rows
  {
    RunKeepsLog(wraps, events);
  }

  /**
   * And only as long: once such a late delete has removed a validated row, a retry of the message under a fresh outer id
   * (after the author is unmuted) is validated again.
   */
  lemma LateDeleteAllowsSecondValidation(s: State, id: RowId, again: RowId, outer: Outer)
    requires Unique(s) && id in s.rows && s.rows[id].rumor == Some(s.wraps(outer))
    requires again !in s.rows && !SeenOuter(s, outer)
    ensures
      var t := Validate(Admit(Drop(s, id), again, outer, s.rows[id].merchant), again);
      t.log == s.log + [Validation(s.rows[id].merchant, s.wraps(outer), again)]
  {
    var admitted := Admit(Drop(s, id), again, outer, s.rows[id].merchant);
    assert again in admitted.rows;
    assert forall x :: x in admitted.rows && x != again ==> x in s.rows && x != id;
  }

  /** The run: two workers hold the same row, one validates it, the other's delete comes late, the buyer sends again. */
  lemma TwoValidationsOccur(wraps: Outer -> Rumor, a: Outer, b: Outer) returns (events: seq<Event>)
    requires a != b && wraps(a) == wraps(b)
    ensures
      Run(Empty(wraps), events).log == [Validation(0, wraps(a), 0), Validation(0, wraps(a), 1)]
  {
    var s := Empty(wraps);
    var e1 := [DoAdmit(0, a, 0)];
    RunSnoc(s, [], e1[0]);
    assert [] + e1 == e1;
    var e2 := e1 + [DoValidate(0)];
    RunSnoc(s, e1, DoValidate(0));
    assert Run(s, e2) == State(wraps, map[0 := Row(a, 0, Some(wraps(a)), Validated)], [Validation(0, wraps(a), 0)]);
    RunKeepsUnique(s, e2);
    LateDeleteAllowsSecondValidation(Run(s, e2), 0, 1, b);
    RunSnoc(s, e2, DoDrop(0));
    RunSnoc(s, e2 + [DoDrop(0)], DoAdmit(1, b, 0));
    RunSnoc(s, e2 + [DoDrop(0)] + [DoAdmit(1, b, 0)], DoValidate(1));
    events := e2 + [DoDrop(0)] + [DoAdmit(1, b, 0)] + [DoValidate(1)];
  }

  /** A received row is validated exactly when no row carries its rumor; else the first one keeps it. */
  lemma FirstRowWins(s: State, id: RowId)
    requires id in s.rows && s.rows[id].state == Received
    ensures
      var t, rumor := Validate(s, id), s.wraps(s.rows[id].outer);
      && (t.rows[id].state == Validated <==> forall x :: x in s.rows ==> s.rows[x].rumor != Some(rumor))
      && (t.rows[id].state == Duplicate <==> HasRumor(s, s.rows[id].merchant, rumor))
      && (forall x :: x in s.rows && x != id ==> t.rows[x] == s.rows[x])
  {
  }

  /** A stale second pass over a validated row calls the row a duplicate of itself: it is never dispatched. */
  lemma StalePassSelfDuplicates(s: State, id: RowId)
    requires Unique(s) && id in s.rows && s.rows[id].state == Validated
    ensures Validate(s, id).rows[id] == s.rows[id].(state := Duplicate)
    ensures Validate(s, id).log == s.log
  {
    assert s.rows[id].rumor == Some(s.wraps(s.rows[id].outer));
  }

  /**
   * While one merchant's row carries a rumor, no row of another merchant that wraps the same rumor is ever validated,
   * in any continuation.
   */
  lemma {:induction false} RumorOfAnotherMerchantIsStuck(s: State, events: seq<Event>, other: RowId, rumor: Rumor)
    requires Unique(s) && RunSpares(s, events) && other in s.rows && s.rows[other].rumor == Some(rumor)
    ensures
      var t := Run(s, events);
      && other in t.rows && t.rows[other].rumor == Some(rumor) && t.rows[other].merchant == s.rows[other].merchant
      && forall x :: x in t.rows && t.wraps(t.rows[x].outer) == rumor && t.rows[x].merchant != s.rows[other].merchant ==>
           t.rows[x].state != Validated && Validate(t, x) == t
  {
    RunKeepsUnique(s, events);
    if events != [] {
      RunSparesFront(s, events);
      RumorOfAnotherMerchantIsStuck(s, events[..|events| - 1], other, rumor);
      RunKeepsUnique(s, events[..|events| - 1]);
      KeepsRumor(Run(s, events[..|events| - 1]), events[|events| - 1], other);
    }
    StuckNow(Run(s, events), other, rumor);
  }

  lemma KeepsRumor(s: State, e: Event, id: RowId)
    requires Unique(s) && SparesValidated(s, e) && id in s.rows && s.rows[id].rumor.Some?
    ensures id in Apply(s, e).rows
    ensures Apply(s, e).rows[id].rumor == s.rows[id].rumor && Apply(s, e).rows[id].merchant == s.rows[id].merchant
  {
  }

  lemma StuckNow(t: State, other: RowId, rumor: Rumor)
    requires Unique(t) && other in t.rows && t.rows[other].rumor == Some(rumor)
    ensures forall x :: x in t.rows && t.wraps(t.rows[x].outer) == rumor && t.rows[x].merchant != t.rows[other].merchant ==>
      t.rows[x].state != Validated && Validate(t, x) == t
  {
  }

  // ---- The table ----

  class InboxTable {
    const wraps: Outer -> Rumor
    var rows: map<RowId, Row>
    ghost var log: seq<Validation>
    ghost var history: seq<Event>

    ghost function Tables(): State
      reads this
    {
      State(wraps, rows, log)
    }

    ghost predicate Valid()
      reads this
    {
      Tables() == Run(Empty(wraps), history)
    }

    constructor (wraps: Outer -> Rumor)
      ensures Valid() && Tables() == Empty(wraps) && this.wraps == wraps
    {
      this.wraps, rows, log, history := wraps, map[], [], [];
    }

    method AdmitEvent(id: RowId, outer: Outer, merchant: Merchant) returns (received: bool)
      requires Valid() && id !in rows
      modifies this
      ensures Valid() && Tables() == Admit(old(Tables()), id, outer, merchant)
      ensures received <==> forall x :: x in old(rows) ==> old(rows)[x].outer != outer
      ensures received <==> id in rows
    {
      RunSnoc(Empty(wraps), history, DoAdmit(id, outer, merchant));
      history := history + [DoAdmit(id, outer, merchant)];
      received := forall x :: x in rows ==> rows[x].outer != outer;
      if received {
        rows := rows[id := Row(outer, merchant, None, Received)];
      }
    }

    /** The last transaction of `_process_received`, on a row of any state; None when the index refuses the update. */
    method ProcessReceived(id: RowId) returns (verdict: Option<RowState>)
      requires Valid() && id in rows
      modifies this
      ensures Valid() && Tables() == Validate(old(Tables()), id)
      ensures verdict == Some(Validated) <==> forall x :: x in old(rows) ==> old(rows)[x].rumor != Some(wraps(old(rows)[id].outer))
      ensures verdict == Some(Duplicate) <==> HasRumor(old(Tables()), old(rows)[id].merchant, wraps(old(rows)[id].outer))
      ensures verdict.None? ==> rows == old(rows)
      ensures verdict.Some? ==> rows[id].state == verdict.value
    {
      RunSnoc(Empty(wraps), history, DoValidate(id));
      history := history + [DoValidate(id)];
      var row := rows[id];
      var rumor := wraps(row.outer);
      if exists x :: x in rows && rows[x].merchant == row.merchant && rows[x].rumor == Some(rumor) {
        rows := rows[id := row.(state := Duplicate)];
        verdict := Some(Duplicate);
      } else if exists x :: x in rows && rows[x].rumor == Some(rumor) {
        verdict := None;
      } else {
        rows := rows[id := row.(rumor := Some(rumor), state := Validated)];
        log := log + [Validation(row.merchant, rumor, id)];
        verdict := Some(Validated);
      }
    }

    method MarkRejected(id: RowId)
      requires Valid() && id in rows
      modifies this
      ensures Valid() && Tables() == Reject(old(Tables()), id)
    {
      RunSnoc(Empty(wraps), history, DoReject(id));
      history := history + [DoReject(id)];
      rows := rows[id := rows[id].(state := Rejected)];
    }

    method DeleteMuted(id: RowId)
      requires Valid()
      modifies this
      ensures Valid() && Tables() == Drop(old(Tables()), id)
    {
      RunSnoc(Empty(wraps), history, DoDrop(id));
      history := history + [DoDrop(id)];
      rows := rows - {id};
    }

    method MarkDispatched(id: RowId, outcome: RowState)
      requires Valid() && id in rows && outcome in {Processed, Rejected, Quarantined}
      modifies this
      ensures Valid() && Tables() == Dispatched(old(Tables()), id, outcome)
    {
      RunSnoc(Empty(wraps), history, DoDispatched(id, outcome));
      history := history + [DoDispatched(id, outcome)];
      rows := rows[id := rows[id].(state := outcome)];
    }
  }
}

/** Gamma orders, one per merchant, buyer and external id (infinitemarkets/services/checkout.py). */
module GammaIntake {
  import opened Wrappers

  const MAX_OPEN := 10

  datatype Key = Key(merchant: nat, buyer: nat, external: nat)

  datatype Order = Order(id: nat, key: Key, hash: nat, isOpen: bool)

  datatype Reply = Created | Existing(id: nat, hash: nat) | OrderConflict | RateLimited

  function OpenCount(orders: seq<Order>, merchant: nat, buyer: nat): nat {
    if orders == [] then 0
    else
      var o := orders[|orders| - 1];
      OpenCount(orders[..|orders| - 1], merchant, buyer) +
      if o.key.merchant == merchant && o.key.buyer == buyer && o.isOpen then 1 else 0
  }

  /** Position of the first order with this key, |orders| if there is none. */
  function Find(orders: seq<Order>, key: Key): (i: nat)
    ensures i <= |orders|
    ensures i < |orders| ==> orders[i].key == key
    ensures forall j :: 0 <= j < i ==> orders[j].key != key
  {
    if orders == [] then 0 else if orders[0].key == key then 0 else 1 + Find(orders[1..], key)
  }

  /** The open-order cap, then INSERT ... ON CONFLICT DO NOTHING, then the compare of request hashes. */
  function Intake(orders: seq<Order>, id: nat, key: Key, hash: nat): (seq<Order>, Reply) {
    if OpenCount(orders, key.merchant, key.buyer) >= MAX_OPEN then (orders, RateLimited)
    else
      var i := Find(orders, key);
      if i < |orders| then
        (orders, if orders[i].hash == hash then Existing(orders[i].id, orders[i].hash) else OrderConflict)
      else if exists j :: 0 <= j < |orders| && orders[j].id == id then (orders, OrderConflict)
      else (orders + [Order(id, key, hash, true)], Created)
  }

  datatype Event = DoIntake(id: nat, key: Key, hash: nat) | DoClose(at: nat)

  /** Orders leave the open states by other modules' transitions. */
  function Apply(orders: seq<Order>, e: Event): seq<Order> {
    match e
    case DoIntake(id, key, hash) => Intake(orders, id, key, hash).0
    case DoClose(at) => if at < |orders| then orders[at := orders[at].(isOpen := false)] else orders
  }

  function Run(orders: seq<Order>, events: seq<Event>): seq<Order> {
    if events == [] then orders else Apply(Run(orders, events[..|events| - 1]), events[|events| - 1])
  }

  predicate Unique(orders: seq<Order>) {
    && (forall i, j :: 0 <= i < j < |orders| ==> orders[i].key != orders[j].key)
    && (forall i, j :: 0 <= i < j < |orders| ==> orders[i].id != orders[j].id)
  }

  /** Orders stay, with their key and request hash. */
  predicate Extends(a: seq<Order>, b: seq<Order>) {
    && |a| <= |b|
    && forall i :: 0 <= i < |a| ==> b[i].id == a[i].id && b[i].key == a[i].key && b[i].hash == a[i].hash
  }

  lemma IntakeKeeps(orders: seq<Order>, id: nat, key: Key, hash: nat)
    requires Unique(orders)
    ensures Unique(Intake(orders, id, key, hash).0) && Extends(orders, Intake(orders, id, key, hash).0)
  {
  }

  lemma CloseKeeps(orders: seq<Order>, at: nat)
    requires Unique(orders)
    ensures Unique(Apply(orders, DoClose(at))) && Extends(orders, Apply(orders, DoClose(at)))
  {
  }

  lemma {:induction false} RunKeeps(orders: seq<Order>, events: seq<Event>)
    requires Unique(orders)
    ensures Unique(Run(orders, events)) && Extends(orders, Run(orders, events))
  {
    if events != [] {
      var before := Run(orders, events[..|events| - 1]);
      RunKeeps(orders, events[..|events| - 1]);
      match events[|events| - 1]
      case DoIntake(id, key, hash) => IntakeKeeps(before, id, key, hash);
      case DoClose(at) => CloseKeeps(before, at);
    }
  }

  /** At most one order per merchant, buyer and external id, in every run. */
  lemma {:induction false} OneOrderPerExternalId(events: seq<Event>, i: nat, j: nat)
    requires i < |Run([], events)| && j < |Run([], events)|
    requires Run([], events)[i].key == Run([], events)[j].key
    ensures i == j
  {
    RunKeeps([], events);
  }

  /** Once an order exists, no later intake of its key creates one: the same request finds it, another is refused. */
  lemma {:induction false} LaterIntakes(before: seq<Event>, after: seq<Event>, i: nat, id: nat, hash: nat)
    requires i < |Run([], before)|
    ensures
      var order := Run([], before)[i];
      var (orders, reply) := Intake(Run(Run([], before), after), id, order.key, hash);
      && orders == Run(Run([], before), after)
      && (reply.RateLimited? || reply == if hash == order.hash then Existing(order.id, order.hash) else OrderConflict)
  {
    RunKeeps([], before);
    RunKeeps(Run([], before), after);
    var now := Run(Run([], before), after);
    assert now[i].key == Run([], before)[i].key;
    var k := Find(now, now[i].key);
    assert k == i;
  }

  /** The open orders of this buyer with this merchant, by position. */
  function OpenAt(orders: seq<Order>, merchant: nat, buyer: nat): set<nat> {
    set i: nat | i < |orders| && orders[i].isOpen && orders[i].key.merchant == merchant && orders[i].key.buyer == buyer
  }

  lemma {:induction false} OpenCountIsSize(orders: seq<Order>, merchant: nat, buyer: nat)
    ensures OpenCount(orders, merchant, buyer) == |OpenAt(orders, merchant, buyer)|
  {
    if orders != [] {
      var n := |orders| - 1;
      OpenCountIsSize(orders[..n], merchant, buyer);
      var rest := OpenAt(orders[..n], merchant, buyer);
      var o := orders[n];
      assert OpenAt(orders, merchant, buyer) ==
        rest + if o.isOpen && o.key.merchant == merchant && o.key.buyer == buyer then {n} else {};
    }
  }

  /** A new order exactly for a new key and id and fewer than ten open orders; a known key is found if the request agrees. */
  lemma IntakeExactly(orders: seq<Order>, id: nat, key: Key, hash: nat)
    ensures
      var (after, reply) := Intake(orders, id, key, hash);
      && (reply == RateLimited <==> |OpenAt(orders, key.merchant, key.buyer)| >= 10)
      && (reply == Created <==>
            && |OpenAt(orders, key.merchant, key.buyer)| < 10
            && (forall o :: o in orders ==> o.key != key && o.id != id))
      && after == orders + (if reply == Created then [Order(id, key, hash, true)] else [])
      && (Unique(orders) && (exists o :: o in orders && o.key == key && o.hash == hash) ==> reply.Existing? || reply == RateLimited)
      && (reply.Existing? ==> exists o :: o in orders && o.key == key && o.hash == hash && reply == Existing(o.id, hash))
      && (reply == OrderConflict ==> exists o :: o in orders && ((o.key == key && o.hash != hash) || o.id == id))
  {
    OpenCountIsSize(orders, key.merchant, key.buyer);
    var i := Find(orders, key);
    if i < |orders| {
      assert orders[i] in orders;
    }
    if j :| 0 <= j < |orders| && orders[j].id == id {
      assert orders[j] in orders;
    }
  }

  lemma CloseExactly(orders: seq<Order>, at: nat, i: nat)
    requires i < |orders|
    ensures
      var t := Apply(orders, DoClose(at));
      |t| == |orders| && t[i] == Order(orders[i].id, orders[i].key, orders[i].hash, orders[i].isOpen && i != at)
  {
  }

  class OrderIntake {
    var orders: seq<Order>

    constructor ()
      ensures orders == []
    {
      orders := [];
    }

    method InsertGammaOrder(id: nat, key: Key, hash: nat) returns (reply: Reply)
      requires Unique(orders)
      modifies this
      ensures Unique(orders) && (orders, reply) == Intake(old(orders), id, key, hash)
      ensures reply.Created? ==> orders == old(orders) + [Order(id, key, hash, true)]
      ensures reply.Created? ==> forall o :: o in old(orders) ==> o.key != key
      ensures !reply.Created? ==> orders == old(orders)
    {
      if OpenCount(orders, key.merchant, key.buyer) >= MAX_OPEN {
        return RateLimited;
      }
      var i := Find(orders, key);
      if i < |orders| {
        reply := if orders[i].hash == hash then Existing(orders[i].id, orders[i].hash) else OrderConflict;
      } else if exists j :: 0 <= j < |orders| && orders[j].id == id {
        reply := OrderConflict;
      } else {
        orders := orders + [Order(id, key, hash, true)];
        reply := Created;
      }
    }

    /** An order of the buyer leaves the open states. */
    method CloseOrder(at: nat)
      requires Unique(orders)
      modifies this
      ensures Unique(orders) && orders == Apply(old(orders), DoClose(at)) && Extends(old(orders), orders)
    {
      CloseKeeps(orders, at);
      if at < |orders| {
        orders := orders[at := orders[at].(isOpen := false)];
      }
    }
  }
}
