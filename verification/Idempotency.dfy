/** Leased, token-fenced idempotency records of checkout (services/checkout.py, section 4.15). */
module Idempotency {
  import opened Wrappers
  import Orders

  type OrderId = Orders.OrderId
  type Scope = nat     // SHA-256 of merchant, route and idempotency key
  type RequestHash = nat
  type Response = nat  // the stored 201 body

  const LEASE_S := 120
  const TTL_S := 30 * 86400
  const ORDER_RETENTION_S := 90 * 86400
  const MAX_OPEN_ORDERS := 10

  datatype Phase = InProgress | Completed | Failed

  datatype Record = Record(
    hash: RequestHash, phase: Phase, leaseUntil: int, order: Option<OrderId>, response: Option<Response>, token: nat,
    expiresAt: int)

  /**
   * `orders` maps each web order to the scope whose worker inserted it; `terminal` holds the orders in a terminal state
   * with the moment they entered it.
   */
  datatype State = State(records: map<Scope, Record>, orders: map<OrderId, Scope>, terminal: map<OrderId, int>)

  datatype Claim = Fresh(token: nat) | Resume(order: OrderId, token: nat) | Replay(response: Response)
                 | RequestInProgress | IdempotencyConflict

  /** INSERT ... ON CONFLICT DO NOTHING, then replay, refuse or reclaim the existing record. */
  function ClaimRecord(s: State, scope: Scope, hash: RequestHash, now: int): (State, Claim) {
    if scope !in s.records then
      (s.(records := s.records[scope := Record(hash, InProgress, now + LEASE_S, None, None, 1, now + TTL_S)]),
       Fresh(1))
    else
      var row := s.records[scope];
      if row.hash != hash then (s, IdempotencyConflict)
      else if row.phase == Completed && row.response.Some? then (s, Replay(row.response.value))
      else if row.phase == InProgress && row.leaseUntil != 0 && row.leaseUntil > now then (s, RequestInProgress)
      else
        (s.(records := s.records[scope := row.(phase := InProgress, leaseUntil := now + LEASE_S, token := row.token + 1)]),
         if row.order.Some? then Resume(row.order.value, row.token + 1) else Fresh(row.token + 1))
  }

  /** The live claim of `scope`: in progress under this token with an unexpired lease. */
  predicate Live(s: State, scope: Scope, token: nat, now: int) {
    && scope in s.records
    && s.records[scope].phase == InProgress
    && s.records[scope].token == token
    && s.records[scope].leaseUntil > now
  }

  datatype IntakeReply = Inserted | RateLimited | Refused

  /** The open-order cap first; then the order row and its link together, and a lost link rolls the order back. */
  function InsertOrder(s: State, scope: Scope, token: nat, o: OrderId, now: int, openOrders: nat): (State, IntakeReply) {
    if openOrders >= MAX_OPEN_ORDERS then (s, RateLimited)
    else if o !in s.orders && Live(s, scope, token, now) && s.records[scope].order.None? then
      (s.(records := s.records[scope := s.records[scope].(order := Some(o))], orders := s.orders[o := scope]), Inserted)
    else (s, Refused)
  }

  function Complete(s: State, scope: Scope, token: nat, o: OrderId, response: Response, now: int): State {
    if Live(s, scope, token, now) && s.records[scope].order == Some(o)
    then s.(records := s.records[scope :=
      s.records[scope].(phase := Completed, response := Some(response), leaseUntil := 0)])
    else s
  }

  function Fail(s: State, scope: Scope, token: nat, now: int): State {
    if Live(s, scope, token, now)
    then s.(records := s.records[scope := s.records[scope].(phase := Failed, leaseUntil := 0)])
    else s
  }

  /** Retention takes records past their expiry or linked to an order terminal for 90 days (settlement.py:942-972). */
  predicate Erasable(r: Record, terminal: map<OrderId, int>, now: int) {
    r.expiresAt <= now
    || (r.order.Some? && r.order.value in terminal && terminal[r.order.value] <= now - ORDER_RETENTION_S)
  }

  function Retain(s: State, now: int): State {
    s.(records := map scope | scope in s.records ::
      if Erasable(s.records[scope], s.terminal, now) then s.records[scope].(response := None) else s.records[scope])
  }

  /** Other modules move orders into and out of terminal states. */
  function MoveOrder(s: State, o: OrderId, since: Option<int>): State {
    s.(terminal := if since.Some? then s.terminal[o := since.value] else s.terminal - {o})
  }

  datatype Event =
    | DoClaim(scope: Scope, hash: RequestHash, now: int)
    | DoInsert(scope: Scope, token: nat, order: OrderId, now: int, openOrders: nat)
    | DoComplete(scope: Scope, token: nat, order: OrderId, response: Response, now: int)
    | DoFail(scope: Scope, token: nat, now: int)
    | DoRetain(now: int)
    | DoMoveOrder(order: OrderId, since: Option<int>)

  function Apply(s: State, e: Event): State {
    match e
    case DoClaim(scope, hash, now) => ClaimRecord(s, scope, hash, now).0
    case DoInsert(scope, token, o, now, openOrders) => InsertOrder(s, scope, token, o, now, openOrders).0
    case DoComplete(scope, token, o, response, now) => Complete(s, scope, token, o, response, now)
    case DoFail(scope, token, now) => Fail(s, scope, token, now)
    case DoRetain(now) => Retain(s, now)
    case DoMoveOrder(o, since) => MoveOrder(s, o, since)
  }

  function Run(s: State, events: seq<Event>): State {
    if events == [] then s else Apply(Run(s, events[..|events| - 1]), events[|events| - 1])
  }

  const Empty := State(map[], map[], map[])

  lemma RunSnoc(s: State, events: seq<Event>, e: Event)
    ensures Run(s, events + [e]) == Apply(Run(s, events), e)
  {
    assert (events + [e])[..|events|] == events;
  }

  /** Orders and links are two sides of one relation. */
  predicate Linked(s: State) {
    && (forall o :: o in s.orders ==> s.orders[o] in s.records && s.records[s.orders[o]].order == Some(o))
    && (forall scope :: scope in s.records && s.records[scope].order.Some? ==>
          s.records[scope].order.value in s.orders && s.orders[s.records[scope].order.value] == scope)
    && (forall scope :: scope in s.records && s.records[scope].phase == Completed ==> s.records[scope].order.Some?)
  }

  /** Rewriting one record without touching its link. */
  lemma RewriteKeepsLinked(s: State, scope: Scope, r: Record)
    requires Linked(s) && scope in s.records && r.order == s.records[scope].order
    requires r.phase == Completed ==> r.order.Some?
    ensures Linked(s.(records := s.records[scope := r]))
  {
  }

  lemma NewRecordKeepsLinked(s: State, scope: Scope, r: Record)
    requires Linked(s) && scope !in s.records && r.order.None? && r.phase != Completed
    ensures Linked(s.(records := s.records[scope := r]))
  {
  }

  lemma InsertKeepsLinked(s: State, scope: Scope, token: nat, o: OrderId, now: int, openOrders: nat)
    requires Linked(s)
    ensures Linked(InsertOrder(s, scope, token, o, now, openOrders).0)
  {
  }

  lemma RetainKeepsLinked(s: State, now: int)
    requires Linked(s)
    ensures Linked(Retain(s, now))
  {
  }

  lemma StepKeepsLinked(s: State, e: Event)
    requires Linked(s)
    ensures Linked(Apply(s, e))
  {
    match e
    case DoClaim(scope, hash, now) =>
      var t := ClaimRecord(s, scope, hash, now).0;
      if scope !in s.records {
        NewRecordKeepsLinked(s, scope, t.records[scope]);
      } else if t != s {
        RewriteKeepsLinked(s, scope, t.records[scope]);
      }
    case DoInsert(scope, token, o, now, openOrders) => InsertKeepsLinked(s, scope, token, o, now, openOrders);
    case DoComplete(scope, token, o, response, now) =>
      if Live(s, scope, token, now) && s.records[scope].order == Some(o) {
        RewriteKeepsLinked(s, scope, Complete(s, scope, token, o, response, now).records[scope]);
      }
    case DoFail(scope, token, now) =>
      if Live(s, scope, token, now) {
        RewriteKeepsLinked(s, scope, Fail(s, scope, token, now).records[scope]);
      }
    case DoRetain(now) => RetainKeepsLinked(s, now);
    case DoMoveOrder(o, since) =>
  }

  lemma {:induction false} RunKeepsLinked(s: State, events: seq<Event>)
    requires Linked(s)
    ensures Linked(Run(s, events))
  {
    if events != [] {
      RunKeepsLinked(s, events[..|events| - 1]);
      StepKeepsLinked(Run(s, events[..|events| - 1]), events[|events| - 1]);
    }
  }

  /** One key yields at most one order, over any interleaving of retries, crashes, reclaims and retention. */
  lemma {:induction false} OneOrderPerKey(events: seq<Event>, a: OrderId, b: OrderId)
    requires a in Run(Empty, events).orders && b in Run(Empty, events).orders
    requires Run(Empty, events).orders[a] == Run(Empty, events).orders[b]
    ensures a == b
    ensures Run(Empty, events).orders[a] in Run(Empty, events).records
    ensures Run(Empty, events).records[Run(Empty, events).orders[a]].order == Some(a)
  {
    RunKeepsLinked(Empty, events);
  }

  /** What no later step undoes: the request, the linked order, the order rows and the token's growth. */
  predicate Extends(s: State, t: State) {
    && (forall scope :: scope in s.records ==>
          && scope in t.records
          && t.records[scope].hash == s.records[scope].hash
          && t.records[scope].token >= s.records[scope].token
          && (s.records[scope].order.Some? ==> t.records[scope].order == s.records[scope].order))
    && (forall o :: o in s.orders ==> o in t.orders && t.orders[o] == s.orders[o])
  }

  lemma StepExtends(s: State, e: Event)
    ensures Extends(s, Apply(s, e))
  {
  }

  lemma ExtendsTransitive(s: State, t: State, u: State)
    requires Extends(s, t) && Extends(t, u)
    ensures Extends(s, u)
  {
  }

  /** No run rewrites a link or an order, or hands out a smaller token. */
  lemma {:induction false} LinksAreWrittenOnce(s: State, events: seq<Event>)
    ensures Extends(s, Run(s, events))
  {
    if events != [] {
      var before := Run(s, events[..|events| - 1]);
      LinksAreWrittenOnce(s, events[..|events| - 1]);
      StepExtends(before, events[|events| - 1]);
      ExtendsTransitive(s, before, Run(s, events));
    }
  }

  /** An order and its link appear in the same step, made under the live token. */
  lemma OrderAppearsWithItsLink(s: State, e: Event, o: OrderId)
    requires o !in s.orders && o in Apply(s, e).orders
    ensures e.DoInsert? && e.order == o && Apply(s, e).orders[o] == e.scope
    ensures Live(s, e.scope, e.token, e.now) && s.records[e.scope].order.None? && e.openOrders < MAX_OPEN_ORDERS
    ensures Apply(s, e).records[e.scope].order == Some(o)
  {
  }

  /** A worker whose record was reclaimed can neither link, complete nor fail it, now or later. */
  lemma StaleTokenIsPowerless(s: State, events: seq<Event>, e: Event)
    requires e.DoInsert? || e.DoComplete? || e.DoFail?
    requires e.scope in s.records && e.token < s.records[e.scope].token
    ensures Apply(Run(s, events), e) == Run(s, events)
  {
    LinksAreWrittenOnce(s, events);
  }

  predicate Answered(s: State, scope: Scope) {
    scope in s.records && s.records[scope].phase == Completed && s.records[scope].response.Some?
  }

  /** One step changes a completed record with its response exactly when retention runs while the record is erasable. */
  lemma CompletedChangesOnlyByErasure(s: State, e: Event, scope: Scope)
    requires Answered(s, scope)
    ensures
      (scope !in Apply(s, e).records || Apply(s, e).records[scope] != s.records[scope])
      <==> e.DoRetain? && Erasable(s.records[scope], s.terminal, e.now)
  {
  }

  /** No event of the run moves the order this record is linked to. */
  predicate OrderRests(r: Record, events: seq<Event>) {
    forall i :: 0 <= i < |events| && events[i].DoMoveOrder? ==> r.order != Some(events[i].order)
  }

  /** Some retention of the run comes when the record is erasable. */
  predicate Erased(r: Record, terminal: map<OrderId, int>, events: seq<Event>) {
    exists i :: 0 <= i < |events| && events[i].DoRetain? && Erasable(r, terminal, events[i].now)
  }

  /** The order's terminal time reads the same in both maps. */
  predicate SameTerminal(r: Record, a: map<OrderId, int>, b: map<OrderId, int>) {
    r.order.Some? ==>
      (r.order.value in a <==> r.order.value in b) && (r.order.value in a ==> a[r.order.value] == b[r.order.value])
  }

  /** Its response is gone, or it was reclaimed after it went. */
  predicate LostResponse(s: State, scope: Scope, token: nat) {
    && scope in s.records
    && (s.records[scope].token > token
        || (s.records[scope].token == token && s.records[scope].phase == Completed && s.records[scope].response.None?))
  }

  lemma LostStaysLost(s: State, e: Event, scope: Scope, token: nat)
    requires LostResponse(s, scope, token)
    ensures LostResponse(Apply(s, e), scope, token)
  {
  }

  lemma ErasedSnoc(r: Record, terminal: map<OrderId, int>, events: seq<Event>)
    requires events != []
    ensures Erased(r, terminal, events) <==>
      Erased(r, terminal, events[..|events| - 1])
      || (events[|events| - 1].DoRetain? && Erasable(r, terminal, events[|events| - 1].now))
  {
    assert events == events[..|events| - 1] + [events[|events| - 1]];
  }

  /**
   * While its order stays where it is, a completed response is replayed until the first retention at or after its expiry
   * or 90 days after the order became terminal, and is lost from then on.
   */
  lemma {:induction false} ReplayedUntilRetention(s: State, events: seq<Event>, scope: Scope)
    requires Answered(s, scope) && OrderRests(s.records[scope], events)
    ensures
      var t, r := Run(s, events), s.records[scope];
      && SameTerminal(r, s.terminal, t.terminal)
      && if Erased(r, s.terminal, events) then LostResponse(t, scope, r.token)
         else scope in t.records && t.records[scope] == r
  {
    if events != [] {
      var front, e, r := events[..|events| - 1], events[|events| - 1], s.records[scope];
      assert OrderRests(r, front);
      ReplayedUntilRetention(s, front, scope);
      var u := Run(s, front);
      ErasedSnoc(r, s.terminal, events);
      if Erased(r, s.terminal, front) {
        LostStaysLost(u, e, scope, r.token);
      } else {
        CompletedChangesOnlyByErasure(u, e, scope);
        assert e.DoRetain? ==> (Erasable(r, u.terminal, e.now) <==> Erasable(r, s.terminal, e.now));
      }
    }
  }

  /** Until then every retry of the same request replays the same response and starts nothing. */
  lemma {:induction false} CompletedReplays(s: State, events: seq<Event>, scope: Scope, hash: RequestHash, now: int)
    requires Answered(s, scope) && OrderRests(s.records[scope], events) && !Erased(s.records[scope], s.terminal, events)
    ensures ClaimRecord(Run(s, events), scope, hash, now)
         == (Run(s, events),
             if hash == s.records[scope].hash then Replay(s.records[scope].response.value) else IdempotencyConflict)
  {
    ReplayedUntilRetention(s, events, scope);
  }

  /** After an erasure a retry reopens the completed record, but resumes the order it already has. */
  lemma {:induction false} ErasedRecordIsReopened(events: seq<Event>, scope: Scope, at: int, now: int)
    requires Answered(Run(Empty, events), scope)
    requires Erasable(Run(Empty, events).records[scope], Run(Empty, events).terminal, at)
    ensures
      var s := Run(Empty, events);
      var (t, claim) := ClaimRecord(Retain(s, at), scope, s.records[scope].hash, now);
      && t.records[scope].phase == InProgress
      && claim.Resume? && s.records[scope].order == Some(claim.order) && claim.token == s.records[scope].token + 1
      && t.orders == s.orders
  {
    RunKeepsLinked(Empty, events);
  }

  // ---- Each operation on the fields of the record ----

  /**
   * A claim is refused as in progress exactly while another one of the same request holds an unexpired lease; any other
   * unanswered record is claimed again. (A lease of 0 is no lease, whatever the clock reads.)
   */
  lemma ClaimReplies(s: State, scope: Scope, hash: RequestHash, now: int)
    requires scope in s.records
    ensures
      var r := s.records[scope];
      var (t, claim) := ClaimRecord(s, scope, hash, now);
      && (claim == IdempotencyConflict <==> hash != r.hash)
      && (claim.Replay? <==> hash == r.hash && r.phase == Completed && r.response.Some?)
      && (claim.Replay? ==> claim.response == r.response.value)
      && (claim == RequestInProgress <==> hash == r.hash && r.phase == InProgress && r.leaseUntil != 0 && now < r.leaseUntil)
      && (0 <= now ==> (claim == RequestInProgress <==> hash == r.hash && r.phase == InProgress && now < r.leaseUntil))
      && (claim.Fresh? || claim.Resume? || t == s)
  {
  }

  /** A granted claim starts or takes over the record for 120 seconds; a linked order is resumed, never restarted. */
  lemma ClaimGrants(s: State, scope: Scope, hash: RequestHash, now: int)
    ensures
      var (t, claim) := ClaimRecord(s, scope, hash, now);
      && t.orders == s.orders && t.terminal == s.terminal
      && (scope !in s.records ==>
            && claim == Fresh(1)
            && t.records == s.records[scope := Record(hash, InProgress, now + 120, None, None, 1, now + 30 * 24 * 3600)])
      && (scope in s.records && (claim.Fresh? || claim.Resume?) ==>
            var r := s.records[scope];
            && t.records == s.records[scope :=
                 Record(r.hash, InProgress, now + 120, r.order, r.response, r.token + 1, r.expiresAt)]
            && claim == match r.order case Some(o) => Resume(o, r.token + 1) case None => Fresh(r.token + 1))
  {
  }

  /** An order is inserted exactly below the cap of ten open orders, by the live claim of a record without an order. */
  lemma InsertExactly(s: State, scope: Scope, token: nat, o: OrderId, now: int, openOrders: nat)
    ensures
      var (t, reply) := InsertOrder(s, scope, token, o, now, openOrders);
      && (reply == RateLimited <==> openOrders >= 10)
      && (reply == Inserted <==>
            && openOrders < 10 && o !in s.orders && scope in s.records && s.records[scope].order == None
            && s.records[scope].phase == InProgress && s.records[scope].token == token && now < s.records[scope].leaseUntil)
      && (reply != Inserted ==> t == s)
      && (reply == Inserted ==>
            && t.orders == s.orders[o := scope] && t.terminal == s.terminal
            && t.records == s.records[scope := s.records[scope].(order := Some(o))])
  {
  }

  /** The same live claim, and nobody else, completes its record with the linked order, or fails it. */
  lemma ClosingExactly(s: State, scope: Scope, token: nat, o: OrderId, response: Response, now: int)
    ensures
      var holds := scope in s.records && s.records[scope].phase == InProgress && s.records[scope].token == token
                   && now < s.records[scope].leaseUntil;
      && Apply(s, DoFail(scope, token, now)) ==
           (if holds then s.(records := s.records[scope := s.records[scope].(phase := Failed, leaseUntil := 0)]) else s)
      && Apply(s, DoComplete(scope, token, o, response, now)) ==
           (if holds && s.records[scope].order == Some(o)
            then s.(records := s.records[scope :=
                   s.records[scope].(phase := Completed, response := Some(response), leaseUntil := 0)])
            else s)
  {
  }

  /** Retention clears a response 30 days after the record was made, or 90 days after its order became terminal. */
  lemma RetainExactly(s: State, now: int, scope: Scope)
    requires scope in s.records
    ensures
      var t, r := Retain(s, now), s.records[scope];
      && t.records.Keys == s.records.Keys && t.orders == s.orders && t.terminal == s.terminal
      && t.records[scope] ==
           if now >= r.expiresAt || (exists o :: r.order == Some(o) && o in s.terminal && now - s.terminal[o] >= 90 * 24 * 3600)
           then r.(response := None) else r
  {
  }

  lemma MoveOrderExactly(s: State, o: OrderId, since: Option<int>, x: OrderId)
    ensures
      var t := MoveOrder(s, o, since);
      && t.records == s.records && t.orders == s.orders
      && (o in t.terminal <==> since.Some?) && (since.Some? ==> Some(t.terminal[o]) == since)
      && (x != o ==> (x in t.terminal <==> x in s.terminal) && (x in s.terminal ==> t.terminal[x] == s.terminal[x]))
  {
  }

  /** The claim ends: its own worker completes or fails it, or a retry comes at or after the end of its lease. */
  predicate Ends(e: Event, scope: Scope, token: nat, leaseUntil: int) {
    match e
    case DoClaim(x, _, now) => x == scope && now >= leaseUntil
    case DoComplete(x, t, _, _, _) => x == scope && t == token
    case DoFail(x, t, _) => x == scope && t == token
    case _ => false
  }

  /** The record is in progress under this token and lease. */
  predicate HeldClaim(s: State, scope: Scope, token: nat, leaseUntil: int) {
    && scope in s.records && s.records[scope].phase == InProgress
    && s.records[scope].token == token && s.records[scope].leaseUntil == leaseUntil
  }

  /** Nothing takes the token of a claim away before its lease ends, unless the claim itself completed or failed. */
  lemma {:induction false} LeaseIsRespected(s: State, events: seq<Event>, scope: Scope, token: nat, leaseUntil: int)
    requires HeldClaim(s, scope, token, leaseUntil) && leaseUntil != 0
    requires forall i :: 0 <= i < |events| ==> !Ends(events[i], scope, token, leaseUntil)
    ensures HeldClaim(Run(s, events), scope, token, leaseUntil)
  {
    if events != [] {
      LeaseIsRespected(s, events[..|events| - 1], scope, token, leaseUntil);
      assert !Ends(events[|events| - 1], scope, token, leaseUntil);
    }
  }

  /** So until a granted claim ends, each retry is told to wait, and from its end on the next one takes over. */
  lemma {:induction false} RetriesWaitForTheLease(
    s: State, scope: Scope, hash: RequestHash, at: int, events: seq<Event>, now: int)
    requires at >= 0 && now >= 0
    requires ClaimRecord(s, scope, hash, at).1.Fresh? || ClaimRecord(s, scope, hash, at).1.Resume?
    requires
      forall i :: 0 <= i < |events| ==> !Ends(events[i], scope, ClaimRecord(s, scope, hash, at).1.token, at + 120)
    ensures
      var (granted, claim) := ClaimRecord(s, scope, hash, at);
      var retry := ClaimRecord(Run(granted, events), scope, hash, now).1;
      && HeldClaim(Run(granted, events), scope, claim.token, at + 120)
      && (retry == RequestInProgress <==> now < at + 120)
      && (now >= at + 120 ==> (retry.Fresh? || retry.Resume?) && retry.token == claim.token + 1)
  {
    var (granted, claim) := ClaimRecord(s, scope, hash, at);
    LeaseIsRespected(granted, events, scope, claim.token, at + 120);
    LinksAreWrittenOnce(granted, events);
    assert granted.records[scope].hash == hash;
  }

  class IdempotencyStore {
    var records: map<Scope, Record>
    var orders: map<OrderId, Scope>
    var terminal: map<OrderId, int>
    ghost var history: seq<Event>

    function Tables(): State
      reads this
    {
      State(records, orders, terminal)
    }

    /** The tables are what the committed steps made of the empty ones, so every run theorem holds of them. */
    ghost predicate Valid()
      reads this
    {
      Tables() == Run(Empty, history)
    }

    constructor ()
      ensures Valid() && Tables() == Empty
    {
      records, orders, terminal, history := map[], map[], map[], [];
    }

    method ClaimIdempotency(scope: Scope, hash: RequestHash, now: int) returns (claim: Claim)
      requires Valid()
      modifies this
      ensures Valid() && (Tables(), claim) == ClaimRecord(old(Tables()), scope, hash, now)
    {
      RunSnoc(Empty, history, DoClaim(scope, hash, now));
      history := history + [DoClaim(scope, hash, now)];
      if scope !in records {
        records := records[scope := Record(hash, InProgress, now + LEASE_S, None, None, 1, now + TTL_S)];
        return Fresh(1);
      }
      var row := records[scope];
      if row.hash != hash {
        return IdempotencyConflict;
      }
      if row.phase == Completed && row.response.Some? {
        return Replay(row.response.value);
      }
      if row.phase == InProgress && row.leaseUntil != 0 && row.leaseUntil > now {
        return RequestInProgress;
      }
      records := records[scope := row.(phase := InProgress, leaseUntil := now + LEASE_S, token := row.token + 1)];
      return if row.order.Some? then Resume(row.order.value, row.token + 1) else Fresh(row.token + 1);
    }

    /** One transaction: the cap, the order row, the link; a lost link rolls the order back. */
    method InsertOrderIntake(scope: Scope, token: nat, o: OrderId, now: int, openOrders: nat) returns (reply: IntakeReply)
      requires Valid()
      modifies this
      ensures Valid() && (Tables(), reply) == InsertOrder(old(Tables()), scope, token, o, now, openOrders)
      ensures reply == Inserted ==> orders == old(orders)[o := scope] && o !in old(orders)
      ensures reply != Inserted ==> Tables() == old(Tables())
    {
      RunSnoc(Empty, history, DoInsert(scope, token, o, now, openOrders));
      history := history + [DoInsert(scope, token, o, now, openOrders)];
      if openOrders >= MAX_OPEN_ORDERS {
        return RateLimited;
      }
      if o in orders {
        return Refused;
      }
      var before := orders;
      orders := orders[o := scope];
      if scope !in records || records[scope].order.Some? || records[scope].phase != InProgress
         || records[scope].token != token || records[scope].leaseUntil <= now
      {
        orders := before;
        return Refused;
      }
      records := records[scope := records[scope].(order := Some(o))];
      return Inserted;
    }

    method CompleteIdempotency(scope: Scope, token: nat, o: OrderId, response: Response, now: int)
      requires Valid()
      modifies this
      ensures Valid() && Tables() == Complete(old(Tables()), scope, token, o, response, now)
    {
      ghost var s, next := Tables(), history + [DoComplete(scope, token, o, response, now)];
      RunSnoc(Empty, history, DoComplete(scope, token, o, response, now));
      assert Run(Empty, next) == Complete(s, scope, token, o, response, now);
      history := next;
      if Live(Tables(), scope, token, now) && records[scope].order == Some(o) {
        records := records[scope := records[scope].(phase := Completed, response := Some(response), leaseUntil := 0)];
      }
    }

    method FailIdempotency(scope: Scope, token: nat, now: int)
      requires Valid()
      modifies this
      ensures Valid() && Tables() == Fail(old(Tables()), scope, token, now)
    {
      ghost var s, next := Tables(), history + [DoFail(scope, token, now)];
      RunSnoc(Empty, history, DoFail(scope, token, now));
      assert Run(Empty, next) == Fail(s, scope, token, now);
      history := next;
      if Live(Tables(), scope, token, now) {
        records := records[scope := records[scope].(phase := Failed, leaseUntil := 0)];
      }
    }

    method PruneRetention(now: int)
      requires Valid()
      modifies this
      ensures Valid() && Tables() == Retain(old(Tables()), now)
    {
      ghost var s, next := Tables(), history + [DoRetain(now)];
      RunSnoc(Empty, history, DoRetain(now));
      assert Run(Empty, next) == Retain(s, now);
      history := next;
      records := map scope | scope in records ::
        if Erasable(records[scope], terminal, now) then records[scope].(response := None) else records[scope];
    }

    /** The orders module moves an order into or out of a terminal state. */
    method OrderMoved(o: OrderId, since: Option<int>)
      requires Valid()
      modifies this
      ensures Valid() && Tables() == MoveOrder(old(Tables()), o, since)
    {
      ghost var s, next := Tables(), history + [DoMoveOrder(o, since)];
      RunSnoc(Empty, history, DoMoveOrder(o, since));
      assert Run(Empty, next) == MoveOrder(s, o, since);
      history := next;
      terminal := if since.Some? then terminal[o := since.value] else terminal - {o};
    }
  }
}
