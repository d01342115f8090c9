/** The e-mail queue: timed SMTP calls inside leases (infinitemarkets/services/email.py). */
module Email {
  import opened Wrappers

  type RowId = nat

  type OrderId = nat

  const CLAIM_LEASE := 120
  const ORDER_RETENTION := 90 * 86400
  const CALL_TIMEOUT := 30.0

  datatype RowState = Pending | Claimed | Sent | Failed | Suppressed

  /** `order` and `customer` are fixed when the row is queued. */
  datatype Row = Row(order: Option<OrderId>, customer: bool, state: RowState, token: nat,
                     claimedBy: Option<nat>, claimedUntil: Option<int>, attempts: nat, nextAttemptAt: int)

  /** The row as `claim_batch` returned it to a worker. */
  datatype Claim = Claim(id: RowId, token: nat, worker: nat, until: int, attempts: nat)

  /** How far a worker is with one claimed row; `Calling` carries the moment its timeout cuts the call off. */
  datatype Phase = Waiting | Ready(deadline: real) | Calling(end: real) | Done

  datatype Plan = Suppress | Defer(nextAttemptAt: int) | Send

  /** `terminal`: the orders in a terminal state, with the moment they entered it. */
  datatype State = State(now: real, rows: map<RowId, Row>, phases: map<Claim, Phase>, terminal: map<OrderId, int>)

  /** The database clock counts whole seconds. */
  function DbNow(s: State): int {
    s.now.Floor
  }

  function Min(a: real, b: real): real {
    if a <= b then a else b
  }

  // ---- The steps ----

  function Enqueue(s: State, id: RowId, order: Option<OrderId>, customer: bool, nextAttemptAt: int): State {
    if id in s.rows then s
    else s.(rows := s.rows[id := Row(order, customer, Pending, 0, None, None, 0, nextAttemptAt)])
  }

  predicate Due(s: State, id: RowId, n: int, maxAttempts: nat) {
    && id in s.rows && s.rows[id].state == Pending
    && s.rows[id].nextAttemptAt <= n && s.rows[id].attempts < maxAttempts
  }

  /** One row of a claim batch; `n` was read from the clock at some earlier moment. */
  function ClaimRow(s: State, id: RowId, worker: nat, n: int, maxAttempts: nat): State {
    if n > DbNow(s) || !Due(s, id, n, maxAttempts) then s
    else
      var row := s.rows[id];
      s.(rows := s.rows[id := row.(state := Claimed, token := row.token + 1, claimedBy := Some(worker),
                                   claimedUntil := Some(n + CLAIM_LEASE))],
         phases := s.phases[Claim(id, row.token + 1, worker, n + CLAIM_LEASE, row.attempts) := Waiting])
  }

  /** The guard of the live read and of every leased write. */
  predicate Live(s: State, c: Claim) {
    && c.id in s.rows
    && s.rows[c.id].state == Claimed
    && s.rows[c.id].claimedBy == Some(c.worker)
    && s.rows[c.id].token == c.token
    && s.rows[c.id].claimedUntil.Some?
    && s.rows[c.id].claimedUntil.value > DbNow(s)
  }

  /** The row is claimed, and by this very claim. */
  predicate Holds(s: State, c: Claim) {
    && c.id in s.rows
    && s.rows[c.id].state == Claimed
    && s.rows[c.id].claimedBy == Some(c.worker)
    && s.rows[c.id].token == c.token
    && s.rows[c.id].claimedUntil == Some(c.until)
  }

  function Deadline(t0: real, until: int, dbNow: int): real {
    t0 + until as real - dbNow as real
  }

  /** The transaction before the call: `t0` is the monotonic clock, read just before the database clock. */
  function Prepare(s: State, c: Claim, t0: real, plan: Plan): State {
    if c !in s.phases || s.phases[c] != Waiting || t0 > s.now then s
    else if !Live(s, c) then s.(phases := s.phases[c := Done])
    else
      var row := s.rows[c.id];
      match plan
      case Suppress => s.(rows := s.rows[c.id := row.(state := Suppressed)], phases := s.phases[c := Done])
      case Defer(at) =>
        s.(rows := s.rows[c.id := row.(state := Pending, nextAttemptAt := at, claimedBy := None, claimedUntil := None)],
           phases := s.phases[c := Done])
      case Send => s.(phases := s.phases[c := Ready(Deadline(t0, row.claimedUntil.value, DbNow(s)))])
  }

  /** The call starts only with time left, and is cut off after 30 seconds or at the deadline. */
  function StartCall(s: State, c: Claim): State {
    if c !in s.phases || !s.phases[c].Ready? then s
    else
      var remaining := s.phases[c].deadline - s.now;
      s.(phases := s.phases[c := if remaining <= 0.0 then Done else Calling(s.now + Min(CALL_TIMEOUT, remaining))])
  }

  /** Classify the finished call; a lost claim writes nothing. */
  function Finish(s: State, c: Claim, sent: bool, maxAttempts: nat, retryAt: int): State {
    if c !in s.phases || !s.phases[c].Calling? then s
    else if !Live(s, c) then s.(phases := s.phases[c := Done])
    else
      var row := s.rows[c.id];
      var attempts := c.attempts + 1;
      var after :=
        if sent then row.(state := Sent)
        else if attempts >= maxAttempts then row.(state := Failed, attempts := attempts)
        else row.(state := Pending, attempts := attempts, nextAttemptAt := retryAt, claimedBy := None, claimedUntil := None);
      s.(rows := s.rows[c.id := after], phases := s.phases[c := Done])
  }

  function RecoveredRow(row: Row, n: int): Row {
    if row.state == Claimed && row.claimedUntil.Some? && row.claimedUntil.value <= n
    then row.(state := Pending, claimedBy := None, claimedUntil := None)
    else row
  }

  /** Expired claims go back to pending; the token changes only with the next claim. */
  function Recover(s: State, n: int): State {
    if n > DbNow(s) then s
    else s.(rows := map id | id in s.rows :: RecoveredRow(s.rows[id], n))
  }

  /** The buyer's opt-out: the queued customer rows of one order. */
  function OptedOutRow(row: Row, order: OrderId): Row {
    if row.order == Some(order) && row.customer && row.state in {Pending, Claimed} then row.(state := Suppressed) else row
  }

  function OptOut(s: State, order: OrderId): State {
    s.(rows := map id | id in s.rows :: OptedOutRow(s.rows[id], order))
  }

  /** Retention takes the rows of orders that have been terminal for 90 days (settlement.py:942-966). */
  predicate Erasable(terminal: map<OrderId, int>, order: Option<OrderId>, n: int) {
    order.Some? && order.value in terminal && terminal[order.value] <= n - ORDER_RETENTION
  }

  function ErasedRow(row: Row): Row {
    row.(state := if row.state == Sent then Sent else Suppressed, token := row.token + 1,
         claimedUntil := None, claimedBy := None)
  }

  function Retain(s: State, n: int): State {
    s.(rows := map id | id in s.rows ::
      if Erasable(s.terminal, s.rows[id].order, n) then ErasedRow(s.rows[id]) else s.rows[id])
  }

  /** Other modules move orders into and out of terminal states. */
  function MoveOrder(s: State, order: OrderId, since: Option<int>): State {
    s.(terminal := if since.Some? then s.terminal[order := since.value] else s.terminal - {order})
  }

  function Advance(s: State, to: real): State {
    if to >= s.now then s.(now := to) else s
  }

  datatype Event =
    | DoAdvance(to: real)
    | DoEnqueue(id: RowId, forOrder: Option<OrderId>, customer: bool, nextAttemptAt: int)
    | DoClaim(id: RowId, worker: nat, n: int, maxAttempts: nat)
    | DoPrepare(claim: Claim, t0: real, plan: Plan)
    | DoStart(claim: Claim)
    | DoFinish(claim: Claim, sent: bool, maxAttempts: nat, retryAt: int)
    | DoRecover(n: int)
    | DoOptOut(order: OrderId)
    | DoRetain(n: int)
    | DoMoveOrder(order: OrderId, since: Option<int>)

  function Apply(s: State, e: Event): State {
    match e
    case DoAdvance(to) => Advance(s, to)
    case DoEnqueue(id, order, customer, at) => Enqueue(s, id, order, customer, at)
    case DoClaim(id, worker, n, maxAttempts) => ClaimRow(s, id, worker, n, maxAttempts)
    case DoPrepare(c, t0, plan) => Prepare(s, c, t0, plan)
    case DoStart(c) => StartCall(s, c)
    case DoFinish(c, sent, maxAttempts, retryAt) => Finish(s, c, sent, maxAttempts, retryAt)
    case DoRecover(n) => Recover(s, n)
    case DoOptOut(order) => OptOut(s, order)
    case DoRetain(n) => Retain(s, n)
    case DoMoveOrder(order, since) => MoveOrder(s, order, since)
  }

  const Empty := State(0.0, map[], map[], map[])

  function Run(s: State, events: seq<Event>): State {
    if events == [] then s else Apply(Run(s, events[..|events| - 1]), events[|events| - 1])
  }

  /** The call of this claim may still be talking to the mail server. */
  predicate InFlight(s: State, c: Claim) {
    c in s.phases && s.phases[c].Calling? && s.now < s.phases[c].end
  }

  /** The call fits the lease: 30 seconds of it are left, or the deadline does not exceed it. */
  predicate CallFits(s: State, c: Claim)
    requires c in s.phases && s.phases[c].Ready?
  {
    s.now + CALL_TIMEOUT <= c.until as real || s.phases[c].deadline <= c.until as real
  }
}
