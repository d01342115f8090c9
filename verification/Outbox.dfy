/** The durable outbox: claims, leases, evidence and outcomes (harness/queues.py, harness/tx.py). */
module Outbox {
  import opened Wrappers

  type IntentId = nat
  type Relay = nat

  const MAX_ATTEMPTS := 20

  datatype Aggregate = OrderMsg | Public

  datatype Copy = Recipient | Sender | Broadcast

  datatype RowState = Pending | Claimed | Publishing | PartiallyPublished | Published | Superseded | Failed

  datatype Target = Target(copy: Copy, relay: Relay)

  datatype Row = Row(
    aggregate: Aggregate, subject: nat, kind: nat, revision: int, targets: seq<Target>,
    state: RowState, attempts: nat, nextAttemptAt: int,
    claimedUntil: Option<int>, token: nat, outerIds: seq<nat>,
    born: nat)  // position in insertion order

  /** What a worker keeps of the row it claimed. */
  datatype Claim = Claim(id: IntentId, token: nat, attempts: nat, worker: nat)

  datatype Publication = Publication(id: IntentId, target: Target, accepted: bool)

  datatype State = State(
    rows: map<IntentId, Row>,
    deps: set<(IntentId, IntentId)>,
    publications: seq<Publication>,
    claims: set<Claim>,           // every claim ever handed to a worker
    scanned: set<(nat, IntentId)>) // (pass, row): read in a supersedable state by a pass still under way

  // ---- Evidence and outcome policy ----

  function Accepted(ps: seq<Publication>, id: IntentId): set<Target> {
    set p | p in ps && p.id == id && p.accepted :: p.target
  }

  /** At least one positive OK; an order message needs one recipient and one sender copy. */
  predicate Quorum(aggregate: Aggregate, accepted: set<Target>) {
    match aggregate
    case OrderMsg => (exists t :: t in accepted && t.copy == Recipient) && (exists t :: t in accepted && t.copy == Sender)
    case Public => accepted != {}
  }

  function Pow2(n: nat): (r: nat)
    ensures r >= 1
  {
    if n == 0 then 1 else 2 * Pow2(n - 1)
  }

  function Backoff(attempts: nat): nat {
    if Pow2(attempts) * 5 < 1800 then Pow2(attempts) * 5 else 1800
  }

  /** Targets without durable positive evidence. */
  function Missing(targets: seq<Target>, accepted: set<Target>): (r: seq<Target>)
    ensures forall t :: t in r <==> t in targets && t !in accepted
  {
    if targets == [] then []
    else if targets[0] in accepted then Missing(targets[1..], accepted)
    else [targets[0]] + Missing(targets[1..], accepted)
  }

  function Outcome(aggregate: Aggregate, accepted: set<Target>, attempts: nat): RowState {
    if Quorum(aggregate, accepted) then Published
    else if attempts >= MAX_ATTEMPTS then Failed
    else if accepted != {} then PartiallyPublished
    else Pending
  }

  // ---- The steps ----

  /** Insert once; edges are added only with the row, and only to rows that exist. */
  function Enqueue(s: State, id: IntentId, row: Row, on: seq<IntentId>): State {
    if id in s.rows || exists k :: 0 <= k < |on| && on[k] !in s.rows && on[k] != id then s
    else
      s.(rows := s.rows[id := row.(state := Pending, attempts := 0, nextAttemptAt := 0, claimedUntil := None,
                                   token := 0, born := |s.rows|)],
         deps := s.deps + (set d | d in on :: (id, d)))
  }

  predicate DepsPublished(s: State, id: IntentId) {
    forall d :: d in s.deps && d.0 == id && d.1 in s.rows ==> s.rows[d.1].state == Published
  }

  predicate Due(s: State, id: IntentId, now: int) {
    && id in s.rows
    && s.rows[id].state in {Pending, PartiallyPublished}
    && s.rows[id].nextAttemptAt <= now
    && s.rows[id].attempts < MAX_ATTEMPTS
    && DepsPublished(s, id)
  }

  function ClaimRow(s: State, id: IntentId, worker: nat, now: int, lease: int): State {
    if !Due(s, id, now) then s
    else
      var row := s.rows[id];
      s.(rows := s.rows[id := row.(state := Claimed, claimedUntil := Some(now + lease), token := row.token + 1)],
         claims := s.claims + {Claim(id, row.token + 1, row.attempts, worker)})
  }

  /** The compare-and-swap of every leased write: current token, live lease. */
  predicate Passes(s: State, c: Claim, now: int) {
    && c.id in s.rows
    && s.rows[c.id].token == c.token
    && s.rows[c.id].claimedUntil.Some?
    && s.rows[c.id].claimedUntil.value > now
  }

  function PublishAttempt(s: State, c: Claim, outerIds: seq<nat>, now: int): State {
    if !Passes(s, c, now) then s
    else s.(rows := s.rows[c.id := s.rows[c.id].(outerIds := outerIds, state := Publishing)])
  }

  /** Evidence is append-only and not fenced. */
  function Record(s: State, p: Publication): State {
    if p.id in s.rows then s.(publications := s.publications + [p]) else s
  }

  function ApplyOutcome(s: State, c: Claim, jitter: nat, now: int): State {
    if !Passes(s, c, now) then s
    else
      var row := s.rows[c.id];
      var state := Outcome(row.aggregate, Accepted(s.publications, c.id), c.attempts + 1);
      var delay := if state == Published then 0 else Backoff(c.attempts + 1) + jitter;
      s.(rows := s.rows[c.id := row.(state := state, attempts := c.attempts + 1,
                                     nextAttemptAt := now + delay, claimedUntil := None)])
  }

  /** Stale recovery: the old token and an expired lease; the evidence was read before. */
  function Requeue(s: State, id: IntentId, token: nat, sawAccepted: bool, now: int): State {
    if id in s.rows && s.rows[id].token == token && s.rows[id].claimedUntil.Some? && s.rows[id].claimedUntil.value <= now
    then s.(rows := s.rows[id := s.rows[id].(state := if sawAccepted then PartiallyPublished else Pending,
                                             claimedUntil := None, token := token + 1, nextAttemptAt := now)])
    else s
  }

  predicate Supersedable(row: Row) {
    row.state in {Pending, Claimed, Publishing, PartiallyPublished, Failed} && row.aggregate == Public
  }

  predicate Newer(a: Row, b: Row) {
    a.aggregate == b.aggregate && a.subject == b.subject && a.kind == b.kind && a.revision > b.revision
  }

  predicate HasNewer(rows: map<IntentId, Row>, id: IntentId)
    requires id in rows
  {
    exists x :: x in rows && x != id && Newer(rows[x], rows[id])
  }

  /** `supersede_obsolete` reads a row's state first, outside the transaction that updates it. */
  function Scan(s: State, pass: nat, id: IntentId): State {
    if id in s.rows && Supersedable(s.rows[id]) then s.(scanned := s.scanned + {(pass, id)}) else s
  }

  /** The update goes by id alone: it checks neither state nor token again. */
  function Supersede(s: State, pass: nat, id: IntentId): State {
    if (pass, id) in s.scanned && id in s.rows && HasNewer(s.rows, id)
    then s.(rows := s.rows[id := s.rows[id].(state := Superseded)], scanned := s.scanned - {(pass, id)})
    else s
  }

  datatype Event =
    | DoEnqueue(id: IntentId, row: Row, on: seq<IntentId>)
    | DoClaim(id: IntentId, worker: nat, now: int, lease: int)
    | DoPublish(claim: Claim, outerIds: seq<nat>, now: int)
    | DoRecord(publication: Publication)
    | DoOutcome(claim: Claim, jitter: nat, now: int)
    | DoRequeue(id: IntentId, token: nat, sawAccepted: bool, now: int)
    | DoScan(pass: nat, id: IntentId)
    | DoSupersede(pass: nat, id: IntentId)

  /** Workers write only with claims they were given. */
  function Apply(s: State, e: Event): State {
    match e
    case DoEnqueue(id, row, on) => Enqueue(s, id, row, on)
    case DoClaim(id, worker, now, lease) => ClaimRow(s, id, worker, now, lease)
    case DoPublish(c, outerIds, now) => if c in s.claims then PublishAttempt(s, c, outerIds, now) else s
    case DoRecord(p) => Record(s, p)
    case DoOutcome(c, jitter, now) => if c in s.claims then ApplyOutcome(s, c, jitter, now) else s
    case DoRequeue(id, token, sawAccepted, now) => Requeue(s, id, token, sawAccepted, now)
    case DoScan(pass, id) => Scan(s, pass, id)
    case DoSupersede(pass, id) => Supersede(s, pass, id)
  }

  const Empty := State(map[], {}, [], {}, {})

  function Run(s: State, events: seq<Event>): State {
    if events == [] then s else Apply(Run(s, events[..|events| - 1]), events[|events| - 1])
  }
}
