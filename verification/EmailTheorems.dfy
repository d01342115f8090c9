/** SMTP calls of one row do not overlap, except where a call outlives its lease. */
module EmailTheorems {
  import opened Wrappers
  import opened Email

  // ---- Invariant ----

  /** A claim that may still lead to a call under its own lease. */
  predicate Alive(s: State, c: Claim) {
    c in s.phases && s.phases[c] != Done && s.now < c.until as real
  }

  /** Claims of a row are told apart by their tokens, and an earlier one is dead once there is a later one. */
  ghost predicate ClaimsOk(s: State) {
    && (forall c :: c in s.phases ==> c.id in s.rows && c.token <= s.rows[c.id].token)
    && (forall c, d :: c in s.phases && d in s.phases && c.id == d.id && c.token == d.token ==> c == d)
    && (forall c, d :: c in s.phases && d in s.phases && c.id == d.id && c.token < d.token ==> !Alive(s, c))
  }

  ghost predicate RowsOk(s: State)
    requires ClaimsOk(s)
  {
    && (forall id :: id in s.rows && s.rows[id].state == Claimed ==>
          s.rows[id].claimedUntil.Some? && s.rows[id].nextAttemptAt <= s.rows[id].claimedUntil.value)
    && (forall c :: Alive(s, c) ==> s.rows[c.id].state != Pending)
    && (forall c :: Alive(s, c) && s.rows[c.id].state == Claimed ==> s.rows[c.id].token == c.token)
    && (forall c :: c in s.phases && s.rows[c.id].state == Claimed && s.rows[c.id].token == c.token ==>
          s.rows[c.id].claimedUntil == Some(c.until))
  }

  ghost predicate Inv(s: State) {
    ClaimsOk(s) && RowsOk(s)
  }

  // ---- Each step ----

  /** A step without a new claim keeps the claims in order as long as none comes back to life. */
  lemma ClaimsKept(s: State, t: State)
    requires ClaimsOk(s) && t.phases.Keys == s.phases.Keys
    requires forall id :: id in s.rows ==> id in t.rows && t.rows[id].token >= s.rows[id].token
    requires forall c :: Alive(t, c) ==> Alive(s, c)
    ensures ClaimsOk(t)
  {
  }

  lemma NewClaimKeepsClaims(s: State, d: Claim, row: Row)
    requires ClaimsOk(s) && d.id in s.rows && d.token == s.rows[d.id].token + 1 && row.token == d.token
    requires forall c :: Alive(s, c) ==> c.id != d.id
    ensures ClaimsOk(s.(rows := s.rows[d.id := row], phases := s.phases[d := Waiting]))
  {
    var t := s.(rows := s.rows[d.id := row], phases := s.phases[d := Waiting]);
    forall c | c in t.phases ensures c == d || (c in s.phases && (Alive(t, c) ==> Alive(s, c))) {
    }
  }

  lemma NewClaimKeepsRows(s: State, d: Claim, row: Row)
    requires Inv(s) && d.id in s.rows && d.token == s.rows[d.id].token + 1 && row.token == d.token
    requires forall c :: Alive(s, c) ==> c.id != d.id
    requires row.state == Claimed && row.claimedUntil == Some(d.until) && row.nextAttemptAt <= d.until
    requires ClaimsOk(s.(rows := s.rows[d.id := row], phases := s.phases[d := Waiting]))
    ensures RowsOk(s.(rows := s.rows[d.id := row], phases := s.phases[d := Waiting]))
  {
    NewClaimElsewhere(s, d, row);
  }

  /** The other claims and rows are as before; claims of this row are dead and carry smaller tokens. */
  lemma NewClaimElsewhere(s: State, d: Claim, row: Row)
    requires ClaimsOk(s) && d.id in s.rows && d.token == s.rows[d.id].token + 1 && row.token == d.token
    requires forall c :: Alive(s, c) ==> c.id != d.id
    ensures
      var t := s.(rows := s.rows[d.id := row], phases := s.phases[d := Waiting]);
      forall c :: c in t.phases && c != d ==>
        && c in s.phases && c.id in s.rows && (Alive(t, c) ==> Alive(s, c))
        && (c.id != d.id ==> t.rows[c.id] == s.rows[c.id])
        && (c.id == d.id ==> c.token < row.token && !Alive(t, c))
  {
  }

  lemma ClaimKeeps(s: State, id: RowId, worker: nat, n: int, maxAttempts: nat)
    requires Inv(s)
    ensures Inv(ClaimRow(s, id, worker, n, maxAttempts))
  {
    if n <= DbNow(s) && Due(s, id, n, maxAttempts) {
      var d := Claim(id, s.rows[id].token + 1, worker, n + CLAIM_LEASE, s.rows[id].attempts);
      var row := s.rows[id].(state := Claimed, token := d.token, claimedBy := Some(worker), claimedUntil := Some(d.until));
      NewClaimKeepsClaims(s, d, row);
      NewClaimKeepsRows(s, d, row);
    }
  }

  /** A worker gives up or settles its live claim: the claim is over, and it was the only one alive. */
  lemma SettleKeeps(s: State, c: Claim, row: Row)
    requires Inv(s) && c in s.phases && s.phases[c] != Done && Live(s, c)
    requires row.state != Claimed && row.token == s.rows[c.id].token
    ensures Inv(s.(rows := s.rows[c.id := row], phases := s.phases[c := Done]))
  {
    var t := s.(rows := s.rows[c.id := row], phases := s.phases[c := Done]);
    ClaimsKept(s, t);
    forall d | Alive(t, d) ensures Alive(s, d) && d.id != c.id {
      assert d.id == c.id ==> d.token == c.token;
    }
    assert RowsOk(t);
  }

  lemma PhaseKeeps(s: State, c: Claim, p: Phase)
    requires Inv(s) && c in s.phases && s.phases[c] != Done
    ensures Inv(s.(phases := s.phases[c := p]))
  {
    var t := s.(phases := s.phases[c := p]);
    forall d | Alive(t, d) ensures Alive(s, d) {
    }
    ClaimsKept(s, t);
  }

  lemma PrepareKeeps(s: State, c: Claim, t0: real, plan: Plan)
    requires Inv(s)
    ensures Inv(Prepare(s, c, t0, plan))
  {
    if c in s.phases && s.phases[c] == Waiting && t0 <= s.now {
      if Live(s, c) && !plan.Send? {
        SettleKeeps(s, c, Prepare(s, c, t0, plan).rows[c.id]);
      } else {
        PhaseKeeps(s, c, Prepare(s, c, t0, plan).phases[c]);
      }
    }
  }

  lemma FinishKeeps(s: State, c: Claim, sent: bool, maxAttempts: nat, retryAt: int)
    requires Inv(s)
    ensures Inv(Finish(s, c, sent, maxAttempts, retryAt))
  {
    if c in s.phases && s.phases[c].Calling? {
      if Live(s, c) {
        SettleKeeps(s, c, Finish(s, c, sent, maxAttempts, retryAt).rows[c.id]);
      } else {
        PhaseKeeps(s, c, Done);
      }
    }
  }

  lemma RecoveredAliveRows(s: State, n: int, c: Claim)
    requires Inv(s) && Alive(Recover(s, n), c)
    ensures Alive(s, c) && Recover(s, n).rows[c.id] == s.rows[c.id]
  {
  }

  lemma RecoverKeeps(s: State, n: int)
    requires Inv(s)
    ensures Inv(Recover(s, n))
  {
    var t := Recover(s, n);
    forall c | Alive(t, c) ensures Alive(s, c) && t.rows[c.id] == s.rows[c.id] {
      RecoveredAliveRows(s, n, c);
    }
    ClaimsKept(s, t);
    assert RowsOk(t);
  }

  lemma RowsRewritten(s: State, rows: map<RowId, Row>)
    requires Inv(s) && rows.Keys == s.rows.Keys
    requires forall id :: id in rows && rows[id] != s.rows[id] ==>
      rows[id].state !in {Pending, Claimed} && rows[id].token >= s.rows[id].token
    ensures Inv(s.(rows := rows))
  {
    var t := s.(rows := rows);
    forall d | Alive(t, d) ensures Alive(s, d) {
    }
  }

  lemma AdvanceKeeps(s: State, to: real)
    requires Inv(s)
    ensures Inv(Advance(s, to))
  {
    forall c | Alive(Advance(s, to), c) ensures Alive(s, c) {
    }
  }

  lemma EnqueueKeeps(s: State, id: RowId, order: Option<OrderId>, customer: bool, at: int)
    requires Inv(s)
    ensures Inv(Enqueue(s, id, order, customer, at))
  {
    forall c | Alive(Enqueue(s, id, order, customer, at), c) ensures Alive(s, c) {
    }
  }

  lemma MoveOrderKeeps(s: State, order: OrderId, since: Option<int>)
    requires Inv(s)
    ensures Inv(MoveOrder(s, order, since))
  {
    forall c | Alive(MoveOrder(s, order, since), c) ensures Alive(s, c) {
    }
  }

  lemma {:induction false} StepKeeps(s: State, e: Event)
    requires Inv(s)
    ensures Inv(Apply(s, e))
  {
    match e
    case DoAdvance(to) => AdvanceKeeps(s, to);
    case DoEnqueue(id, order, customer, at) => EnqueueKeeps(s, id, order, customer, at);
    case DoClaim(id, worker, n, maxAttempts) => ClaimKeeps(s, id, worker, n, maxAttempts);
    case DoPrepare(c, t0, plan) => PrepareKeeps(s, c, t0, plan);
    case DoStart(c) => if StartCall(s, c) != s { PhaseKeeps(s, c, StartCall(s, c).phases[c]); }
    case DoFinish(c, sent, maxAttempts, retryAt) => FinishKeeps(s, c, sent, maxAttempts, retryAt);
    case DoRecover(n) => RecoverKeeps(s, n);
    case DoOptOut(order) => RowsRewritten(s, OptOut(s, order).rows);
    case DoRetain(n) => RowsRewritten(s, Retain(s, n).rows);
    case DoMoveOrder(order, since) => MoveOrderKeeps(s, order, since);
  }

  lemma {:induction false} RunKeeps(events: seq<Event>)
    ensures Inv(Run(Empty, events))
  {
    if events != [] {
      RunKeeps(events[..|events| - 1]);
      StepKeeps(Run(Empty, events[..|events| - 1]), events[|events| - 1]);
    }
  }

  // ---- Deadlines ----

  /** The deadline stays inside the lease exactly when the monotonic reading is not ahead of the whole second. */
  lemma DeadlineWithinLeaseExactly(now: real, t0: real, until: int)
    requires t0 <= now
    ensures Deadline(t0, until, now.Floor) <= until as real <==> t0 <= now.Floor as real
    ensures Deadline(t0, until, now.Floor) < until as real + 1.0
  {
  }

  /** A call that starts ends by its lease exactly when it fits: 30 seconds are left or the deadline is inside. */
  lemma CallEndsByLeaseExactly(s: State, c: Claim)
    requires c in s.phases && s.phases[c].Ready? && s.now < s.phases[c].deadline
    ensures StartCall(s, c).phases[c].Calling?
    ensures StartCall(s, c).phases[c].end <= c.until as real <==> CallFits(s, c)
  {
  }

  predicate PhaseEndsBefore(p: Phase, limit: real) {
    (p.Ready? ==> p.deadline < limit) && (p.Calling? ==> p.end < limit)
  }

  /** Every deadline and every call ends less than a second after the lease. */
  predicate NearLease(s: State) {
    forall c :: c in s.phases ==> PhaseEndsBefore(s.phases[c], c.until as real + 1.0)
  }

  /** Where a phase comes from. */
  predicate Originates(s: State, e: Event, c: Claim, p: Phase) {
    && (p.Ready? ==>
          || (c in s.phases && s.phases[c] == p)
          || (e.DoPrepare? && e.t0 <= s.now && p.deadline == Deadline(e.t0, c.until, DbNow(s))))
    && (p.Calling? ==>
          c in s.phases && (s.phases[c] == p || (e == DoStart(c) && s.phases[c].Ready? && p.end <= s.phases[c].deadline)))
  }

  lemma PreparedPhase(s: State, c: Claim, t0: real, plan: Plan, x: Claim)
    requires Inv(s) && x in Prepare(s, c, t0, plan).phases
    ensures Originates(s, DoPrepare(c, t0, plan), x, Prepare(s, c, t0, plan).phases[x])
  {
  }

  lemma StartedPhase(s: State, c: Claim, x: Claim)
    requires x in StartCall(s, c).phases
    ensures Originates(s, DoStart(c), x, StartCall(s, c).phases[x])
  {
  }

  lemma PhaseOrigin(s: State, e: Event, c: Claim)
    requires Inv(s) && c in Apply(s, e).phases
    ensures Originates(s, e, c, Apply(s, e).phases[c])
  {
    match e
    case DoPrepare(d, t0, plan) => PreparedPhase(s, d, t0, plan, c);
    case DoStart(d) => StartedPhase(s, d, c);
    case _ =>
  }

  lemma StepNearLease(s: State, e: Event)
    requires Inv(s) && NearLease(s)
    ensures NearLease(Apply(s, e))
  {
    forall c | c in Apply(s, e).phases ensures PhaseEndsBefore(Apply(s, e).phases[c], c.until as real + 1.0) {
      PhaseOrigin(s, e, c);
      assert c in s.phases ==> PhaseEndsBefore(s.phases[c], c.until as real + 1.0);
      if e.DoPrepare? && e.t0 <= s.now {
        DeadlineWithinLeaseExactly(s.now, e.t0, c.until);
      }
    }
  }

  lemma {:induction false} RunNearLease(events: seq<Event>)
    ensures NearLease(Run(Empty, events))
  {
    if events != [] {
      RunNearLease(events[..|events| - 1]);
      RunKeeps(events[..|events| - 1]);
      StepNearLease(Run(Empty, events[..|events| - 1]), events[|events| - 1]);
    }
  }

  // ---- Overlap ----

  /**
   * In every run, of two calls of a row in flight at once the earlier claim's call ends after its lease; the lease has
   * ended already, less than a second ago.
   */
  lemma {:induction false} OverlapNeedsLateCall(events: seq<Event>, c: Claim, d: Claim)
    requires c.id == d.id && c.token <= d.token && c != d
    requires InFlight(Run(Empty, events), c) && InFlight(Run(Empty, events), d)
    ensures
      var s := Run(Empty, events);
      s.phases[c].end > c.until as real && c.until as real <= s.now < c.until as real + 1.0
  {
    RunKeeps(events);
    RunNearLease(events);
    var s := Run(Empty, events);
    assert !Alive(s, c);
    assert PhaseEndsBefore(s.phases[c], c.until as real + 1.0);
  }

  /** Every call of this row that starts fits its lease. */
  ghost predicate CallsFit(events: seq<Event>, id: RowId) {
    forall k :: 0 <= k < |events| ==> StartFits(Run(Empty, events[..k]), events[k], id)
  }

  predicate StartFits(s: State, e: Event, id: RowId) {
    e.DoStart? && e.claim.id == id && e.claim in s.phases && s.phases[e.claim].Ready? ==>
      s.now >= s.phases[e.claim].deadline || CallFits(s, e.claim)
  }

  lemma {:induction false} FittingCallsEndByLease(events: seq<Event>, c: Claim)
    requires CallsFit(events, c.id)
    requires c in Run(Empty, events).phases && Run(Empty, events).phases[c].Calling?
    ensures Run(Empty, events).phases[c].end <= c.until as real
  {
    if events != [] {
      var front, e := events[..|events| - 1], events[|events| - 1];
      var s := Run(Empty, front);
      forall k | 0 <= k < |front| ensures StartFits(Run(Empty, front[..k]), front[k], c.id) {
        assert front[..k] == events[..k];
      }
      assert StartFits(Run(Empty, events[..|front|]), events[|front|], c.id);
      RunKeeps(front);
      PhaseOrigin(s, e, c);
      if s.phases[c].Calling? && s.phases[c] == Apply(s, e).phases[c] {
        FittingCallsEndByLease(front, c);
      } else {
        CallEndsByLeaseExactly(s, c);
      }
    }
  }

  /** At most one SMTP call of a row is in flight at any time, in every run in which the row's calls fit their leases. */
  lemma {:induction false} NoOverlap(events: seq<Event>, c: Claim, d: Claim)
    requires CallsFit(events, c.id)
    requires c.id == d.id && InFlight(Run(Empty, events), c) && InFlight(Run(Empty, events), d)
    ensures c == d
  {
    FittingCallsEndByLease(events, c);
    FittingCallsEndByLease(events, d);
    if c != d {
      OverlapNeedsLateCall(events, if c.token <= d.token then c else d, if c.token <= d.token then d else c);
    }
  }

  lemma RunSnoc(s: State, events: seq<Event>, e: Event)
    ensures Run(s, events + [e]) == Apply(Run(s, events), e)
  {
    assert (events + [e])[..|events|] == events;
  }

  lemma {:induction false} RunAppend(s: State, a: seq<Event>, b: seq<Event>)
    ensures Run(s, a + b) == Run(Run(s, a), b)
  {
    if b == [] {
      assert a + b == a;
    } else {
      RunAppend(s, a, b[..|b| - 1]);
      assert a + b == a + b[..|b| - 1] + [b[|b| - 1]];
      RunSnoc(s, a + b[..|b| - 1], b[|b| - 1]);
    }
  }

  /** Time passes to the end of the lease and stale recovery frees the row ... */
  function FreeAt(to: real): seq<Event> {
    [DoAdvance(to)] + [DoRecover(to.Floor)]
  }

  /** ... then another worker claims it, prepares and calls. */
  function CallAt(d: Claim, to: real, maxAttempts: nat): seq<Event> {
    [DoClaim(d.id, d.worker, to.Floor, maxAttempts)] + [DoPrepare(d, to, Send)] + [DoStart(d)]
  }

  lemma RecoveryFrees(s: State, c: Claim, to: real)
    requires Inv(s) && c in s.phases && s.rows[c.id].state == Claimed && s.rows[c.id].token == c.token
    requires to >= s.now && to >= c.until as real
    ensures
      var t := Run(s, FreeAt(to));
      && t.now == to && t.phases == s.phases && c.id in t.rows
      && t.rows[c.id] == s.rows[c.id].(state := Pending, claimedBy := None, claimedUntil := None)
      && t.rows[c.id].nextAttemptAt <= to.Floor
  {
    assert s.rows[c.id].claimedUntil == Some(c.until);
    FreeingRuns(s, to);
  }

  lemma FreeingRuns(s: State, to: real)
    ensures Run(s, FreeAt(to)) == Recover(Advance(s, to), to.Floor)
  {
    RunSnoc(s, [], DoAdvance(to));
    assert [] + [DoAdvance(to)] == [DoAdvance(to)];
    RunSnoc(s, [DoAdvance(to)], DoRecover(to.Floor));
  }

  lemma NextClaimCalls(t: State, d: Claim, maxAttempts: nat)
    requires d.id in t.rows && Due(t, d.id, DbNow(t), maxAttempts)
    requires d.token == t.rows[d.id].token + 1 && d.until == DbNow(t) + CLAIM_LEASE && d.attempts == t.rows[d.id].attempts
    ensures
      var v := Run(t, CallAt(d, t.now, maxAttempts));
      v.now == t.now && InFlight(v, d) && forall c :: c in t.phases && c != d ==> c in v.phases && v.phases[c] == t.phases[c]
  {
    var claim := DoClaim(d.id, d.worker, DbNow(t), maxAttempts);
    var prepare := DoPrepare(d, t.now, Send);
    RunSnoc(t, [], claim);
    assert [] + [claim] == [claim];
    RunSnoc(t, [claim], prepare);
    RunSnoc(t, [claim] + [prepare], DoStart(d));
    var u := ClaimRow(t, d.id, d.worker, DbNow(t), maxAttempts);
    assert Live(u, d) && u.phases == t.phases[d := Waiting];
    var p := Prepare(u, d, t.now, Send);
    assert p.phases == u.phases[d := Ready(t.now + CLAIM_LEASE as real)];
  }

  /** A call that outlives its lease on a row it still claims: the next claimant's call overlaps it. */
  lemma LateCallIsOverlapped(s: State, c: Claim, worker: nat, maxAttempts: nat) returns (events: seq<Event>, d: Claim)
    requires Inv(s) && InFlight(s, c) && s.phases[c].end > c.until as real
    requires s.rows[c.id].state == Claimed && s.rows[c.id].token == c.token && s.rows[c.id].attempts < maxAttempts
    ensures d != c && d.id == c.id && d.worker == worker
    ensures InFlight(Run(s, events), c) && InFlight(Run(s, events), d)
  {
    var to := if s.now < c.until as real then c.until as real else s.now;
    d := Claim(c.id, s.rows[c.id].token + 1, worker, to.Floor + CLAIM_LEASE, s.rows[c.id].attempts);
    events := FreeAt(to) + CallAt(d, to, maxAttempts);
    RunAppend(s, FreeAt(to), CallAt(d, to, maxAttempts));
    RecoveryFrees(s, c, to);
    NextClaimCalls(Run(s, FreeAt(to)), d, maxAttempts);
  }

  const FirstClaim := Claim(0, 1, 1, 120, 0)

  lemma ClaimOccurs() returns (events: seq<Event>)
    ensures Run(Empty, events) ==
      State(0.0, map[0 := Row(None, false, Claimed, 1, Some(1), Some(120), 0, 0)], map[FirstClaim := Waiting], map[])
  {
    RunSnoc(Empty, [], DoEnqueue(0, None, false, 0));
    assert [] + [DoEnqueue(0, None, false, 0)] == [DoEnqueue(0, None, false, 0)];
    RunSnoc(Empty, [DoEnqueue(0, None, false, 0)], DoClaim(0, 1, 0, 5));
    events := [DoEnqueue(0, None, false, 0)] + [DoClaim(0, 1, 0, 5)];
  }

  /** Such a call occurs: prepared 0.1 s before its lease ends, it is allowed to run 0.9 s past it. */
  lemma LateCallOccurs() returns (events: seq<Event>)
    ensures
      var s := Run(Empty, events);
      && Inv(s) && InFlight(s, FirstClaim) && s.phases[FirstClaim].end > FirstClaim.until as real
      && s.rows[0].state == Claimed && s.rows[0].token == FirstClaim.token && s.rows[0].attempts < 5
  {
    var e2 := ClaimOccurs();
    var e3 := e2 + [DoAdvance(119.9)];
    RunSnoc(Empty, e2, DoAdvance(119.9));
    RunSnoc(Empty, e3, DoPrepare(FirstClaim, 119.9, Send));
    assert 119.9.Floor == 119;
    var e4 := e3 + [DoPrepare(FirstClaim, 119.9, Send)];
    assert Run(Empty, e4).phases == map[FirstClaim := Ready(120.9)];
    RunSnoc(Empty, e4, DoStart(FirstClaim));
    events := e4 + [DoStart(FirstClaim)];
    RunKeeps(events);
  }

  // ---- Final states ----

  /**
   * `sent` and `suppressed` are absorbing; `failed` is left exactly when retention runs at a time when the row's order
   * has been terminal for 90 days, and then to `suppressed`.
   */
  lemma FinalStatesAreAbsorbing(s: State, e: Event, id: RowId)
    requires id in s.rows
    ensures id in Apply(s, e).rows && Apply(s, e).rows[id].order == s.rows[id].order
    ensures s.rows[id].state == Sent ==> Apply(s, e).rows[id].state == Sent
    ensures s.rows[id].state == Suppressed ==> Apply(s, e).rows[id].state == Suppressed
    ensures s.rows[id].state == Failed ==>
      (Apply(s, e).rows[id].state != Failed <==> e.DoRetain? && Erasable(s.terminal, s.rows[id].order, e.n))
      && Apply(s, e).rows[id].state in {Failed, Suppressed}
  {
  }

  /** While its order stays terminal since `since`, a failed row stays until the first retention 90 days after that. */
  lemma {:induction false} FailedStaysUntilRetention(s: State, events: seq<Event>, id: RowId, o: OrderId, since: int)
    requires id in s.rows && s.rows[id].state == Failed && s.rows[id].order == Some(o)
    requires o in s.terminal && s.terminal[o] == since
    requires forall i :: 0 <= i < |events| ==> !(events[i].DoMoveOrder? && events[i].order == o)
    ensures
      var t := Run(s, events);
      && id in t.rows && t.rows[id].order == Some(o) && o in t.terminal && t.terminal[o] == since
      && t.rows[id].state in {Failed, Suppressed}
      && (t.rows[id].state == Failed <==>
            forall i :: 0 <= i < |events| && events[i].DoRetain? ==> events[i].n < since + ORDER_RETENTION)
  {
    if events != [] {
      var front, e := events[..|events| - 1], events[|events| - 1];
      FailedStaysUntilRetention(s, front, id, o, since);
      FinalStatesAreAbsorbing(Run(s, front), e, id);
      assert events == front + [e];
    }
  }

  /** A row in a final state starts no further claim, in any continuation. */
  lemma {:induction false} FinalRowsAreNotClaimed(s: State, events: seq<Event>, id: RowId, worker: nat, n: int, maxAttempts: nat)
    requires id in s.rows && s.rows[id].state in {Sent, Failed, Suppressed}
    ensures id in Run(s, events).rows && Run(s, events).rows[id].state in {Sent, Failed, Suppressed}
    ensures ClaimRow(Run(s, events), id, worker, n, maxAttempts) == Run(s, events)
  {
    if events != [] {
      FinalRowsAreNotClaimed(s, events[..|events| - 1], id, worker, n, maxAttempts);
      FinalStatesAreAbsorbing(Run(s, events[..|events| - 1]), events[|events| - 1], id);
    }
  }
}
