/** When each step of the e-mail queue acts, and everything it then does, written on the fields of the rows. */
module EmailEffects {
  import opened Wrappers
  import opened Email

  /** The row is in the hands of this claim, and its lease outlasts the database clock. */
  ghost predicate Leased(s: State, c: Claim) {
    && c.id in s.rows && s.rows[c.id].state == Claimed && s.rows[c.id].claimedBy == Some(c.worker)
    && s.rows[c.id].token == c.token && exists until :: s.rows[c.id].claimedUntil == Some(until) && s.now.Floor < until
  }

  predicate SameElsewhere(s: State, t: State) {
    t.now == s.now && t.terminal == s.terminal
  }

  lemma EnqueueExactly(s: State, id: RowId, order: Option<OrderId>, customer: bool, at: int)
    ensures
      Enqueue(s, id, order, customer, at) ==
      if id in s.rows then s else s.(rows := s.rows[id := Row(order, customer, Pending, 0, None, None, 0, at)])
  {
  }

  /** A row is claimed exactly when it is pending, due and has attempts left; the claim lasts 120 seconds. */
  lemma ClaimExactly(s: State, id: RowId, worker: nat, n: int, maxAttempts: nat)
    ensures
      var t := ClaimRow(s, id, worker, n, maxAttempts);
      if && id in s.rows && s.rows[id].state == Pending && s.rows[id].nextAttemptAt <= n && s.rows[id].attempts < maxAttempts
         && n <= s.now.Floor
      then
        var r := s.rows[id];
        && SameElsewhere(s, t)
        && t.rows == s.rows[id := Row(r.order, r.customer, Claimed, r.token + 1, Some(worker), Some(n + 120), r.attempts, r.nextAttemptAt)]
        && t.phases == s.phases[Claim(id, r.token + 1, worker, n + 120, r.attempts) := Waiting]
      else t == s
  {
  }

  /** Only the holder of an unexpired claim suppresses, defers or prepares its row; anybody else gives up. */
  lemma PrepareExactly(s: State, c: Claim, t0: real, plan: Plan)
    requires c in s.phases && s.phases[c] == Waiting && t0 <= s.now
    ensures
      var t := Prepare(s, c, t0, plan);
      && SameElsewhere(s, t)
      && (!Leased(s, c) ==> t.rows == s.rows && t.phases == s.phases[c := Done])
      && (Leased(s, c) ==>
            var r := s.rows[c.id];
            && (plan == Suppress ==> t.rows == s.rows[c.id := r.(state := Suppressed)] && t.phases == s.phases[c := Done])
            && (plan.Defer? ==>
                  && t.rows == s.rows[c.id := Row(r.order, r.customer, Pending, r.token, None, None, r.attempts, plan.nextAttemptAt)]
                  && t.phases == s.phases[c := Done])
            && (plan == Send ==>
                  && t.rows == s.rows && t.phases.Keys == s.phases.Keys
                  && (forall d :: d in s.phases && d != c ==> t.phases[d] == s.phases[d])
                  && t.phases[c].Ready?
                  && t.phases[c].deadline - t0 == (r.claimedUntil.value - s.now.Floor) as real))
  {
  }

  /** A call starts exactly while its deadline lies ahead, and is cut off there or after 30 seconds. */
  lemma StartExactly(s: State, c: Claim)
    requires c in s.phases && s.phases[c].Ready?
    ensures
      var t := StartCall(s, c);
      && SameElsewhere(s, t) && t.rows == s.rows && t.phases == s.phases[c := t.phases[c]]
      && (s.now >= s.phases[c].deadline ==> t.phases[c] == Done)
      && (s.now < s.phases[c].deadline ==>
            && t.phases[c].Calling? && t.phases[c].end <= s.phases[c].deadline && t.phases[c].end <= s.now + 30.0
            && t.phases[c].end in {s.phases[c].deadline, s.now + 30.0})
  {
  }

  /** Only the holder of an unexpired claim settles its row; a failure is retried until the attempts are used up. */
  lemma FinishExactly(s: State, c: Claim, sent: bool, maxAttempts: nat, retryAt: int)
    requires c in s.phases && s.phases[c].Calling?
    ensures
      var t := Finish(s, c, sent, maxAttempts, retryAt);
      && SameElsewhere(s, t) && t.phases == s.phases[c := Done]
      && (!Leased(s, c) ==> t.rows == s.rows)
      && (Leased(s, c) ==>
            var r := s.rows[c.id];
            t.rows == s.rows[c.id :=
              if sent then r.(state := Sent)
              else if c.attempts + 1 < maxAttempts
              then Row(r.order, r.customer, Pending, r.token, None, None, c.attempts + 1, retryAt)
              else r.(state := Failed, attempts := c.attempts + 1)])
  {
  }

  /** A worker acts only on a claim at the stage it left it, and with a clock that has been read before. */
  lemma OutOfTurnStepsDoNothing(s: State, c: Claim, t0: real, plan: Plan, sent: bool, maxAttempts: nat, retryAt: int)
    ensures c !in s.phases || s.phases[c] != Waiting || t0 > s.now ==> Prepare(s, c, t0, plan) == s
    ensures c !in s.phases || !s.phases[c].Ready? ==> StartCall(s, c) == s
    ensures c !in s.phases || !s.phases[c].Calling? ==> Finish(s, c, sent, maxAttempts, retryAt) == s
  {
  }

  /** Exactly the claimed rows whose lease has ended go back to pending, and keep their token and attempts. */
  lemma RecoverExactly(s: State, n: int, id: RowId)
    requires id in s.rows
    ensures
      var t, r := Recover(s, n), s.rows[id];
      && SameElsewhere(s, t) && t.phases == s.phases && t.rows.Keys == s.rows.Keys
      && t.rows[id] ==
           if n <= s.now.Floor && r.state == Claimed && exists until :: r.claimedUntil == Some(until) && until <= n
           then Row(r.order, r.customer, Pending, r.token, None, None, r.attempts, r.nextAttemptAt) else r
  {
  }

  /** An opt-out suppresses the order's waiting customer rows; the merchant's rows and other orders' rows stay. */
  lemma OptOutExactly(s: State, order: OrderId, id: RowId)
    requires id in s.rows
    ensures
      var t, r := OptOut(s, order), s.rows[id];
      && SameElsewhere(s, t) && t.phases == s.phases && t.rows.Keys == s.rows.Keys
      && (r.order == Some(order) && r.customer && r.state in {Pending, Claimed} ==> t.rows[id] == r.(state := Suppressed))
      && (r.order != Some(order) || !r.customer || r.state in {Sent, Failed, Suppressed} ==> t.rows[id] == r)
  {
  }

  /** Retention ends the rows of orders terminal for 90 days: sent stays sent, all else is suppressed, no claim survives. */
  lemma RetainExactly(s: State, n: int, id: RowId)
    requires id in s.rows
    ensures
      var t, r := Retain(s, n), s.rows[id];
      && SameElsewhere(s, t) && t.phases == s.phases && t.rows.Keys == s.rows.Keys
      && t.rows[id] ==
           if exists o :: r.order == Some(o) && o in s.terminal && n - s.terminal[o] >= 90 * 24 * 3600
           then Row(r.order, r.customer, if r.state == Sent then Sent else Suppressed, r.token + 1, None, None, r.attempts,
                    r.nextAttemptAt)
           else r
  {
  }

  lemma ClockAndOrders(s: State, to: real, order: OrderId, since: Option<int>)
    ensures Advance(s, to).(now := s.now) == s && Advance(s, to).now == if to > s.now then to else s.now
    ensures MoveOrder(s, order, since).(terminal := s.terminal) == s
    ensures forall o :: o != order ==>
      && (o in MoveOrder(s, order, since).terminal <==> o in s.terminal)
      && (o in s.terminal ==> MoveOrder(s, order, since).terminal[o] == s.terminal[o])
    ensures order in MoveOrder(s, order, since).terminal <==> since.Some?
    ensures since.Some? ==> MoveOrder(s, order, since).terminal[order] == since.value
  {
  }
}
