/** When each outbox operation acts, and everything it then does, written on the fields of the rows. */
module OutboxEffects {
  import opened Wrappers
  import opened Outbox

  // ---- Evidence and delays ----

  /** Evidence is what relays accepted for this very row; a message needs it for both of its copies. */
  lemma QuorumExactly(s: State, id: IntentId, t: Target)
    ensures t in Accepted(s.publications, id) <==> Publication(id, t, true) in s.publications
    ensures
      Quorum(Public, Accepted(s.publications, id)) <==> exists p :: p in s.publications && p.id == id && p.accepted
    ensures
      Quorum(OrderMsg, Accepted(s.publications, id)) <==>
      && (exists p :: p in s.publications && p.id == id && p.accepted && p.target.copy == Recipient)
      && (exists p :: p in s.publications && p.id == id && p.accepted && p.target.copy == Sender)
  {
    forall p | p in s.publications && p.id == id && p.accepted ensures p.target in Accepted(s.publications, id) {
    }
    forall x | x in Accepted(s.publications, id) ensures Publication(id, x, true) in s.publications {
    }
  }

  /** Five seconds, doubled with each attempt, up to half an hour. */
  lemma BackoffDoubles(attempts: nat)
    ensures Backoff(0) == 5
    ensures Backoff(attempts + 1) == if Backoff(attempts) < 900 then 2 * Backoff(attempts) else 1800
  {
  }

  /** The targets to send are the unaccepted ones, each as often as declared and in the declared order. */
  lemma {:induction false} MissingAppend(a: seq<Target>, t: Target, accepted: set<Target>)
    ensures Missing([], accepted) == []
    ensures Missing(a + [t], accepted) == Missing(a, accepted) + if t in accepted then [] else [t]
  {
    if a != [] {
      assert (a + [t])[1..] == a[1..] + [t];
      MissingAppend(a[1..], t, accepted);
    }
  }

  // ---- Enqueue ----

  predicate EdgesKnown(rows: map<IntentId, Row>, id: IntentId, on: seq<IntentId>) {
    forall k :: 0 <= k < |on| ==> on[k] in rows || on[k] == id
  }

  /** A new intent is stored once, unclaimed, with its edges; a known id or an unknown dependency changes nothing. */
  lemma EnqueueExactly(s: State, id: IntentId, row: Row, on: seq<IntentId>)
    ensures id in s.rows || !EdgesKnown(s.rows, id, on) ==> Enqueue(s, id, row, on) == s
    ensures id !in s.rows && EdgesKnown(s.rows, id, on) ==>
      && Enqueue(s, id, row, on) != s
      && Enqueue(s, id, row, on) == s.(
           rows := s.rows[id := Row(row.aggregate, row.subject, row.kind, row.revision, row.targets,
                                    Pending, 0, 0, None, 0, row.outerIds, |s.rows|)],
           deps := s.deps + (set d | d in on :: (id, d)))
  {
  }

  // ---- Claims and leased writes ----

  /** A row is claimed exactly when it waits, its time has come, it has attempts left and what it depends on is published. */
  lemma ClaimExactly(s: State, id: IntentId, worker: nat, now: int, lease: int)
    ensures
      var t := Apply(s, DoClaim(id, worker, now, lease));
      if && id in s.rows && s.rows[id].state in {Pending, PartiallyPublished}
         && s.rows[id].nextAttemptAt <= now && s.rows[id].attempts < 20
         && (forall d: IntentId :: (id, d) in s.deps && d in s.rows ==> s.rows[d].state == Published)
      then
        var r := s.rows[id];
        && t.rows == s.rows[id := r.(state := Claimed, claimedUntil := Some(now + lease), token := r.token + 1)]
        && t.claims == s.claims + {Claim(id, r.token + 1, r.attempts, worker)}
        && t.deps == s.deps && t.publications == s.publications && t.scanned == s.scanned
      else t == s
  {
    if id in s.rows && (forall d: IntentId :: (id, d) in s.deps && d in s.rows ==> s.rows[d].state == Published) {
      forall e | e in s.deps && e.0 == id && e.1 in s.rows ensures s.rows[e.1].state == Published {
        assert (id, e.1) in s.deps;
      }
    }
  }

  /** Both leased writes of a claim that was given out land exactly under the row's current token and before the end of its lease. */
  lemma LeasedWritesExactly(s: State, c: Claim, outerIds: seq<nat>, jitter: nat, now: int)
    ensures
      var holds := c in s.claims && c.id in s.rows && s.rows[c.id].token == c.token
                   && exists until :: s.rows[c.id].claimedUntil == Some(until) && now < until;
      && Apply(s, DoPublish(c, outerIds, now)) ==
           (if holds then s.(rows := s.rows[c.id := s.rows[c.id].(outerIds := outerIds, state := Publishing)]) else s)
      && Apply(s, DoOutcome(c, jitter, now)) == (if holds then ApplyOutcome(s, c, jitter, now) else s)
      && (holds ==> Passes(s, c, now) && ApplyOutcome(s, c, jitter, now) != s)
  {
  }

  /** The evidence decides; without quorum the twentieth attempt is the last, and each one waits longer. */
  lemma OutcomeExactly(s: State, c: Claim, jitter: nat, now: int)
    requires Passes(s, c, now)
    ensures
      var t, accepted := ApplyOutcome(s, c, jitter, now), Accepted(s.publications, c.id);
      var before, after := s.rows[c.id], t.rows[c.id];
      var quorum := Quorum(before.aggregate, accepted);
      && t == s.(rows := s.rows[c.id := after])
      && after == before.(state := after.state, nextAttemptAt := after.nextAttemptAt, attempts := c.attempts + 1, claimedUntil := None)
      && (after.state == Published <==> quorum)
      && (after.state == Failed <==> !quorum && c.attempts + 1 >= 20)
      && (after.state == PartiallyPublished <==> !quorum && c.attempts + 1 < 20 && accepted != {})
      && (after.state == Pending <==> !quorum && c.attempts + 1 < 20 && accepted == {})
      && after.nextAttemptAt == if quorum then now else now + Backoff(c.attempts + 1) + jitter
  {
  }

  /** Recovery needs the token it read and an expired lease; it then takes the token away and waits no longer. */
  lemma RequeueExactly(s: State, id: IntentId, token: nat, sawAccepted: bool, now: int)
    ensures
      Requeue(s, id, token, sawAccepted, now) ==
      if id in s.rows && s.rows[id].token == token && exists until :: s.rows[id].claimedUntil == Some(until) && until <= now
      then
        s.(rows := s.rows[id := s.rows[id].(
             state := if sawAccepted then PartiallyPublished else Pending, claimedUntil := None, token := token + 1,
             nextAttemptAt := now)])
      else s
  {
  }

  lemma RecordExactly(s: State, p: Publication)
    ensures Record(s, p) == if p.id in s.rows then s.(publications := s.publications + [p]) else s
  {
  }

  // ---- Superseding ----

  /** Some other row publishes a later revision of the same thing. */
  predicate Outdated(rows: map<IntentId, Row>, id: IntentId)
    requires id in rows
  {
    exists x :: x in rows && x != id && rows[x].aggregate == rows[id].aggregate && rows[x].subject == rows[id].subject
                && rows[x].kind == rows[id].kind && rows[x].revision > rows[id].revision
  }

  lemma OutdatedExactly(rows: map<IntentId, Row>, id: IntentId)
    requires id in rows
    ensures HasNewer(rows, id) <==> Outdated(rows, id)
  {
    if HasNewer(rows, id) {
      var x :| x in rows && x != id && Newer(rows[x], rows[id]);
      assert rows[x].revision > rows[id].revision;
    }
    if Outdated(rows, id) {
      var x :| x in rows && x != id && rows[x].aggregate == rows[id].aggregate && rows[x].subject == rows[id].subject
               && rows[x].kind == rows[id].kind && rows[x].revision > rows[id].revision;
      assert Newer(rows[x], rows[id]);
    }
  }

  const Unsettled: set<RowState> := {Pending, Claimed, Publishing, PartiallyPublished, Failed}

  predicate Obsolete(rows: map<IntentId, Row>, id: IntentId)
    requires id in rows
  {
    rows[id].aggregate == Public && rows[id].state in Unsettled && Outdated(rows, id)
  }

  lemma ObsoleteExactly(rows: map<IntentId, Row>)
    ensures forall id :: id in rows ==> (Obsolete(rows, id) <==> Supersedable(rows[id]) && HasNewer(rows, id))
  {
    forall id | id in rows ensures HasNewer(rows, id) <==> Outdated(rows, id) {
      OutdatedExactly(rows, id);
    }
  }

  /** An uninterrupted pass supersedes a row exactly when it is public, not settled, and outdated by another row. */
  lemma PassSupersedesExactly(s: State, pass: nat, id: IntentId)
    requires id in s.rows && (pass, id) !in s.scanned
    ensures
      Apply(Apply(s, DoScan(pass, id)), DoSupersede(pass, id)).rows ==
      if Obsolete(s.rows, id) then s.rows[id := s.rows[id].(state := Superseded)] else s.rows
  {
    ObsoleteExactly(s.rows);
  }

  /** Interrupted, the update still needs the pass's own reading and a row that is outdated by now. */
  lemma SupersedeExactly(s: State, pass: nat, id: IntentId)
    ensures
      Scan(s, pass, id) ==
      if id in s.rows && s.rows[id].aggregate == Public && s.rows[id].state in Unsettled
      then s.(scanned := s.scanned + {(pass, id)}) else s
    ensures
      Supersede(s, pass, id) ==
      if (pass, id) in s.scanned && id in s.rows && Outdated(s.rows, id)
      then s.(rows := s.rows[id := s.rows[id].(state := Superseded)], scanned := s.scanned - {(pass, id)}) else s
  {
    if id in s.rows {
      OutdatedExactly(s.rows, id);
    }
  }

  /** What a row publishes never changes. */
  predicate SameSubject(a: Row, b: Row) {
    a.aggregate == b.aggregate && a.subject == b.subject && a.kind == b.kind && a.revision == b.revision
  }

  lemma StepKeepsSubjects(s: State, e: Event, id: IntentId)
    requires id in s.rows
    ensures id in Apply(s, e).rows && SameSubject(s.rows[id], Apply(s, e).rows[id])
  {
  }

  lemma OutdatedStays(s: State, e: Event, id: IntentId)
    requires id in s.rows && Outdated(s.rows, id)
    ensures id in Apply(s, e).rows && Outdated(Apply(s, e).rows, id)
  {
    var x :| x in s.rows && x != id && s.rows[x].aggregate == s.rows[id].aggregate && s.rows[x].subject == s.rows[id].subject
             && s.rows[x].kind == s.rows[id].kind && s.rows[x].revision > s.rows[id].revision;
    StepKeepsSubjects(s, e, x);
    StepKeepsSubjects(s, e, id);
    assert Apply(s, e).rows[x].revision > Apply(s, e).rows[id].revision;
  }

  lemma OnlyOutdatedStep(s: State, e: Event, id: IntentId)
    requires id in Apply(s, e).rows && Apply(s, e).rows[id].state == Superseded
    ensures id in s.rows && (s.rows[id].state == Superseded || (e.DoSupersede? && Outdated(s.rows, id) && (e.pass, id) in s.scanned))
  {
    if e.DoSupersede? {
      SupersedeExactly(s, e.pass, e.id);
    }
  }

  /** In every run a superseded row is outdated: no row is superseded while nothing publishes a later revision of it. */
  lemma {:induction false} OnlyOutdatedRowsAreSuperseded(events: seq<Event>, id: IntentId)
    requires id in Run(Empty, events).rows && Run(Empty, events).rows[id].state == Superseded
    ensures Outdated(Run(Empty, events).rows, id)
  {
    if events != [] {
      var s, e := Run(Empty, events[..|events| - 1]), events[|events| - 1];
      OnlyOutdatedStep(s, e, id);
      if s.rows[id].state == Superseded {
        OnlyOutdatedRowsAreSuperseded(events[..|events| - 1], id);
      }
      OutdatedStays(s, e, id);
    }
  }
}
