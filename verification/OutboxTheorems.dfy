/** What every run of the outbox keeps. */
module OutboxTheorems {
  import opened Wrappers
  import opened Outbox

  // ---- Invariant ----

  /** Each token of a row was handed out once, and never a larger one than the row has. */
  predicate ClaimsOk(s: State) {
    && (forall c :: c in s.claims ==> c.id in s.rows && c.token <= s.rows[c.id].token && c.attempts < MAX_ATTEMPTS)
    && (forall c, d :: c in s.claims && d in s.claims && c.id == d.id && c.token == d.token ==> c == d)
    && (forall c :: c in s.claims && s.rows[c.id].token == c.token && s.rows[c.id].claimedUntil.Some? ==>
          c.attempts == s.rows[c.id].attempts)
  }

  predicate RowOk(row: Row, accepted: set<Target>) {
    && row.attempts <= MAX_ATTEMPTS
    && (row.claimedUntil.Some? ==> row.state in {Claimed, Publishing, Superseded} && row.token > 0)
    && (row.state in {Claimed, Publishing} ==> row.claimedUntil.Some?)
    && (row.state == Published ==> Quorum(row.aggregate, accepted) && row.token > 0)
  }

  predicate RowsOk(s: State) {
    && (forall id :: id in s.rows ==> RowOk(s.rows[id], Accepted(s.publications, id)) && s.rows[id].born < |s.rows|)
    && (forall p :: p in s.scanned ==> p.1 in s.rows && s.rows[p.1].aggregate == Public)
  }

  /** Published, or superseded after it was published. */
  predicate WasPublished(row: Row, accepted: set<Target>) {
    && Quorum(row.aggregate, accepted)
    && (row.state == Published || (row.state == Superseded && row.claimedUntil.None?))
  }

  predicate DepsOk(s: State) {
    && (forall d :: d in s.deps ==> d.0 in s.rows && d.1 in s.rows && (d.0 != d.1 ==> s.rows[d.1].born < s.rows[d.0].born))
    && (forall d :: d in s.deps && s.rows[d.0].token > 0 ==>
          WasPublished(s.rows[d.1], Accepted(s.publications, d.1)) && d.0 != d.1)
  }

  predicate Inv(s: State) {
    ClaimsOk(s) && RowsOk(s) && DepsOk(s)
  }

  // ---- Each step ----

  lemma RecordKeeps(s: State, p: Publication)
    requires Inv(s)
    ensures Inv(Record(s, p))
  {
  }

  lemma EnqueueKeeps(s: State, id: IntentId, row: Row, on: seq<IntentId>)
    requires Inv(s)
    ensures Inv(Enqueue(s, id, row, on))
  {
  }

  lemma ClaimKeeps(s: State, id: IntentId, worker: nat, now: int, lease: int)
    requires Inv(s)
    ensures Inv(ClaimRow(s, id, worker, now, lease))
  {
    var t := ClaimRow(s, id, worker, now, lease);
    if Due(s, id, now) {
      assert |t.rows| == |s.rows|;
      forall d | d in t.deps && t.rows[d.0].token > 0
        ensures WasPublished(t.rows[d.1], Accepted(t.publications, d.1)) && d.0 != d.1
      {
        if d.0 == id {
          assert s.rows[d.1].state == Published;
          assert RowOk(s.rows[d.1], Accepted(s.publications, d.1));
        }
      }
    }
  }

  /** Replacing one row in a way that keeps what its dependents rely on. */
  lemma RowUpdateKeeps(s: State, id: IntentId, row: Row)
    requires Inv(s) && id in s.rows
    requires RowOk(row, Accepted(s.publications, id))
    requires row.born == s.rows[id].born && row.aggregate == s.rows[id].aggregate
    requires row.token >= s.rows[id].token && (row.token > 0 <==> s.rows[id].token > 0)
    requires row.token == s.rows[id].token && row.claimedUntil.Some? ==>
      s.rows[id].claimedUntil.Some? && row.attempts == s.rows[id].attempts
    requires row.token > s.rows[id].token ==> row.claimedUntil.None?
    requires WasPublished(s.rows[id], Accepted(s.publications, id)) ==> WasPublished(row, Accepted(s.publications, id))
    ensures Inv(s.(rows := s.rows[id := row]))
  {
    var t := s.(rows := s.rows[id := row]);
    assert |t.rows| == |s.rows|;
    RowUpdateKeepsClaims(s, id, row);
    assert RowsOk(t);
    RowUpdateKeepsDeps(s, id, row);
  }

  lemma RowUpdateKeepsClaims(s: State, id: IntentId, row: Row)
    requires ClaimsOk(s) && id in s.rows && row.token >= s.rows[id].token
    requires row.token == s.rows[id].token && row.claimedUntil.Some? ==>
      s.rows[id].claimedUntil.Some? && row.attempts == s.rows[id].attempts
    requires row.token > s.rows[id].token ==> row.claimedUntil.None?
    ensures ClaimsOk(s.(rows := s.rows[id := row]))
  {
  }

  lemma RowUpdateKeepsDeps(s: State, id: IntentId, row: Row)
    requires DepsOk(s) && id in s.rows
    requires row.born == s.rows[id].born && (row.token > 0 <==> s.rows[id].token > 0)
    requires WasPublished(s.rows[id], Accepted(s.publications, id)) ==> WasPublished(row, Accepted(s.publications, id))
    ensures DepsOk(s.(rows := s.rows[id := row]))
  {
  }

  lemma OutcomeKeeps(s: State, c: Claim, jitter: nat, now: int)
    requires Inv(s) && c in s.claims
    ensures Inv(ApplyOutcome(s, c, jitter, now))
  {
    if Passes(s, c, now) {
      RowUpdateKeeps(s, c.id, ApplyOutcome(s, c, jitter, now).rows[c.id]);
    }
  }

  lemma PublishKeeps(s: State, c: Claim, outerIds: seq<nat>, now: int)
    requires Inv(s)
    ensures Inv(PublishAttempt(s, c, outerIds, now))
  {
    if Passes(s, c, now) {
      RowUpdateKeeps(s, c.id, PublishAttempt(s, c, outerIds, now).rows[c.id]);
    }
  }

  lemma RequeueKeeps(s: State, id: IntentId, token: nat, sawAccepted: bool, now: int)
    requires Inv(s)
    ensures Inv(Requeue(s, id, token, sawAccepted, now))
  {
    if Requeue(s, id, token, sawAccepted, now) != s {
      RowUpdateKeeps(s, id, Requeue(s, id, token, sawAccepted, now).rows[id]);
    }
  }

  lemma SupersedeKeeps(s: State, pass: nat, id: IntentId)
    requires Inv(s)
    ensures Inv(Supersede(s, pass, id))
  {
    if Supersede(s, pass, id) != s {
      RowUpdateKeeps(s, id, s.rows[id].(state := Superseded));
    }
  }

  lemma {:induction false} StepKeeps(s: State, e: Event)
    requires Inv(s)
    ensures Inv(Apply(s, e))
  {
    match e
    case DoEnqueue(id, row, on) => EnqueueKeeps(s, id, row, on);
    case DoClaim(id, worker, now, lease) => ClaimKeeps(s, id, worker, now, lease);
    case DoPublish(c, outerIds, now) => PublishKeeps(s, c, outerIds, now);
    case DoRecord(p) => RecordKeeps(s, p);
    case DoOutcome(c, jitter, now) => if c in s.claims { OutcomeKeeps(s, c, jitter, now); }
    case DoRequeue(id, token, sawAccepted, now) => RequeueKeeps(s, id, token, sawAccepted, now);
    case DoScan(pass, id) =>
    case DoSupersede(pass, id) => SupersedeKeeps(s, pass, id);
  }

  lemma {:induction false} RunKeeps(s: State, events: seq<Event>)
    requires Inv(s)
    ensures Inv(Run(s, events))
  {
    if events != [] {
      RunKeeps(s, events[..|events| - 1]);
      StepKeeps(Run(s, events[..|events| - 1]), events[|events| - 1]);
    }
  }

  // ---- Fencing ----

  /** In every run at most one claim of a row can pass a leased write, whatever the clocks of its workers say. */
  lemma {:induction false} OneClaimantPasses(events: seq<Event>, c: Claim, d: Claim, now: int, later: int)
    requires c in Run(Empty, events).claims && d in Run(Empty, events).claims && c.id == d.id
    requires Passes(Run(Empty, events), c, now) && Passes(Run(Empty, events), d, later)
    ensures c == d
  {
    RunKeeps(Empty, events);
  }

  lemma StepTokens(s: State, e: Event, id: IntentId)
    requires id in s.rows
    ensures id in Apply(s, e).rows && Apply(s, e).rows[id].token >= s.rows[id].token
  {
  }

  lemma {:induction false} TokensNeverDecrease(s: State, events: seq<Event>, id: IntentId)
    requires id in s.rows
    ensures id in Run(s, events).rows && Run(s, events).rows[id].token >= s.rows[id].token
  {
    if events != [] {
      TokensNeverDecrease(s, events[..|events| - 1], id);
      StepTokens(Run(s, events[..|events| - 1]), events[|events| - 1], id);
    }
  }

  /** After a re-claim or a stale requeue no earlier claim changes the row, in any continuation. */
  lemma EarlierClaimIsFencedOut(s: State, events: seq<Event>, c: Claim, e: Event)
    requires c.id in s.rows && c.token < s.rows[c.id].token
    requires (e.DoPublish? || e.DoOutcome?) && e.claim == c
    ensures Apply(Run(s, events), e) == Run(s, events)
  {
    TokensNeverDecrease(s, events, c.id);
  }

  /** A claim and a stale requeue each take the token past every claim given out before. */
  lemma {:induction false} ReclaimOvertakes(events: seq<Event>, c: Claim, e: Event)
    requires c in Run(Empty, events).claims
    requires (e.DoClaim? || e.DoRequeue?) && e.id == c.id
    requires Apply(Run(Empty, events), e) != Run(Empty, events)
    ensures c.token < Apply(Run(Empty, events), e).rows[c.id].token
  {
    RunKeeps(Empty, events);
  }

  // ---- Published is sound, bounded and ordered ----

  /** A published intent has durable quorum, at most 20 attempts, and dependencies that were published. */
  lemma {:induction false} PublishedIsSound(events: seq<Event>, id: IntentId)
    requires id in Run(Empty, events).rows
    ensures
      var s := Run(Empty, events);
      && s.rows[id].attempts <= MAX_ATTEMPTS
      && (s.rows[id].state == Published ==>
            && Quorum(s.rows[id].aggregate, Accepted(s.publications, id))
            && forall d :: d in s.deps && d.0 == id ==>
                 && d.1 in s.rows
                 && Quorum(s.rows[d.1].aggregate, Accepted(s.publications, d.1))
                 && s.rows[d.1].state in {Published, Superseded})
  {
    RunKeeps(Empty, events);
    var s := Run(Empty, events);
    assert RowOk(s.rows[id], Accepted(s.publications, id));
    forall d | d in s.deps && d.0 == id && s.rows[id].state == Published
      ensures d.1 in s.rows && WasPublished(s.rows[d.1], Accepted(s.publications, d.1))
    {
    }
  }

  lemma PublishedStep(s: State, e: Event, id: IntentId)
    requires id in s.rows && s.rows[id].state == Published && s.rows[id].claimedUntil.None?
    requires id in Apply(s, e).rows
    ensures Apply(s, e).rows[id].state != Published <==> e.DoSupersede? && e.id == id && (e.pass, id) in s.scanned && HasNewer(s.rows, id)
  {
  }

  lemma PublishedHoldsNoLease(s: State, id: IntentId)
    requires RowsOk(s) && id in s.rows && s.rows[id].state == Published
    ensures s.rows[id].claimedUntil.None?
  {
  }

  /** `published` is left exactly when a supersede lands whose pass had read the row before it was published. */
  lemma {:induction false} PublishedIsLeftOnlyBySupersede(events: seq<Event>, e: Event, id: IntentId)
    requires id in Run(Empty, events).rows && Run(Empty, events).rows[id].state == Published
    ensures
      var s := Run(Empty, events);
      && id in Apply(s, e).rows
      && (Apply(s, e).rows[id].state != Published <==> e.DoSupersede? && e.id == id && (e.pass, id) in s.scanned && HasNewer(s.rows, id))
  {
    RunKeeps(Empty, events);
    PublishedHoldsNoLease(Run(Empty, events), id);
    StepTokens(Run(Empty, events), e, id);
    PublishedStep(Run(Empty, events), e, id);
  }

  predicate PublishedOrderMessage(s: State, id: IntentId) {
    id in s.rows && s.rows[id].state == Published && s.rows[id].aggregate == OrderMsg
  }

  lemma OrderMessageStep(s: State, e: Event, id: IntentId)
    requires Inv(s) && PublishedOrderMessage(s, id)
    ensures PublishedOrderMessage(Apply(s, e), id)
  {
  }

  /** An order message never leaves `published`, in any continuation of any run. */
  lemma {:induction false} OrderMessageStaysPublished(before: seq<Event>, after: seq<Event>, id: IntentId)
    requires PublishedOrderMessage(Run(Empty, before), id)
    ensures PublishedOrderMessage(Run(Run(Empty, before), after), id)
    decreases |after|
  {
    if after != [] {
      OrderMessageStaysPublished(before, after[..|after| - 1], id);
      RunKeeps(Empty, before);
      RunKeeps(Run(Empty, before), after[..|after| - 1]);
      OrderMessageStep(Run(Run(Empty, before), after[..|after| - 1]), after[|after| - 1], id);
    }
  }

  /** When a pass reads and updates with nothing in between, published rows stay. */
  lemma UninterruptedSupersedeSparesPublished(s: State, pass: nat, x: IntentId, id: IntentId)
    requires id in s.rows && s.rows[id].state == Published && (pass, id) !in s.scanned
    ensures Apply(Apply(s, DoScan(pass, x)), DoSupersede(pass, x)).rows[id] == s.rows[id]
  {
  }

  lemma RunSnoc(s: State, events: seq<Event>, e: Event)
    ensures Run(s, events + [e]) == Apply(Run(s, events), e)
  {
  }

  /** Any public row with evidence and a newer revision: read it, publish it, and the supersede takes it back. */
  lemma RacingSupersedeTakesBackPublished(s: State, c: Claim, pass: nat, jitter: nat, now: int)
    requires c in s.claims && Passes(s, c, now)
    requires Supersedable(s.rows[c.id]) && HasNewer(s.rows, c.id) && Accepted(s.publications, c.id) != {}
    ensures
      var published := Apply(Apply(s, DoScan(pass, c.id)), DoOutcome(c, jitter, now));
      && published.rows[c.id].state == Published
      && Apply(published, DoSupersede(pass, c.id)).rows[c.id].state == Superseded
  {
    var published := Apply(Apply(s, DoScan(pass, c.id)), DoOutcome(c, jitter, now));
    var x :| x in s.rows && x != c.id && Newer(s.rows[x], s.rows[c.id]);
    assert Newer(published.rows[x], published.rows[c.id]);
  }

  /** Such a row occurs: two revisions of one listing, the older claimed and accepted by a relay. */
  lemma SuchARowOccurs(claim: Claim)
    requires claim == Claim(0, 1, 0, 0)
    ensures
      var older := Row(Public, 0, 30402, 1, [], Pending, 0, 0, None, 0, [], 0);
      var s1 := Enqueue(Empty, 0, older, []);
      var s2 := Enqueue(s1, 1, older.(revision := 2), []);
      var s3 := ClaimRow(s2, 0, 0, 0, 60);
      var s := Record(s3, Publication(0, Target(Broadcast, 0), true));
      && claim in s.claims && Passes(s, claim, 1)
      && Supersedable(s.rows[0]) && HasNewer(s.rows, 0) && Accepted(s.publications, 0) != {}
  {
    var older := Row(Public, 0, 30402, 1, [], Pending, 0, 0, None, 0, [], 0);
    var s2 := Enqueue(Enqueue(Empty, 0, older, []), 1, older.(revision := 2), []);
    assert Due(s2, 0, 0);
    var sent := Publication(0, Target(Broadcast, 0), true);
    var s := Record(ClaimRow(s2, 0, 0, 0, 60), sent);
    assert sent in s.publications;
    assert sent.target in Accepted(s.publications, 0);
    assert Newer(s.rows[1], s.rows[0]);
  }

  // ---- Dependencies ----

  predicate Path(s: State, path: seq<IntentId>) {
    forall i :: 0 <= i < |path| - 1 ==> (path[i], path[i + 1]) in s.deps
  }

  /** The dependency graph is acyclic apart from self-edges. */
  lemma {:induction false} NoDependencyCycle(events: seq<Event>, path: seq<IntentId>)
    requires |path| >= 2 && Path(Run(Empty, events), path) && path[0] == path[|path| - 1]
    ensures exists i :: 0 <= i < |path| - 1 && path[i] == path[i + 1]
  {
    RunKeeps(Empty, events);
    if forall i :: 0 <= i < |path| - 1 ==> path[i] != path[i + 1] {
      PathDescends(Run(Empty, events), path);
    }
  }

  lemma {:induction false} PathDescends(s: State, path: seq<IntentId>)
    requires DepsOk(s) && |path| >= 2 && Path(s, path)
    requires forall i :: 0 <= i < |path| - 1 ==> path[i] != path[i + 1]
    ensures path[0] in s.rows && path[|path| - 1] in s.rows
    ensures s.rows[path[|path| - 1]].born < s.rows[path[0]].born
  {
    var n := |path| - 1;
    assert (path[n - 1], path[n]) in s.deps;
    if |path| > 2 {
      PathDescends(s, path[..n]);
    }
  }

  /** An intent that depends on itself is never claimed, so it is never published. */
  lemma {:induction false} SelfDependentNeverPublishes(events: seq<Event>, id: IntentId)
    requires (id, id) in Run(Empty, events).deps
    ensures id in Run(Empty, events).rows
    ensures Run(Empty, events).rows[id].token == 0 && Run(Empty, events).rows[id].state != Published
  {
    RunKeeps(Empty, events);
    var s := Run(Empty, events);
    assert RowOk(s.rows[id], Accepted(s.publications, id));
    assert s.rows[id].token > 0 ==> (id, id).0 != (id, id).1;
  }
}
