/** The outbox as the workers run it: every method commits steps of `Outbox`, recorded in `history`. */
module OutboxEngine {
  import opened Wrappers
  import opened Outbox
  import opened OutboxTheorems
  import opened OutboxEffects
  import opened Ranking

  // ---- Claims ----

  /** The due rows with the times that order them. */
  function DueAt(s: State, now: int): (r: map<nat, int>)
    ensures forall id :: id in r <==> Due(s, id, now)
    ensures forall id :: id in r ==>
      && id in s.rows && s.rows[id].state in {Pending, PartiallyPublished}
      && s.rows[id].nextAttemptAt <= now && s.rows[id].attempts < 20 && r[id] == s.rows[id].nextAttemptAt
  {
    map id | id in s.rows && Due(s, id, now) :: s.rows[id].nextAttemptAt
  }

  function ClaimAll(s: State, ids: seq<IntentId>, worker: nat, now: int, lease: int): State {
    if ids == [] then s
    else ClaimRow(ClaimAll(s, ids[..|ids| - 1], worker, now, lease), ids[|ids| - 1], worker, now, lease)
  }

  function ClaimEvents(ids: seq<IntentId>, worker: nat, now: int, lease: int): seq<Event> {
    seq(|ids|, i requires 0 <= i < |ids| => DoClaim(ids[i], worker, now, lease))
  }

  /** Claiming one row changes no other row's order, dependencies or readiness. */
  lemma ClaimLeavesOthers(s: State, id: IntentId, worker: nat, now: int, lease: int, x: IntentId)
    requires x in s.rows && x != id
    ensures ClaimRow(s, id, worker, now, lease).rows[x] == s.rows[x]
    ensures Due(s, x, now) ==> Due(ClaimRow(s, id, worker, now, lease), x, now)
  {
  }

  lemma {:induction false} BatchSpecified(s: State, ids: seq<IntentId>, worker: nat, now: int, lease: int, x: IntentId)
    requires forall i :: 0 <= i < |ids| ==> Due(s, ids[i], now)
    requires forall i, j :: 0 <= i < j < |ids| ==> ids[i] != ids[j]
    requires x in s.rows
    ensures x in ClaimAll(s, ids, worker, now, lease).rows
    ensures
      ClaimAll(s, ids, worker, now, lease).rows[x] ==
      if x in ids then s.rows[x].(state := Claimed, claimedUntil := Some(now + lease), token := s.rows[x].token + 1)
      else s.rows[x]
    ensures Due(s, x, now) && x !in ids ==> Due(ClaimAll(s, ids, worker, now, lease), x, now)
  {
    if ids != [] {
      var front, last := ids[..|ids| - 1], ids[|ids| - 1];
      BatchSpecified(s, front, worker, now, lease, x);
      BatchSpecified(s, front, worker, now, lease, last);
      if x != last {
        ClaimLeavesOthers(ClaimAll(s, front, worker, now, lease), last, worker, now, lease, x);
      }
    }
  }

  lemma {:induction false} ClaimAllIsRun(s: State, ids: seq<IntentId>, worker: nat, now: int, lease: int, past: seq<Event>)
    requires s == Run(Empty, past)
    ensures ClaimAll(s, ids, worker, now, lease) == Run(Empty, past + ClaimEvents(ids, worker, now, lease))
  {
    if ids == [] {
      assert past + ClaimEvents(ids, worker, now, lease) == past;
    } else {
      var front := ids[..|ids| - 1];
      ClaimAllIsRun(s, front, worker, now, lease, past);
      var all := past + ClaimEvents(ids, worker, now, lease);
      assert all[..|all| - 1] == past + ClaimEvents(front, worker, now, lease);
    }
  }

  function RecordEvents(ps: seq<Publication>): seq<Event> {
    seq(|ps|, i requires 0 <= i < |ps| => DoRecord(ps[i]))
  }

  lemma {:induction false} RecordAllIsRun(s: State, ps: seq<Publication>, past: seq<Event>)
    requires s == Run(Empty, past)
    requires forall p :: p in ps ==> p.id in s.rows
    ensures Run(Empty, past + RecordEvents(ps)) == s.(publications := s.publications + ps)
  {
    if ps == [] {
      assert past + RecordEvents(ps) == past;
      assert s.publications + ps == s.publications;
    } else {
      var front, last := ps[..|ps| - 1], ps[|ps| - 1];
      RecordAllIsRun(s, front, past);
      assert past + RecordEvents(ps) == past + RecordEvents(front) + [DoRecord(last)];
      RunSnoc(Empty, past + RecordEvents(front), DoRecord(last));
      assert s.publications + ps == s.publications + front + [last];
    }
  }

  // ---- Stale rows ----

  predicate Stale(row: Row, now: int) {
    row.state in {Claimed, Publishing} && row.claimedUntil.Some? && row.claimedUntil.value <= now
  }

  function AfterRecovery(row: Row, accepted: set<Target>, now: int): Row {
    if Stale(row, now)
    then row.(state := if accepted != {} then PartiallyPublished else Pending,
              claimedUntil := None, token := row.token + 1, nextAttemptAt := now)
    else row
  }

  class OutboxModel {
    var rows: map<IntentId, Row>
    var deps: set<(IntentId, IntentId)>
    var publications: seq<Publication>
    ghost var claims: set<Claim>
    ghost var scanned: set<(nat, IntentId)>
    ghost var history: seq<Event>

    ghost function Tables(): State
      reads this
    {
      State(rows, deps, publications, claims, scanned)
    }

    /** The tables are what the committed steps made of the empty ones, so every run theorem holds of them. */
    ghost predicate Valid()
      reads this
    {
      Tables() == Run(Empty, history)
    }

    constructor ()
      ensures Valid() && history == [] && Tables() == Empty
    {
      rows, deps, publications, claims, scanned, history := map[], {}, [], {}, {}, [];
    }

    /** Insert once with its edges; an unknown dependency rolls the insert back. */
    method EnqueueIntent(id: IntentId, row: Row, on: seq<IntentId>) returns (inserted: bool)
      requires Valid()
      modifies this
      ensures Valid() && Tables() == Enqueue(old(Tables()), id, row, on)
      ensures inserted <==> id !in old(rows) && EdgesKnown(old(rows), id, on)
      ensures inserted <==> Tables() != old(Tables())
    {
      ghost var s, past := Tables(), history;
      inserted := false;
      if id !in rows {
        var edges;
        inserted, edges := Edges(id, on);
        if inserted {
          rows := rows[id := row.(state := Pending, attempts := 0, nextAttemptAt := 0, claimedUntil := None,
                                  token := 0, born := |rows|)];
          deps := deps + edges;
        }
      }
      EnqueueExactly(s, id, row, on);
      history := past + [DoEnqueue(id, row, on)];
      RunSnoc(Empty, past, DoEnqueue(id, row, on));
    }

    /** The foreign key holds for every edge, or the insert fails. */
    method Edges(id: IntentId, on: seq<IntentId>) returns (ok: bool, edges: set<(IntentId, IntentId)>)
      ensures ok <==> EdgesKnown(rows, id, on)
      ensures ok ==> edges == set d | d in on :: (id, d)
    {
      edges := {};
      for k := 0 to |on|
        invariant forall i :: 0 <= i < k ==> on[i] in rows || on[i] == id
        invariant edges == set d | d in on[..k] :: (id, d)
      {
        if on[k] !in rows && on[k] != id {
          return false, edges;
        }
        assert on[..k + 1] == on[..k] + [on[k]];
        edges := edges + {(id, on[k])};
      }
      assert on[..|on|] == on;
      ok := true;
    }

    /** Take up to `limit` due rows in order of next attempt, each under a token nobody held before. */
    method Claim(worker: nat, now: int, limit: nat, lease: int) returns (ids: seq<IntentId>)
      requires Valid()
      modifies this
      ensures Valid() && Ranked(DueAt(old(Tables()), now), limit, ids)
      ensures Tables() == ClaimAll(old(Tables()), ids, worker, now, lease)
    {
      ghost var s, past := Tables(), history;
      var due := map id | id in rows && rows[id].state in {Pending, PartiallyPublished} &&
                          rows[id].nextAttemptAt <= now && rows[id].attempts < MAX_ATTEMPTS &&
                          (forall d :: d in deps && d.0 == id && d.1 in rows ==> rows[d.1].state == Published)
                          :: rows[id].nextAttemptAt;
      assert due == DueAt(s, now);
      ids := SelectFirst(due, limit);
      rows, claims := ClaimSelected(s, ids, worker, now, lease);
      ClaimAllIsRun(s, ids, worker, now, lease, past);
      history := past + ClaimEvents(ids, worker, now, lease);
    }

    /** UPDATE ... SET state = 'claimed', claim_token = claim_token + 1 WHERE id IN (:ids). */
    method ClaimSelected(ghost s: State, ids: seq<IntentId>, worker: nat, now: int, lease: int)
      returns (after: map<IntentId, Row>, ghost given: set<Outbox.Claim>)
      requires s == Tables()
      requires forall i :: 0 <= i < |ids| ==> Due(s, ids[i], now)
      requires forall i, j :: 0 <= i < j < |ids| ==> ids[i] != ids[j]
      ensures ClaimAll(s, ids, worker, now, lease) == s.(rows := after, claims := given)
    {
      after, given := rows, claims;
      for k := 0 to |ids|
        invariant ClaimAll(s, ids[..k], worker, now, lease) == s.(rows := after, claims := given)
      {
        BatchSpecified(s, ids[..k], worker, now, lease, ids[k]);
        assert ids[..k + 1][..k] == ids[..k];
        var row := after[ids[k]];
        given := given + {Outbox.Claim(ids[k], row.token + 1, row.attempts, worker)};
        after := after[ids[k] := row.(state := Claimed, claimedUntil := Some(now + lease), token := row.token + 1)];
      }
      assert ids[..|ids|] == ids;
    }

    /** Send only what no relay accepted yet; a lost claim sends nothing. */
    method PublishAttempt(c: Outbox.Claim, outerIds: seq<nat>, now: int) returns (r: Result<seq<Target>, ()>)
      requires Valid() && c in claims && c.id in rows
      modifies this
      ensures Valid() && Tables() == Outbox.PublishAttempt(old(Tables()), c, outerIds, now)
      ensures r.Ok? <==> Passes(old(Tables()), c, now)
      ensures r.Ok? ==> r.value == Missing(old(rows)[c.id].targets, Accepted(old(publications), c.id))
    {
      ghost var past := history;
      RunSnoc(Empty, past, DoPublish(c, outerIds, now));
      var row := rows[c.id];
      if row.token == c.token && row.claimedUntil.Some? && row.claimedUntil.value > now {
        r := Ok(Missing(row.targets, Accepted(publications, c.id)));
        rows := rows[c.id := row.(outerIds := outerIds, state := Publishing)];
      } else {
        r := Err(());
      }
      history := past + [DoPublish(c, outerIds, now)];
    }

    /** One evidence row per attempted target, in one transaction. */
    method RecordPublications(ps: seq<Publication>)
      requires Valid() && forall p :: p in ps ==> p.id in rows
      modifies this
      ensures Valid() && Tables() == old(Tables()).(publications := old(publications) + ps)
    {
      ghost var s, past := Tables(), history;
      RecordAllIsRun(s, ps, past);
      for k := 0 to |ps|
        invariant Tables() == s.(publications := s.publications + ps[..k]) && history == past
      {
        publications := publications + [ps[k]];
      }
      assert ps[..|ps|] == ps;
      history := past + RecordEvents(ps);
    }

    /** Decide from all durable evidence; the write needs the current token and a live lease. */
    method DecideOutcome(c: Outbox.Claim, jitter: nat, now: int) returns (ok: bool)
      requires Valid() && c in claims && c.id in rows
      modifies this
      ensures Valid() && Tables() == ApplyOutcome(old(Tables()), c, jitter, now)
      ensures ok <==> Passes(old(Tables()), c, now)
      ensures ok ==> rows[c.id].attempts == c.attempts + 1 && rows[c.id].claimedUntil.None?
      ensures ok ==> (rows[c.id].state == Published <==> Quorum(rows[c.id].aggregate, Accepted(publications, c.id)))
      ensures ok ==> (rows[c.id].state == Failed <==> rows[c.id].state != Published && c.attempts + 1 >= MAX_ATTEMPTS)
      ensures ok && rows[c.id].state !in {Published, Failed} ==>
        && rows[c.id].state == (if Accepted(publications, c.id) != {} then PartiallyPublished else Pending)
        && now + 5 <= rows[c.id].nextAttemptAt <= now + 1800 + jitter
    {
      ghost var past := history;
      RunSnoc(Empty, past, DoOutcome(c, jitter, now));
      var row := rows[c.id];
      var accepted := Accepted(publications, c.id);
      ok := row.token == c.token && row.claimedUntil.Some? && row.claimedUntil.value > now;
      if ok {
        var state := Pending;
        if Quorum(row.aggregate, accepted) {
          state := Published;
        } else if accepted != {} {
          state := PartiallyPublished;
        }
        if state != Published && c.attempts + 1 >= MAX_ATTEMPTS {
          state := Failed;
        }
        var delay := if state == Published then 0 else Backoff(c.attempts + 1) + jitter;
        rows := rows[c.id := row.(state := state, attempts := c.attempts + 1, nextAttemptAt := now + delay,
                                  claimedUntil := None)];
      }
      history := past + [DoOutcome(c, jitter, now)];
    }

    /** Every claimed or publishing row with an expired lease, rebuilt from its evidence; no other row. */
    method RequeueStale(now: int)
      requires Valid()
      modifies this
      ensures Valid() && rows.Keys == old(rows).Keys
      ensures Tables() == old(Tables()).(rows := rows)
      ensures forall id :: id in old(rows) ==>
        rows[id] ==
        if old(rows)[id].state in {Claimed, Publishing} && exists until :: old(rows)[id].claimedUntil == Some(until) && until <= now
        then old(rows)[id].(
          state := if Accepted(old(publications), id) != {} then PartiallyPublished else Pending,
          claimedUntil := None, token := old(rows)[id].token + 1, nextAttemptAt := now)
        else old(rows)[id]
    {
      var stale := set id | id in rows && Stale(rows[id], now) :: id;
      var left := stale;
      while left != {}
        invariant Valid() && rows.Keys == old(rows).Keys
        invariant Tables() == old(Tables()).(rows := rows)
        invariant forall id :: id in left ==> id in rows && rows[id] == old(rows)[id] && Stale(rows[id], now)
        invariant forall id :: id in old(rows) && id !in left ==>
          rows[id] == AfterRecovery(old(rows)[id], Accepted(old(publications), id), now)
        decreases |left|
      {
        ghost var m := SomeElement(left);
        var id :| id in left;
        left := left - {id};
        RequeueOne(id, now);
      }
    }

    method RequeueOne(id: IntentId, now: int)
      requires Valid() && id in rows && Stale(rows[id], now)
      modifies this
      ensures Valid()
      ensures Tables() == old(Tables()).(
        rows := old(rows)[id := AfterRecovery(old(rows)[id], Accepted(old(publications), id), now)])
    {
      var accepted := Accepted(publications, id);
      ghost var e := DoRequeue(id, rows[id].token, accepted != {}, now);
      RunSnoc(Empty, history, e);
      rows := rows[id := AfterRecovery(rows[id], accepted, now)];
      history := history + [e];
    }

    /** With nothing in between, exactly the supersedable rows with a newer revision are superseded. */
    method SupersedeObsolete(ghost pass: nat) returns (done: set<IntentId>)
      requires Valid() && forall id :: (pass, id) !in scanned
      modifies this
      ensures Valid() && Tables() == old(Tables()).(rows := Superseding(old(rows), done))
      ensures forall id :: id in done <==> id in old(rows) && Obsolete(old(rows), id)
    {
      ghost var before, start := rows, Tables();
      ObsoleteExactly(rows);
      var candidates := set id | id in rows && Supersedable(rows[id]) :: id;
      var left := candidates;
      done := {};
      assert rows == Superseding(before, {});
      while left != {}
        invariant Valid() && Tables() == start.(rows := Superseding(before, done))
        invariant left <= candidates && left !! done && done <= candidates
        invariant forall id :: id in candidates && id !in left ==> (id in done <==> HasNewer(before, id))
        decreases |left|
      {
        ghost var m := SomeElement(left);
        var id :| id in left;
        left := left - {id};
        SupersedingStep(before, done, id);
        if HasNewer(rows, id) {
          SupersedeOne(pass, id);
          done := done + {id};
        }
      }
    }

    /** A pass reads one row; other workers' steps may follow before it updates. */
    method ScanRow(ghost pass: nat, id: IntentId) returns (candidate: bool)
      requires Valid()
      modifies this
      ensures Valid() && Tables() == Scan(old(Tables()), pass, id)
      ensures candidate <==> id in rows && rows[id].aggregate == Public && rows[id].state in Unsettled
      ensures candidate ==> (pass, id) in scanned
    {
      ghost var s, next := Tables(), history + [DoScan(pass, id)];
      RunSnoc(Empty, history, DoScan(pass, id));
      assert Run(Empty, next) == Scan(s, pass, id);
      history := next;
      candidate := id in rows && Supersedable(rows[id]);
      if candidate {
        scanned := scanned + {(pass, id)};
      }
    }

    /** The update by id of a row read earlier: whatever its state is by now, it ends superseded. */
    method SupersedeScanned(ghost pass: nat, id: IntentId) returns (done: bool)
      requires Valid() && (pass, id) in scanned && id in rows
      modifies this
      ensures Valid() && Tables() == Supersede(old(Tables()), pass, id)
      ensures done <==> Outdated(old(rows), id)
      ensures done ==> rows == old(rows)[id := old(rows)[id].(state := Superseded)]
    {
      ghost var s, next := Tables(), history + [DoSupersede(pass, id)];
      RunSnoc(Empty, history, DoSupersede(pass, id));
      assert Run(Empty, next) == Supersede(s, pass, id);
      history := next;
      OutdatedExactly(rows, id);
      done := HasNewer(rows, id);
      if done {
        rows := rows[id := rows[id].(state := Superseded)];
        scanned := scanned - {(pass, id)};
      }
    }

    method SupersedeOne(ghost pass: nat, id: IntentId)
      requires Valid() && id in rows && Supersedable(rows[id]) && HasNewer(rows, id) && (pass, id) !in scanned
      modifies this
      ensures Valid()
      ensures Tables() == old(Tables()).(rows := old(rows)[id := old(rows)[id].(state := Superseded)])
    {
      ScanThenSupersede(Tables(), pass, id);
      RunSnoc(Empty, history, DoScan(pass, id));
      RunSnoc(Empty, history + [DoScan(pass, id)], DoSupersede(pass, id));
      rows := rows[id := rows[id].(state := Superseded)];
      history := history + [DoScan(pass, id)] + [DoSupersede(pass, id)];
    }
  }

  function Superseding(rows: map<IntentId, Row>, done: set<IntentId>): map<IntentId, Row> {
    map id | id in rows :: if id in done then rows[id].(state := Superseded) else rows[id]
  }

  lemma SupersedingStep(rows: map<IntentId, Row>, done: set<IntentId>, id: IntentId)
    requires id in rows && id !in done
    ensures HasNewer(Superseding(rows, done), id) <==> HasNewer(rows, id)
    ensures
      Superseding(rows, done + {id}) ==
      Superseding(rows, done)[id := Superseding(rows, done)[id].(state := Superseded)]
  {
    var after := Superseding(rows, done);
    if HasNewer(rows, id) {
      var x :| x in rows && x != id && Newer(rows[x], rows[id]);
      assert Newer(after[x], after[id]);
    }
    if HasNewer(after, id) {
      var x :| x in after && x != id && Newer(after[x], after[id]);
      assert Newer(rows[x], rows[id]);
    }
  }

  lemma ScanThenSupersede(s: State, pass: nat, id: IntentId)
    requires id in s.rows && Supersedable(s.rows[id]) && HasNewer(s.rows, id) && (pass, id) !in s.scanned
    ensures
      Supersede(Scan(s, pass, id), pass, id) == s.(rows := s.rows[id := s.rows[id].(state := Superseded)])
  {
  }
}
