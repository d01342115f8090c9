/** The e-mail queue as its workers run it: every method commits steps of `Email`, recorded in `history`. */
module EmailEngine {
  import opened Wrappers
  import opened Email
  import opened EmailTheorems
  import opened Ranking

  const EMAIL_BATCH := 16

  /** The due rows with the times that order them. */
  function DueAt(s: State, n: int, maxAttempts: nat): (r: map<nat, int>)
    ensures forall id :: id in r <==>
      id in s.rows && s.rows[id].state == Pending && s.rows[id].nextAttemptAt <= n && s.rows[id].attempts < maxAttempts
    ensures forall id :: id in r ==> r[id] == s.rows[id].nextAttemptAt
  {
    map id | id in s.rows && Due(s, id, n, maxAttempts) :: s.rows[id].nextAttemptAt
  }

  class EmailQueue {
    var now: real
    var rows: map<RowId, Row>
    var phases: map<Claim, Phase>
    var terminal: map<OrderId, int>
    ghost var history: seq<Event>

    function Tables(): State
      reads this
    {
      State(now, rows, phases, terminal)
    }

    /** The tables are what the committed steps made of the empty ones, so every run theorem holds of them. */
    ghost predicate Valid()
      reads this
    {
      Tables() == Run(Empty, history)
    }

    constructor ()
      ensures Valid() && Tables() == Empty
    {
      now, rows, phases, terminal, history := 0.0, map[], map[], map[], [];
    }

    method Tick(to: real)
      requires Valid() && to >= now
      modifies this
      ensures Valid() && Tables() == Advance(old(Tables()), to) && now == to
    {
      RunSnoc(Empty, history, DoAdvance(to));
      history := history + [DoAdvance(to)];
      now := to;
    }

    /** A pending row; an id in use is left alone. */
    method EnqueueRow(id: RowId, order: Option<OrderId>, customer: bool, at: int)
      requires Valid()
      modifies this
      ensures Valid() && Tables() == Enqueue(old(Tables()), id, order, customer, at)
      ensures id in rows && (id !in old(rows) ==> Due(Tables(), id, at, 1))
    {
      RunSnoc(Empty, history, DoEnqueue(id, order, customer, at));
      history := history + [DoEnqueue(id, order, customer, at)];
      if id !in rows {
        rows := rows[id := Row(order, customer, Pending, 0, None, None, 0, at)];
      }
    }

    /** Up to 16 due rows in order of next attempt, each claimed by a claim of its own; no other row changes. */
    method ClaimBatch(worker: nat, n: int, maxAttempts: nat) returns (ids: seq<RowId>, claims: seq<Claim>)
      requires Valid() && n <= now.Floor
      modifies this
      ensures Valid() && now == old(now) && |claims| == |ids|
      ensures Ranked(DueAt(old(Tables()), n, maxAttempts), 16, ids)
      ensures forall i :: 0 <= i < |ids| ==> Given(ids[i], worker, claims[i])
      ensures forall id :: id in old(rows) && id !in ids ==> id in rows && rows[id] == old(rows)[id]
    {
      ids := SelectFirst(DueAt(Tables(), n, maxAttempts), EMAIL_BATCH);
      claims := ClaimEach(ids, worker, n, maxAttempts);
    }

    predicate Given(id: RowId, worker: nat, claim: Claim)
      reads this
    {
      claim.id == id && claim.worker == worker && Holds(Tables(), claim) && claim in phases && phases[claim] == Waiting
    }

    method ClaimEach(ids: seq<RowId>, worker: nat, n: int, maxAttempts: nat) returns (claims: seq<Claim>)
      requires Valid() && n <= now.Floor
      requires forall i :: 0 <= i < |ids| ==> Due(Tables(), ids[i], n, maxAttempts)
      requires forall i, j :: 0 <= i < j < |ids| ==> ids[i] != ids[j]
      modifies this
      ensures Valid() && now == old(now) && |claims| == |ids|
      ensures forall i :: 0 <= i < |ids| ==> Given(ids[i], worker, claims[i])
      ensures forall id :: id in old(rows) && id !in ids ==> id in rows && rows[id] == old(rows)[id]
    {
      claims := [];
      for k := 0 to |ids|
        invariant Valid() && now == old(now) && |claims| == k
        invariant forall i :: 0 <= i < k ==> Given(ids[i], worker, claims[i])
        invariant forall id :: id in old(rows) && id !in ids[..k] ==> id in rows && rows[id] == old(rows)[id]
      {
        assert ids[..k + 1] == ids[..k] + [ids[k]];
        var claim := ClaimOne(ids[k], worker, n, maxAttempts);
        claims := claims + [claim];
      }
      assert ids[..|ids|] == ids;
    }

    method ClaimOne(id: RowId, worker: nat, n: int, maxAttempts: nat) returns (claim: Claim)
      requires Valid() && n <= now.Floor && Due(Tables(), id, n, maxAttempts)
      modifies this
      ensures Valid() && Tables() == ClaimRow(old(Tables()), id, worker, n, maxAttempts)
      ensures claim == Claim(id, old(rows)[id].token + 1, worker, n + CLAIM_LEASE, old(rows)[id].attempts)
    {
      RunSnoc(Empty, history, DoClaim(id, worker, n, maxAttempts));
      history := history + [DoClaim(id, worker, n, maxAttempts)];
      var row := rows[id];
      claim := Claim(id, row.token + 1, worker, n + CLAIM_LEASE, row.attempts);
      rows := rows[id := row.(state := Claimed, token := row.token + 1, claimedBy := Some(worker),
                              claimedUntil := Some(n + CLAIM_LEASE))];
      phases := phases[claim := Waiting];
    }

    /** The transaction before the call: re-read the claim, then send, suppress or defer. */
    method PrepareSend(c: Claim, t0: real, plan: Plan)
      requires Valid() && c in phases && phases[c] == Waiting && t0 <= now
      modifies this
      ensures Valid() && Tables() == Prepare(old(Tables()), c, t0, plan)
      ensures c in phases && (phases[c].Ready? <==> Live(old(Tables()), c) && plan.Send?)
    {
      RunSnoc(Empty, history, DoPrepare(c, t0, plan));
      history := history + [DoPrepare(c, t0, plan)];
      if !Live(Tables(), c) {
        phases := phases[c := Done];
        return;
      }
      var row := rows[c.id];
      match plan
      case Suppress =>
        rows, phases := rows[c.id := row.(state := Suppressed)], phases[c := Done];
      case Defer(at) =>
        rows := rows[c.id := row.(state := Pending, nextAttemptAt := at, claimedBy := None, claimedUntil := None)];
        phases := phases[c := Done];
      case Send =>
        phases := phases[c := Ready(t0 + row.claimedUntil.value as real - now.Floor as real)];
    }

    /** The call starts only with time left, for at most 30 seconds. */
    method BeginCall(c: Claim) returns (go: bool)
      requires Valid() && c in phases && phases[c].Ready?
      modifies this
      ensures Valid() && Tables() == StartCall(old(Tables()), c)
      ensures go <==> now < old(phases)[c].deadline
      ensures go ==> InFlight(Tables(), c) && phases[c].end <= now + CALL_TIMEOUT && phases[c].end <= old(phases)[c].deadline
    {
      RunSnoc(Empty, history, DoStart(c));
      history := history + [DoStart(c)];
      var remaining := phases[c].deadline - now;
      go := remaining > 0.0;
      phases := phases[c := if go then Calling(now + Min(CALL_TIMEOUT, remaining)) else Done];
    }

    /** Classify one finished call. */
    method EndSend(c: Claim, sent: bool, maxAttempts: nat, retryAt: int) returns (outcome: Option<RowState>)
      requires Valid() && c in phases && phases[c].Calling?
      modifies this
      ensures Valid() && Tables() == Finish(old(Tables()), c, sent, maxAttempts, retryAt)
      ensures outcome.Some? <==> Live(old(Tables()), c)
      ensures outcome.Some? ==> rows[c.id].state == outcome.value && (outcome.value == Sent <==> sent)
      ensures outcome.Some? && !sent ==>
        && rows[c.id].attempts == c.attempts + 1
        && outcome.value == (if c.attempts + 1 >= maxAttempts then Failed else Pending)
        && (outcome.value == Pending ==> rows[c.id].claimedUntil.None? && rows[c.id].nextAttemptAt == retryAt)
      ensures forall id :: id in old(rows) && id != c.id ==> id in rows && rows[id] == old(rows)[id]
    {
      RunSnoc(Empty, history, DoFinish(c, sent, maxAttempts, retryAt));
      history := history + [DoFinish(c, sent, maxAttempts, retryAt)];
      outcome := None;
      if Live(Tables(), c) {
        var row, attempts := rows[c.id], c.attempts + 1;
        if sent {
          rows := rows[c.id := row.(state := Sent)];
        } else if attempts >= maxAttempts {
          rows := rows[c.id := row.(state := Failed, attempts := attempts)];
        } else {
          rows := rows[c.id := row.(state := Pending, attempts := attempts, nextAttemptAt := retryAt,
                                    claimedBy := None, claimedUntil := None)];
        }
        outcome := Some(rows[c.id].state);
      }
      phases := phases[c := Done];
    }

    /** Exactly the claimed rows whose lease has ended go back to pending. */
    method RecoverStaleClaims(n: int)
      requires Valid() && n <= now.Floor
      modifies this
      ensures Valid() && Tables() == Recover(old(Tables()), n)
      ensures forall id :: id in old(rows) ==>
        id in rows && rows[id] == if old(rows)[id].state == Claimed && old(rows)[id].claimedUntil.Some? && old(rows)[id].claimedUntil.value <= n
                                  then old(rows)[id].(state := Pending, claimedBy := None, claimedUntil := None) else old(rows)[id]
    {
      RunSnoc(Empty, history, DoRecover(n));
      history := history + [DoRecover(n)];
      rows := map id | id in rows :: RecoveredRow(rows[id], n);
    }

    method OptOutOrder(order: OrderId)
      requires Valid()
      modifies this
      ensures Valid() && Tables() == OptOut(old(Tables()), order)
      ensures rows.Keys == old(rows).Keys
      ensures forall id :: id in rows ==>
        if rows[id].order == Some(order) && rows[id].customer
        then rows[id] == old(rows)[id].(state := rows[id].state) && rows[id].state !in {Pending, Claimed}
        else rows[id] == old(rows)[id]
    {
      RunSnoc(Empty, history, DoOptOut(order));
      history := history + [DoOptOut(order)];
      rows := map id | id in rows :: OptedOutRow(rows[id], order);
    }

    method PruneRetention(n: int)
      requires Valid()
      modifies this
      ensures Valid() && Tables() == Retain(old(Tables()), n)
      ensures rows.Keys == old(rows).Keys
      ensures forall id :: id in rows ==>
        if exists o :: rows[id].order == Some(o) && o in terminal && n - terminal[o] >= 90 * 24 * 3600
        then rows[id].state in {Sent, Suppressed} && rows[id].token == old(rows)[id].token + 1
             && rows[id].claimedUntil.None?
        else rows[id] == old(rows)[id]
    {
      RunSnoc(Empty, history, DoRetain(n));
      history := history + [DoRetain(n)];
      rows := map id | id in rows :: if Erasable(terminal, rows[id].order, n) then ErasedRow(rows[id]) else rows[id];
    }

    /** The orders module moves an order into or out of a terminal state. */
    method OrderMoved(order: OrderId, since: Option<int>)
      requires Valid()
      modifies this
      ensures Valid() && Tables() == MoveOrder(old(Tables()), order, since)
    {
      RunSnoc(Empty, history, DoMoveOrder(order, since));
      history := history + [DoMoveOrder(order, since)];
      terminal := if since.Some? then terminal[order := since.value] else terminal - {order};
    }
  }
}
