/** Task leases and fenced transactions (harness/tx.py, infinitemarkets/db.py). */
module Leases {
  import opened Wrappers

  type Name = nat
  type Holder = nat

  datatype Lease = Lease(holder: Holder, token: nat, until: int)

  /** What a worker carries into its transactions. */
  datatype Fence = Fence(name: Name, holder: Holder, token: nat)

  /** One history for grants and for commits of fenced transactions. */
  datatype Entry = Grant(fence: Fence, at: int, until: int) | Commit(fence: Fence, at: int)

  datatype State = State(leases: map<Name, Lease>, begun: multiset<Fence>, history: seq<Entry>)

  const Empty := State(map[], multiset{}, [])

  // ---- The steps ----

  /** Renewal by the holder or takeover after expiry increments the token; a live lease of another holder refuses. */
  function Acquire(s: State, name: Name, holder: Holder, now: int, ttl: nat): (State, Option<nat>) {
    if name in s.leases && s.leases[name].until > now && s.leases[name].holder != holder then (s, None)
    else
      var token := if name in s.leases then s.leases[name].token + 1 else 1;
      (s.(leases := s.leases[name := Lease(holder, token, now + ttl)],
          history := s.history + [Grant(Fence(name, holder, token), now, now + ttl)]),
       Some(token))
  }

  /** `_check_fence`: holder, token, and a live lease. */
  predicate FenceHolds(s: State, f: Fence, now: int) {
    && f.name in s.leases
    && s.leases[f.name].holder == f.holder
    && s.leases[f.name].token == f.token
    && s.leases[f.name].until > now
  }

  /** The check runs at begin ... */
  function Begin(s: State, f: Fence, now: int): State {
    if FenceHolds(s, f, now) then s.(begun := s.begun + multiset{f}) else s
  }

  /** ... and again with the commit, which it turns into a rollback. */
  function CommitFenced(s: State, f: Fence, now: int): State {
    if f !in s.begun then s
    else
      var s := s.(begun := s.begun - multiset{f});
      if FenceHolds(s, f, now) then s.(history := s.history + [Commit(f, now)]) else s
  }

  datatype Event =
    | DoAcquire(name: Name, holder: Holder, now: int, ttl: nat)
    | DoBegin(fence: Fence, now: int)
    | DoCommit(fence: Fence, now: int)

  function Apply(s: State, e: Event): State {
    match e
    case DoAcquire(name, holder, now, ttl) => Acquire(s, name, holder, now, ttl).0
    case DoBegin(f, now) => Begin(s, f, now)
    case DoCommit(f, now) => CommitFenced(s, f, now)
  }

  function Run(s: State, events: seq<Event>): State {
    if events == [] then s else Apply(Run(s, events[..|events| - 1]), events[|events| - 1])
  }

  // ---- When each step acts, on the fields of the lease ----

  /** A lease is refused exactly while another holder's runs; otherwise it runs until `now + ttl` under the next token. */
  lemma AcquireExactly(s: State, name: Name, holder: Holder, now: int, ttl: nat)
    ensures
      var (t, token) := Acquire(s, name, holder, now, ttl);
      && (token == None <==> name in s.leases && s.leases[name].holder != holder && now < s.leases[name].until)
      && (token == None ==> t == s)
      && (token.Some? ==>
            && token.value == (if name in s.leases then s.leases[name].token + 1 else 1)
            && t.leases == s.leases[name := Lease(holder, token.value, now + ttl)] && t.begun == s.begun
            && t.history == s.history + [Grant(Fence(name, holder, token.value), now, now + ttl)])
  {
  }

  /** A fenced transaction begins, and later commits, exactly under its own live lease; a refusal leaves no trace. */
  lemma FencedExactly(s: State, f: Fence, now: int)
    ensures
      var holds := f.name in s.leases && now < s.leases[f.name].until
                   && s.leases[f.name] == Lease(f.holder, f.token, s.leases[f.name].until);
      && Begin(s, f, now) == (if holds then s.(begun := s.begun + multiset{f}) else s)
      && CommitFenced(s, f, now).leases == s.leases
      && CommitFenced(s, f, now).begun == s.begun - multiset{f}
      && CommitFenced(s, f, now).history == s.history + if f in s.begun && holds then [Commit(f, now)] else []
  {
  }

  // ---- Invariant ----

  /** The newest grant of a name, None before the first. */
  function LastGrant(h: seq<Entry>, name: Name): Option<Entry> {
    if h == [] then None
    else if h[|h| - 1].Grant? && h[|h| - 1].fence.name == name then Some(h[|h| - 1])
    else LastGrant(h[..|h| - 1], name)
  }

  /** The lease row is what its newest grant wrote. */
  ghost predicate RowsMatch(s: State) {
    forall name: Name ::
      match LastGrant(s.history, name)
      case None => name !in s.leases
      case Some(g) =>
        name in s.leases && g.Grant? && g.fence.name == name
        && s.leases[name] == Lease(g.fence.holder, g.fence.token, g.until)
  }

  /** Each grant of a name tops the one before it, and waits for it to expire when the holder changes. */
  predicate GrantOk(before: Option<Entry>, e: Entry) {
    match before
    case None => e.fence.token == 1
    case Some(g) =>
      && g.Grant?
      && e.fence.token == g.fence.token + 1
      && (e.fence.holder != g.fence.holder ==> e.at >= g.until)
  }

  /** Each commit runs under the newest grant of its name, before that grant's lease ends. */
  predicate CommitOk(before: Option<Entry>, e: Entry) {
    before.Some? && before.value.Grant? && before.value.fence == e.fence && e.at < before.value.until
  }

  predicate EntryOk(h: seq<Entry>, i: nat)
    requires i < |h|
  {
    if h[i].Grant? then GrantOk(LastGrant(h[..i], h[i].fence.name), h[i])
    else CommitOk(LastGrant(h[..i], h[i].fence.name), h[i])
  }

  ghost predicate HistoryOk(h: seq<Entry>) {
    forall i :: 0 <= i < |h| ==> EntryOk(h, i)
  }

  ghost predicate Inv(s: State) {
    RowsMatch(s) && HistoryOk(s.history)
  }

  lemma Snoc(h: seq<Entry>, e: Entry)
    requires HistoryOk(h) && EntryOk(h + [e], |h|)
    ensures HistoryOk(h + [e])
  {
    forall i | 0 <= i < |h + [e]| ensures EntryOk(h + [e], i) {
      if i < |h| {
        assert EntryOk(h, i) && (h + [e])[..i] == h[..i];
      }
    }
  }

  lemma LastGrantSnoc(h: seq<Entry>, e: Entry, name: Name)
    ensures LastGrant(h + [e], name) == if e.Grant? && e.fence.name == name then Some(e) else LastGrant(h, name)
  {
  }

  lemma AcquireKeeps(s: State, name: Name, holder: Holder, now: int, ttl: nat)
    requires Inv(s)
    ensures Inv(Acquire(s, name, holder, now, ttl).0)
  {
    var (t, token) := Acquire(s, name, holder, now, ttl);
    if token.Some? {
      var e := Grant(Fence(name, holder, token.value), now, now + ttl);
      assert (s.history + [e])[..|s.history|] == s.history;
      assert LastGrant(s.history, name).None? || LastGrant(s.history, name).Some?;
      Snoc(s.history, e);
      forall n: Name ensures LastGrant(t.history, n) == if n == name then Some(e) else LastGrant(s.history, n) {
        LastGrantSnoc(s.history, e, n);
      }
    }
  }

  lemma CommitKeeps(s: State, f: Fence, now: int)
    requires Inv(s)
    ensures Inv(CommitFenced(s, f, now))
  {
    var t := CommitFenced(s, f, now);
    if t.history != s.history {
      var e := Commit(f, now);
      assert (s.history + [e])[..|s.history|] == s.history;
      assert LastGrant(s.history, f.name).Some?;
      Snoc(s.history, e);
      forall n: Name ensures LastGrant(t.history, n) == LastGrant(s.history, n) {
        LastGrantSnoc(s.history, e, n);
      }
    }
  }

  lemma {:induction false} RunKeeps(events: seq<Event>)
    ensures Inv(Run(Empty, events))
  {
    if events != [] {
      var s, e := Run(Empty, events[..|events| - 1]), events[|events| - 1];
      RunKeeps(events[..|events| - 1]);
      match e
      case DoAcquire(name, holder, now, ttl) => AcquireKeeps(s, name, holder, now, ttl);
      case DoBegin(f, now) =>
      case DoCommit(f, now) => CommitKeeps(s, f, now);
    }
  }

  // ---- Main results ----

  /** A later grant's token is at least the newest one any prefix has seen. */
  lemma {:induction false} LastGrantGrows(h: seq<Entry>, i: nat, j: nat, name: Name)
    requires HistoryOk(h) && i <= j <= |h| && LastGrant(h[..i], name).Some?
    ensures LastGrant(h[..j], name).Some?
    ensures LastGrant(h[..j], name).value.fence.token >= LastGrant(h[..i], name).value.fence.token
    decreases j
  {
    if i < j {
      LastGrantGrows(h, i, j - 1, name);
      assert EntryOk(h, j - 1);
      assert h[..j] == h[..j - 1] + [h[j - 1]];
      LastGrantSnoc(h[..j - 1], h[j - 1], name);
    }
  }

  /** Tokens handed out for one name strictly increase, whatever the workers' clocks say. */
  lemma {:induction false} GrantsStrictlyIncrease(events: seq<Event>, i: nat, j: nat)
    requires i < j < |Run(Empty, events).history|
    requires Run(Empty, events).history[i].Grant? && Run(Empty, events).history[j].Grant?
    requires Run(Empty, events).history[i].fence.name == Run(Empty, events).history[j].fence.name
    ensures Run(Empty, events).history[i].fence.token < Run(Empty, events).history[j].fence.token
  {
    RunKeeps(events);
    var h := Run(Empty, events).history;
    assert h[..i + 1] == h[..i] + [h[i]];
    LastGrantSnoc(h[..i], h[i], h[i].fence.name);
    LastGrantGrows(h, i + 1, j, h[i].fence.name);
    assert EntryOk(h, j);
  }

  /** Every entry after a grant carries at least its token: no commit of an earlier holder after a takeover. */
  lemma {:induction false} NoCommitAfterTakeover(events: seq<Event>, i: nat, j: nat)
    requires i < j < |Run(Empty, events).history|
    requires Run(Empty, events).history[i].Grant? && Run(Empty, events).history[j].Commit?
    requires Run(Empty, events).history[i].fence.name == Run(Empty, events).history[j].fence.name
    ensures Run(Empty, events).history[i].fence.token <= Run(Empty, events).history[j].fence.token
    ensures Run(Empty, events).history[i].fence.token == Run(Empty, events).history[j].fence.token ==>
      Run(Empty, events).history[i].fence == Run(Empty, events).history[j].fence
  {
    RunKeeps(events);
    EntryAfterGrant(Run(Empty, events).history, i, j);
  }

  lemma EntryAfterGrant(h: seq<Entry>, i: nat, j: nat)
    requires HistoryOk(h) && i < j < |h| && h[i].Grant? && h[j].Commit? && h[i].fence.name == h[j].fence.name
    ensures h[i].fence.token <= h[j].fence.token
    ensures h[i].fence.token == h[j].fence.token ==> h[i].fence == h[j].fence
  {
    var name := h[i].fence.name;
    assert h[..i + 1] == h[..i] + [h[i]];
    LastGrantSnoc(h[..i], h[i], name);
    LastGrantGrows(h, i + 1, j, name);
    assert EntryOk(h, j);
    if h[i].fence.token == h[j].fence.token {
      SameTokenSameGrant(h, i + 1, j, name);
    }
  }

  lemma {:induction false} SameTokenSameGrant(h: seq<Entry>, i: nat, j: nat, name: Name)
    requires HistoryOk(h) && i <= j <= |h|
    requires LastGrant(h[..i], name).Some? && LastGrant(h[..j], name).Some?
    requires LastGrant(h[..i], name).value.fence.token == LastGrant(h[..j], name).value.fence.token
    ensures LastGrant(h[..i], name) == LastGrant(h[..j], name)
    decreases j
  {
    if i < j {
      LastGrantGrows(h, i, j - 1, name);
      assert EntryOk(h, j - 1);
      assert h[..j] == h[..j - 1] + [h[j - 1]];
      LastGrantSnoc(h[..j - 1], h[j - 1], name);
      SameTokenSameGrant(h, i, j - 1, name);
    }
  }

  /** Fenced transactions of one name commit in non-decreasing token order. */
  lemma {:induction false} CommitsFollowTokenOrder(events: seq<Event>, i: nat, j: nat)
    requires i < j < |Run(Empty, events).history|
    requires Run(Empty, events).history[i].Commit? && Run(Empty, events).history[j].Commit?
    requires Run(Empty, events).history[i].fence.name == Run(Empty, events).history[j].fence.name
    ensures Run(Empty, events).history[i].fence.token <= Run(Empty, events).history[j].fence.token
  {
    RunKeeps(events);
    var h := Run(Empty, events).history;
    assert EntryOk(h, i) && EntryOk(h, j);
    LastGrantGrows(h, i, j, h[i].fence.name);
  }

  /** A different holder is granted a name only once the grant before it has expired, and commits stay inside it. */
  lemma {:induction false} TakeoverWaitsForExpiry(events: seq<Event>, i: nat)
    requires i < |Run(Empty, events).history|
    ensures
      var h := Run(Empty, events).history;
      var before := LastGrant(h[..i], h[i].fence.name);
      && (h[i].Grant? && before.Some? && before.value.fence.holder != h[i].fence.holder ==>
            before.value.Grant? && h[i].at >= before.value.until)
      && (h[i].Commit? ==> before.Some? && before.value.Grant? && before.value.fence == h[i].fence && h[i].at < before.value.until)
  {
    RunKeeps(events);
    assert EntryOk(Run(Empty, events).history, i);
  }

  // ---- The table ----

  class TaskLeases {
    var leases: map<Name, Lease>
    ghost var begun: multiset<Fence>
    ghost var history: seq<Entry>
    ghost var events: seq<Event>

    ghost function Tables(): State
      reads this
    {
      State(leases, begun, history)
    }

    ghost predicate Valid()
      reads this
    {
      Tables() == Run(Empty, events)
    }

    constructor ()
      ensures Valid() && Tables() == Empty
    {
      leases, begun, history, events := map[], multiset{}, [], [];
    }

    method AcquireLease(name: Name, holder: Holder, now: int, ttl: nat) returns (token: Option<nat>)
      requires Valid()
      modifies this
      ensures Valid() && (Tables(), token) == Acquire(old(Tables()), name, holder, now, ttl)
      ensures token.Some? ==>
        forall e :: e in old(history) && e.Grant? && e.fence.name == name ==> e.fence.token < token.value
      ensures token.None? <==> name in old(leases) && old(leases)[name].until > now && old(leases)[name].holder != holder
      ensures token.None? ==> leases == old(leases)
      ensures token.Some? ==> leases == old(leases)[name := Lease(holder, token.value, now + ttl)]
    {
      ghost var e := DoAcquire(name, holder, now, ttl);
      assert (events + [e])[..|events|] == events;
      events := events + [e];
      if name in leases && (leases[name].until <= now || leases[name].holder == holder) {
        var next := leases[name].token + 1;
        leases := leases[name := Lease(holder, next, now + ttl)];
        token := Some(next);
      } else if name !in leases {
        leases := leases[name := Lease(holder, 1, now + ttl)];
        token := Some(1);
      } else {
        token := None;
      }
      if token.Some? {
        history := history + [Grant(Fence(name, holder, token.value), now, now + ttl)];
        forall g | g in old(history) && g.Grant? && g.fence.name == name ensures g.fence.token < token.value {
          var i :| 0 <= i < |old(history)| && old(history)[i] == g;
          assert history[i] == g && history[|old(history)|].fence.token == token.value;
          GrantsStrictlyIncrease(events, i, |old(history)|);
        }
      }
    }

    /** A fenced transaction: `began` and `ends` are the two clock readings of its checks. */
    method RunFenced(f: Fence, began: int, ends: int) returns (committed: bool)
      requires Valid()
      modifies this
      ensures Valid() && leases == old(leases) && begun == old(begun)
      ensures committed <==>
        && f.name in leases && leases[f.name].holder == f.holder && leases[f.name].token == f.token
        && began < leases[f.name].until && ends < leases[f.name].until
      ensures history == if committed then old(history) + [Commit(f, ends)] else old(history)
    {
      committed := f.name in leases && leases[f.name].holder == f.holder && leases[f.name].token == f.token
                   && leases[f.name].until > began;
      if committed {
        ghost var e, d := DoBegin(f, began), DoCommit(f, ends);
        assert (events + [e])[..|events|] == events;
        assert (events + [e] + [d])[..|events| + 1] == events + [e];
        events := events + [e] + [d];
        assert begun + multiset{f} - multiset{f} == begun;
        committed := leases[f.name].until > ends;
        if committed {
          history := history + [Commit(f, ends)];
        }
      }
    }
  }
}
