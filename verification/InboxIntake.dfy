/** Inbox intake has no gap, apart from wraps delivered before their subscription is registered. */
module InboxIntake {
  import opened Wrappers
  import opened InboxSessions

  // ---- What a run must avoid ----

  /** This wrap is not delivered to a subscription id the runtime has not recorded yet. */
  predicate Attended(s: State, e: Event, w: Wrap) {
    e.DoDeliver? && e.w == w && e.k in s.subs ==> s.subs[e.k].registered
  }

  /** A session opened without a cursor commits only within 27 days of the first one that committed. */
  predicate Prompt(s: State, e: Event) {
    e.DoEose? && e.k in s.subs && s.subs[e.k].base.None? && s.first.Some? ==>
      s.subs[e.k].start <= s.first.value.start + FIRST_BACKTRACK - OVERLAP
  }

  // ---- Invariant ----

  predicate Timely(s: State) {
    && s.now >= 1.0
    && (s.cursor.Some? ==> 1 <= s.cursor.value <= s.now.Floor)
    && (forall k :: k in s.opening ==> 1 <= s.opening[k] <= s.now.Floor)
    && (forall k :: k in s.subs ==> 1 <= s.subs[k].start <= s.now.Floor)
    && (forall k :: k in s.subs && s.subs[k].base.Some? ==> 1 <= s.subs[k].base.value <= s.now.Floor)
    && (s.first.Some? ==> 1 <= s.first.value.start <= s.now.Floor)
  }

  /** If `w` is promised and the relay stored it before `t`, it was handed over. */
  predicate Covered(s: State, t: int, w: Wrap) {
    Promised(s, w) && w.arrived < t as real ==> w in s.handed
  }

  predicate Inv(s: State, w: Wrap) {
    && Timely(s)
    && (s.cursor.Some? <==> s.first.Some?)
    && (s.cursor.Some? ==> Covered(s, s.cursor.value, w))
    && (s.first.Some? ==> Covered(s, s.first.value.start, w))
    && (forall k :: k in s.subs && s.subs[k].base.Some? ==> s.first.Some? && Covered(s, s.subs[k].base.value, w))
    && (forall k :: k in s.subs && w in s.subs[k].sent ==> w in s.handed)
  }

  // ---- Each step ----

  lemma CoveredGrows(s: State, t: State, at: int, w: Wrap)
    requires s.first.Some? && s.first == t.first && Covered(s, at, w) && s.handed <= t.handed
    requires w in t.stored && w !in s.stored ==> w.arrived >= at as real
    ensures Covered(t, at, w)
  {
  }

  /**
   * EOSE: the wrap is among the stored matches, or it precedes the cursor the filter was built from, or it precedes the
   * first session that committed.
   */
  lemma EoseCovers(s: State, k: SubId, w: Wrap)
    requires Inv(s, w) && Prompt(s, DoEose(k)) && k in s.subs && s.subs[k].registered && AllSent(s, k)
    ensures Covered(Eose(s, k), s.subs[k].start, w)
  {
    var sub, t := s.subs[k], Eose(s, k);
    if Promised(t, w) && w.arrived < sub.start as real {
      if w.created >= SinceOf(sub) {
        assert w in sub.sent;
      } else if sub.base.Some? {
        assert Promised(s, w) && w.arrived < sub.base.value as real;
      } else {
        assert s.first.Some? && Promised(s, w) && w.arrived < s.first.value.start as real;
      }
    }
  }

  lemma EoseKeeps(s: State, k: SubId, w: Wrap)
    requires Inv(s, w) && Prompt(s, DoEose(k))
    ensures Inv(Eose(s, k), w)
  {
    if k in s.subs && s.subs[k].registered && AllSent(s, k) {
      EoseCovers(s, k, w);
      var t := Eose(s, k);
      if s.first.Some? {
        CoveredGrows(s, t, s.first.value.start, w);
        forall j | j in t.subs && t.subs[j].base.Some? ensures Covered(t, t.subs[j].base.value, w) {
          CoveredGrows(s, t, t.subs[j].base.value, w);
        }
      }
    }
  }

  /** Any other step: what was covered stays covered, and no filter is built from anything but the cursor. */
  lemma GrowthKeeps(s: State, t: State, w: Wrap)
    requires Inv(s, w) && Timely(t)
    requires s.first == t.first && s.cursor == t.cursor && s.handed <= t.handed
    requires w in t.stored && w !in s.stored ==> w.arrived >= s.now
    requires forall k :: k in t.subs && w in t.subs[k].sent ==> w in t.handed
    requires forall k :: k in t.subs && t.subs[k].base.Some? ==>
      t.subs[k].base == s.cursor || exists j :: j in s.subs && s.subs[j].base == t.subs[k].base
    ensures Inv(t, w)
  {
    forall at: int | s.first.Some? && Covered(s, at, w) && at <= s.now.Floor ensures Covered(t, at, w) {
      CoveredGrows(s, t, at, w);
    }
  }

  lemma SubscribeTimely(s: State, k: SubId)
    requires Timely(s)
    ensures Timely(Subscribe(s, k))
  {
  }

  lemma SubsTimely(s: State, k: SubId, again: SubId, w: Wrap)
    requires Timely(s)
    ensures Timely(Register(s, k)) && Timely(Resubscribe(s, k, again)) && Timely(Deliver(s, k, w))
  {
  }

  lemma EnvironmentTimely(s: State, to: real, k: SubId, w: Wrap)
    requires Timely(s)
    ensures Timely(Advance(s, to)) && Timely(Arrive(s, w)) && Timely(Start(s, k)) && Timely(Close(s, k))
  {
  }

  lemma StepTimely(s: State, e: Event)
    requires Timely(s)
    ensures Timely(Apply(s, e))
  {
    match e
    case DoAdvance(to) => EnvironmentTimely(s, to, 0, Wrap(0, 0, 0.0));
    case DoArrive(w) => EnvironmentTimely(s, 0.0, 0, w);
    case DoStart(k) => EnvironmentTimely(s, 0.0, k, Wrap(0, 0, 0.0));
    case DoSubscribe(k) => SubscribeTimely(s, k);
    case DoRegister(k) => SubsTimely(s, k, 0, Wrap(0, 0, 0.0));
    case DoResubscribe(k, again) => SubsTimely(s, k, again, Wrap(0, 0, 0.0));
    case DoDeliver(k, w) => SubsTimely(s, k, 0, w);
    case DoEose(k) =>
    case DoClose(k) => EnvironmentTimely(s, 0.0, k, Wrap(0, 0, 0.0));
  }

  lemma StepSent(s: State, e: Event, w: Wrap)
    requires Attended(s, e, w)
    requires forall k :: k in s.subs && w in s.subs[k].sent ==> w in s.handed
    ensures s.handed <= Apply(s, e).handed
    ensures forall k :: k in Apply(s, e).subs && w in Apply(s, e).subs[k].sent ==> w in Apply(s, e).handed
  {
  }

  lemma StepBases(s: State, e: Event)
    ensures forall k :: k in Apply(s, e).subs && Apply(s, e).subs[k].base.Some? ==>
      Apply(s, e).subs[k].base == s.cursor || exists j :: j in s.subs && s.subs[j].base == Apply(s, e).subs[k].base
  {
    forall k | k in Apply(s, e).subs && Apply(s, e).subs[k].base.Some? && Apply(s, e).subs[k].base != s.cursor
      ensures exists j :: j in s.subs && s.subs[j].base == Apply(s, e).subs[k].base
    {
      var j := if e.DoResubscribe? && k == e.again && e.again !in s.subs then e.k else k;
      assert j in s.subs && s.subs[j].base == Apply(s, e).subs[k].base;
    }
  }

  lemma {:induction false} StepKeeps(s: State, e: Event, w: Wrap)
    requires Inv(s, w) && Attended(s, e, w) && Prompt(s, e)
    ensures Inv(Apply(s, e), w)
  {
    if e.DoEose? {
      EoseKeeps(s, e.k, w);
    } else {
      StepTimely(s, e);
      StepSent(s, e, w);
      StepBases(s, e);
      var t := Apply(s, e);
      assert s.first == t.first && s.cursor == t.cursor;
      GrowthKeeps(s, t, w);
    }
  }

  ghost predicate Orderly(now: real, events: seq<Event>, w: Wrap) {
    forall i :: 0 <= i < |events| ==>
      Attended(Run(Init(now), events[..i]), events[i], w) && Prompt(Run(Init(now), events[..i]), events[i])
  }

  lemma {:induction false} RunKeeps(now: real, events: seq<Event>, w: Wrap)
    requires now >= 1.0 && Orderly(now, events, w)
    ensures Inv(Run(Init(now), events), w)
  {
    if events != [] {
      var front := events[..|events| - 1];
      forall i | 0 <= i < |front| ensures events[..i] == front[..i] && events[i] == front[i] {
      }
      assert Orderly(now, front, w);
      RunKeeps(now, front, w);
      StepKeeps(Run(Init(now), front), events[|events| - 1], w);
    }
  }

  // ---- Main results ----

  /** A promised wrap stored before the cursor time that no session was ever given. */
  predicate Gap(s: State, w: Wrap) {
    s.cursor.Some? && Promised(s, w) && w.arrived < s.cursor.value as real && w !in s.handed
  }

  /** No wrap is missing below the cursor except one that was itself delivered before registration. */
  lemma {:induction false} IntakeIsGapFree(now: real, events: seq<Event>, w: Wrap)
    requires now >= 1.0 && Orderly(now, events, w)
    ensures !Gap(Run(Init(now), events), w)
  {
    RunKeeps(now, events, w);
  }

  /** One worker: a new session starts only when no earlier one is left. */
  predicate Alone(s: State, e: Event) {
    e.DoStart? ==> s.opening == map[] && s.subs == map[]
  }

  predicate OneSession(s: State) {
    && (s.cursor.Some? <==> s.first.Some?)
    && (s.opening != map[] ==> s.subs == map[])
    && (forall j, k :: j in s.opening && k in s.opening ==> j == k)
    && (forall j, k :: j in s.subs && k in s.subs ==> s.subs[j].start == s.subs[k].start)
    && (forall k :: k in s.subs && s.subs[k].base.None? && s.first.Some? ==> s.subs[k].start == s.first.value.start)
  }

  lemma OneSessionKeeps(s: State, e: Event)
    requires OneSession(s) && Alone(s, e)
    ensures OneSession(Apply(s, e)) && Prompt(s, e)
  {
    if e.DoSubscribe? && e.k in s.opening {
      assert s.opening - {e.k} == map[];
    }
  }

  ghost predicate SingleWorker(now: real, events: seq<Event>) {
    forall i :: 0 <= i < |events| ==> Alone(Run(Init(now), events[..i]), events[i])
  }

  /** Every delivery of `w` in the run finds its subscription registered. */
  ghost predicate RunAttends(now: real, events: seq<Event>, w: Wrap) {
    forall i :: 0 <= i < |events| ==> Attended(Run(Init(now), events[..i]), events[i], w)
  }

  lemma {:induction false} SingleWorkerIsPrompt(now: real, events: seq<Event>)
    requires SingleWorker(now, events)
    ensures OneSession(Run(Init(now), events))
    ensures forall i :: 0 <= i < |events| ==> Prompt(Run(Init(now), events[..i]), events[i])
  {
    if events != [] {
      var front := events[..|events| - 1];
      forall i | 0 <= i < |front| ensures events[..i] == front[..i] && events[i] == front[i] {
      }
      assert SingleWorker(now, front);
      SingleWorkerIsPrompt(now, front);
      OneSessionKeeps(Run(Init(now), front), events[|events| - 1]);
    }
  }

  /**
   * With one worker, across any crashes, closes, re-subscriptions and re-opened sessions, and whatever happens to other
   * wraps: a wrap missing below the cursor was delivered before its subscription was registered.
   */
  lemma {:induction false} SingleWorkerIntakeIsGapFree(now: real, events: seq<Event>, w: Wrap)
    requires now >= 1.0 && SingleWorker(now, events) && Gap(Run(Init(now), events), w)
    ensures !RunAttends(now, events, w)
  {
    SingleWorkerIsPrompt(now, events);
    if RunAttends(now, events, w) {
      IntakeIsGapFree(now, events, w);
    }
  }

  // ---- Where it fails ----

  /** Any wrap backdated by at most three days: sent before `_by_sub` knows the subscription, it is dropped and passed. */
  lemma EarlyDeliveryIsLost(now: real, w: Wrap) returns (events: seq<Event>)
    requires now >= 1.0 && w.arrived == now && w.created as real >= now - OVERLAP as real
    ensures Gap(Run(Init(now), events), w) && SingleWorker(now, events)
  {
    var e1 := [DoArrive(w)];
    RunSnoc(Init(now), [], e1[0]);
    assert [] + [e1[0]] == e1;
    var e2 := e1 + [DoAdvance(now + 1.0)];
    RunSnoc(Init(now), e1, DoAdvance(now + 1.0));
    var e3 := e2 + [DoStart(0)];
    RunSnoc(Init(now), e2, DoStart(0));
    var e4 := e3 + [DoSubscribe(0)];
    RunSnoc(Init(now), e3, DoSubscribe(0));
    var start := (now + 1.0).Floor;
    assert Run(Init(now), e4) == State(now + 1.0, {w}, None, map[], map[0 := Sub(start, None, false, {})], {}, None);
    var e5 := e4 + [DoDeliver(0, w)];
    RunSnoc(Init(now), e4, DoDeliver(0, w));
    assert w.created >= Since(start, None);
    var e6 := e5 + [DoRegister(0)];
    RunSnoc(Init(now), e5, DoRegister(0));
    assert Run(Init(now), e6) == State(now + 1.0, {w}, None, map[], map[0 := Sub(start, None, true, {w})], {}, None);
    RunSnoc(Init(now), e6, DoEose(0));
    events := e6 + [DoEose(0)];
    assert events[..2] == e2;
  }

  /** The first session opens at `first`, and a wrap created three days before is stored in that very second. */
  lemma FirstSessionOpens(first: nat, second: int, w: Wrap) returns (events: seq<Event>)
    requires first >= OVERLAP && second > first && w.arrived == first as real
    ensures Run(Init(first as real), events) ==
      State(second as real, {w}, None, map[], map[0 := Sub(first, None, true, {})], {}, None)
  {
    var s := Init(first as real);
    var e1 := [DoArrive(w)];
    RunSnoc(s, [], e1[0]);
    assert [] + [e1[0]] == e1;
    var e2 := e1 + [DoStart(0)];
    RunSnoc(s, e1, DoStart(0));
    var e3 := e2 + [DoSubscribe(0)];
    RunSnoc(s, e2, DoSubscribe(0));
    RunSnoc(s, e3, DoRegister(0));
    var e4 := e3 + [DoRegister(0)];
    assert Run(s, e4) == State(first as real, {w}, None, map[], map[0 := Sub(first, None, true, {})], {}, None);
    RunSnoc(s, e4, DoAdvance(second as real));
    events := e4 + [DoAdvance(second as real)];
  }

  /**
   * The 27 days are exact: whenever a second cursorless session starts later than that after the first one, a wrap
   * stored at the first start and backdated by three days is in neither window, though nothing was dropped.
   */
  lemma FarApartSessionsLeaveAGap(first: nat, second: int, w: Wrap) returns (events: seq<Event>)
    requires first >= OVERLAP && second > first + FIRST_BACKTRACK - OVERLAP
    requires w.arrived == first as real && w.created == first - OVERLAP
    ensures Gap(Run(Init(first as real), events), w)
  {
    var s := Init(first as real);
    var e0 := FirstSessionOpens(first, second, w);
    var e1 := e0 + [DoStart(1)];
    RunSnoc(s, e0, DoStart(1));
    var e2 := e1 + [DoSubscribe(1)];
    RunSnoc(s, e1, DoSubscribe(1));
    var e3 := e2 + [DoRegister(1)];
    RunSnoc(s, e2, DoRegister(1));
    assert Run(s, e3).subs == map[0 := Sub(first, None, true, {}), 1 := Sub(second, None, true, {})];
    var e4 := e3 + [DoEose(0)];
    RunSnoc(s, e3, DoEose(0));
    RunSnoc(s, e4, DoEose(1));
    events := e4 + [DoEose(1)];
  }
}
