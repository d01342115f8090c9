/** Relay sessions and cursors of one merchant on one relay (infinitemarkets/services/inbox.py). */
module InboxSessions {
  import opened Wrappers

  type SubId = nat

  const DAY := 86400
  const FIRST_BACKTRACK := 30 * DAY
  const OVERLAP := 3 * DAY

  /** A gift wrap: the time it claims, and the moment the relay stored it. */
  datatype Wrap = Wrap(id: nat, created: nat, arrived: real)

  /** One REQ: the start of its session, the cursor its filter was built from, what the relay has sent for it. */
  datatype Sub = Sub(start: int, base: Option<int>, registered: bool, sent: set<Wrap>)

  datatype State = State(
    now: real,
    stored: set<Wrap>,
    cursor: Option<int>,          // last_completed_session_start
    opening: map<SubId, int>,     // sessions started, cursor not read yet
    subs: map<SubId, Sub>,
    handed: set<Wrap>,            // given to admit_event
    first: Option<Sub>)           // the first session that committed a cursor

  /** `_cursor_since` with the filter's lower bound of zero; a zero cursor counts as none. */
  function Since(start: int, base: Option<int>): nat {
    var since := if base.Some? && base.value != 0 then base.value - OVERLAP else start - FIRST_BACKTRACK;
    if since < 0 then 0 else since
  }

  function SinceOf(sub: Sub): nat {
    Since(sub.start, sub.base)
  }

  // ---- The steps ----

  function Advance(s: State, to: real): State {
    if to >= s.now then s.(now := to) else s
  }

  function Arrive(s: State, w: Wrap): State {
    if w.arrived == s.now then s.(stored := s.stored + {w}) else s
  }

  /** A session takes its start time first ... */
  function Start(s: State, k: SubId): State {
    if k in s.opening || k in s.subs then s else s.(opening := s.opening[k := s.now.Floor])
  }

  /** ... then reads the cursor and sends the REQ. */
  function Subscribe(s: State, k: SubId): State {
    if k !in s.opening then s
    else s.(subs := s.subs[k := Sub(s.opening[k], s.cursor, false, {})], opening := s.opening - {k})
  }

  /** The subscription id reaches `_by_sub` once `subscribe_to` has returned. */
  function Register(s: State, k: SubId): State {
    if k in s.subs then s.(subs := s.subs[k := s.subs[k].(registered := true)]) else s
  }

  /** After an AUTH answer the same filter is sent again under a new id. */
  function Resubscribe(s: State, k: SubId, again: SubId): State {
    if k !in s.subs || again in s.subs || again in s.opening then s
    else s.(subs := s.subs[again := s.subs[k].(registered := false, sent := {})])
  }

  /** The relay sends a stored or newly arrived match; an unknown subscription id drops it. */
  function Deliver(s: State, k: SubId, w: Wrap): State {
    if k !in s.subs || w !in s.stored || w.created < SinceOf(s.subs[k]) then s
    else
      s.(subs := s.subs[k := s.subs[k].(sent := s.subs[k].sent + {w})],
         handed := if s.subs[k].registered then s.handed + {w} else s.handed)
  }

  /** NIP-01: EOSE comes after every match stored before the REQ. */
  predicate AllSent(s: State, k: SubId)
    requires k in s.subs
  {
    forall w :: w in s.stored && w.arrived < s.subs[k].start as real && w.created >= SinceOf(s.subs[k]) ==>
      w in s.subs[k].sent
  }

  /** EOSE commits the session START. */
  function Eose(s: State, k: SubId): State {
    if k !in s.subs || !AllSent(s, k) || !s.subs[k].registered then s
    else s.(cursor := Some(s.subs[k].start), first := if s.first.None? then Some(s.subs[k]) else s.first)
  }

  /** A close, a CLOSED message or a crash: the session is gone, the cursor stays. */
  function Close(s: State, k: SubId): State {
    s.(subs := s.subs - {k}, opening := s.opening - {k})
  }

  datatype Event =
    | DoAdvance(to: real)
    | DoArrive(w: Wrap)
    | DoStart(k: SubId)
    | DoSubscribe(k: SubId)
    | DoRegister(k: SubId)
    | DoResubscribe(k: SubId, again: SubId)
    | DoDeliver(k: SubId, w: Wrap)
    | DoEose(k: SubId)
    | DoClose(k: SubId)

  function Apply(s: State, e: Event): State {
    match e
    case DoAdvance(to) => Advance(s, to)
    case DoArrive(w) => Arrive(s, w)
    case DoStart(k) => Start(s, k)
    case DoSubscribe(k) => Subscribe(s, k)
    case DoRegister(k) => Register(s, k)
    case DoResubscribe(k, again) => Resubscribe(s, k, again)
    case DoDeliver(k, w) => Deliver(s, k, w)
    case DoEose(k) => Eose(s, k)
    case DoClose(k) => Close(s, k)
  }

  function Init(now: real): State {
    State(now, {}, None, map[], map[], {}, None)
  }

  function Run(s: State, events: seq<Event>): State {
    if events == [] then s else Apply(Run(s, events[..|events| - 1]), events[|events| - 1])
  }

  lemma RunSnoc(s: State, events: seq<Event>, e: Event)
    ensures Run(s, events + [e]) == Apply(Run(s, events), e)
  {
    assert (events + [e])[..|events|] == events;
  }

  // ---- When each step acts ----

  /** A first session reaches back 30 days, a later one three days behind the cursor, and none before time zero. */
  lemma SinceExactly(start: int, cursor: int)
    ensures Since(start, None) == Since(start, Some(0)) == if start > 30 * 24 * 3600 then start - 30 * 24 * 3600 else 0
    ensures cursor != 0 ==> Since(start, Some(cursor)) == if cursor > 3 * 24 * 3600 then cursor - 3 * 24 * 3600 else 0
  {
  }

  /** A session keeps its start time and takes the cursor of the moment it subscribes; its id is registered later. */
  lemma SubscriptionSteps(s: State, k: SubId, again: SubId)
    ensures
      Start(s, k) == if k in s.opening.Keys + s.subs.Keys then s else s.(opening := s.opening[k := s.now.Floor])
    ensures k in s.opening ==>
      Subscribe(s, k) == s.(subs := s.subs[k := Sub(s.opening[k], s.cursor, false, {})], opening := s.opening - {k})
    ensures k !in s.opening ==> Subscribe(s, k) == s
    ensures k in s.subs ==>
      Register(s, k) == s.(subs := s.subs[k := Sub(s.subs[k].start, s.subs[k].base, true, s.subs[k].sent)])
    ensures k !in s.subs ==> Register(s, k) == s && Resubscribe(s, k, again) == s
    ensures k in s.subs && again !in s.subs.Keys + s.opening.Keys ==>
      Resubscribe(s, k, again) == s.(subs := s.subs[again := Sub(s.subs[k].start, s.subs[k].base, false, {})])
    ensures again in s.subs.Keys + s.opening.Keys ==> Resubscribe(s, k, again) == s
    ensures Close(s, k) == s.(subs := s.subs - {k}, opening := s.opening - {k})
  {
  }

  /** The relay sends what it stores inside the window; only a registered id hands it on. */
  lemma DeliverExactly(s: State, k: SubId, w: Wrap)
    ensures
      var t := Deliver(s, k, w);
      var sends := k in s.subs && w in s.stored && w.created >= Since(s.subs[k].start, s.subs[k].base);
      && t.(subs := s.subs, handed := s.handed) == s
      && t.handed == s.handed + (if sends && s.subs[k].registered then {w} else {})
      && t.subs == if sends then s.subs[k := s.subs[k].(sent := s.subs[k].sent + {w})] else s.subs
  {
  }

  /** The cursor becomes the start of a registered session once everything stored before it, in its window, was sent. */
  lemma EoseExactly(s: State, k: SubId)
    ensures
      var complete :=
        k in s.subs && s.subs[k].registered &&
        forall w :: w in s.stored && w.arrived < s.subs[k].start as real && w.created >= Since(s.subs[k].start, s.subs[k].base) ==>
          w in s.subs[k].sent;
      Eose(s, k) ==
        if complete
        then s.(cursor := Some(s.subs[k].start), first := if s.first == None then Some(s.subs[k]) else s.first)
        else s
  {
  }

  lemma ClockAndRelay(s: State, to: real, w: Wrap)
    ensures Advance(s, to) == s.(now := if to > s.now then to else s.now)
    ensures Arrive(s, w) == s.(stored := s.stored + if w.arrived == s.now then {w} else {})
  {
  }

  // ---- What is promised ----

  /** Backdated by at most the overlap, and inside the first completed session's window. */
  predicate Promised(s: State, w: Wrap) {
    && w in s.stored
    && w.created as real >= w.arrived - OVERLAP as real
    && s.first.Some? && w.created >= SinceOf(s.first.value)
  }
}
