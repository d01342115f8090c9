/** The inbox runtime, the relay it listens to and the clock: every method commits steps of `InboxSessions`. */
module InboxEngine {
  import opened Wrappers
  import opened InboxSessions

  class InboxRuntime {
    var now: real
    var stored: set<Wrap>
    var cursor: Option<int>
    var opening: map<SubId, int>
    var subs: map<SubId, Sub>
    var handed: set<Wrap>
    ghost var first: Option<Sub>
    ghost var history: seq<Event>
    ghost const began: real

    ghost function World(): State
      reads this
    {
      State(now, stored, cursor, opening, subs, handed, first)
    }

    ghost predicate Valid()
      reads this
    {
      World() == Run(Init(began), history)
    }

    constructor (clock: real)
      ensures Valid() && World() == Init(clock)
    {
      began := clock;
      now, stored, cursor, opening, subs, handed := clock, {}, None, map[], map[], {};
      first, history := None, [];
    }

    method Tick(to: real)
      requires Valid() && to >= now
      modifies this
      ensures Valid() && World() == Advance(old(World()), to) && now == to
    {
      ghost var s, next := World(), history + [DoAdvance(to)];
      RunSnoc(Init(began), history, DoAdvance(to));
      assert Run(Init(began), next) == Advance(s, to);
      history := next;
      now := to;
    }

    /** The relay stores a wrap that arrives now. */
    method RelayStores(id: nat, created: nat) returns (w: Wrap)
      requires Valid()
      modifies this
      ensures w == Wrap(id, created, now) && w in stored
      ensures Valid() && World() == Arrive(old(World()), w)
    {
      w := Wrap(id, created, now);
      ghost var s, next := World(), history + [DoArrive(w)];
      RunSnoc(Init(began), history, DoArrive(w));
      assert Run(Init(began), next) == Arrive(s, w);
      history := next;
      stored := stored + {w};
    }

    /** `subscribe_to` has returned: the subscription id is recorded. */
    method Registered(k: SubId)
      requires Valid() && k in subs
      modifies this
      ensures Valid() && World() == Register(old(World()), k)
      ensures k in subs && subs[k].registered && cursor == old(cursor)
    {
      ghost var s, next := World(), history + [DoRegister(k)];
      RunSnoc(Init(began), history, DoRegister(k));
      assert Run(Init(began), next) == Register(s, k);
      history := next;
      subs := subs[k := subs[k].(registered := true)];
    }

    /** After an AUTH answer: the same session and filter under a new subscription id. */
    method MaybeResubscribe(k: SubId, again: SubId)
      requires Valid() && k in subs && again !in subs && again !in opening
      modifies this
      ensures Valid() && World() == Resubscribe(old(World()), k, again)
      ensures again in subs && subs[again].start == old(subs)[k].start && SinceOf(subs[again]) == SinceOf(old(subs)[k])
    {
      ghost var s, next := World(), history + [DoResubscribe(k, again)];
      RunSnoc(Init(began), history, DoResubscribe(k, again));
      assert Run(Init(began), next) == Resubscribe(s, k, again);
      history := next;
      subs := subs[again := subs[k].(registered := false, sent := {})];
    }

    /** Start time first, then the cursor, then the REQ. */
    method Open(k: SubId) returns (since: nat)
      requires Valid() && k !in opening && k !in subs
      modifies this
      ensures Valid() && World() == Subscribe(Start(old(World()), k), k)
      ensures k in subs && subs[k].start == now.Floor && since == SinceOf(subs[k]) && !subs[k].registered
    {
      StartSession(k);
      since := SubscribeTo(k);
    }

    method StartSession(k: SubId)
      requires Valid() && k !in opening && k !in subs
      modifies this
      ensures Valid() && World() == Start(old(World()), k)
    {
      ghost var s, next := World(), history + [DoStart(k)];
      RunSnoc(Init(began), history, DoStart(k));
      assert Run(Init(began), next) == Start(s, k);
      history := next;
      opening := opening[k := now.Floor];
    }

    method SubscribeTo(k: SubId) returns (since: nat)
      requires Valid() && k in opening && k !in subs
      modifies this
      ensures Valid() && World() == Subscribe(old(World()), k)
      ensures since == Since(old(opening)[k], cursor)
    {
      ghost var s, next := World(), history + [DoSubscribe(k)];
      RunSnoc(Init(began), history, DoSubscribe(k));
      assert Run(Init(began), next) == Subscribe(s, k);
      history := next;
      since := Since(opening[k], cursor);
      subs := subs[k := Sub(opening[k], cursor, false, {})];
      opening := opening - {k};
    }

    /** An event for a recorded subscription is handed on, any other is dropped. */
    method OnEvent(k: SubId, w: Wrap)
      requires Valid() && (k in subs ==> w in stored && w.created >= SinceOf(subs[k]))
      modifies this
      ensures Valid() && World() == Deliver(old(World()), k, w)
      ensures w in handed <==> w in old(handed) || (k in old(subs) && old(subs)[k].registered)
      ensures cursor == old(cursor)
    {
      ghost var s, next := World(), history + [DoDeliver(k, w)];
      RunSnoc(Init(began), history, DoDeliver(k, w));
      assert Run(Init(began), next) == Deliver(s, k, w);
      history := next;
      if k in subs {
        if subs[k].registered {
          handed := handed + {w};
        }
        subs := subs[k := subs[k].(sent := subs[k].sent + {w})];
      }
    }

    /** The cursor moves to the session's start, and only here. */
    method OnEose(k: SubId)
      requires Valid() && (k in subs ==> AllSent(World(), k))
      modifies this
      ensures Valid() && World() == Eose(old(World()), k)
      ensures cursor == if k in subs && subs[k].registered then Some(subs[k].start) else old(cursor)
    {
      ghost var s, next := World(), history + [DoEose(k)];
      RunSnoc(Init(began), history, DoEose(k));
      assert Run(Init(began), next) == Eose(s, k);
      history := next;
      if k in subs && subs[k].registered {
        cursor := Some(subs[k].start);
        if first.None? {
          first := Some(subs[k]);
        }
      }
    }

    method CloseSession(k: SubId)
      requires Valid()
      modifies this
      ensures Valid() && World() == Close(old(World()), k) && cursor == old(cursor)
    {
      ghost var s, next := World(), history + [DoClose(k)];
      RunSnoc(Init(began), history, DoClose(k));
      assert Run(Init(began), next) == Close(s, k);
      history := next;
      subs, opening := subs - {k}, opening - {k};
    }
  }
}
