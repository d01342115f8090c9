/**
 * Row locks of concurrent claims (harness/tx.py: products are claimed in
 * sorted id order so that PostgreSQL claims cannot deadlock).
 */
module Locks {
  import opened Inventory

  /** A transaction that still has to lock `wants[taken..]`; committing clears both. */
  datatype Claim = Claim(wants: seq<nat>, taken: nat)

  predicate InOrder(wants: seq<nat>) {
    forall i, j :: 0 <= i < j < |wants| ==> wants[i] <= wants[j]
  }

  /** The product rows a cart locks. */
  function LockOrder(items: seq<Item>): (r: seq<nat>)
    ensures |r| == |items|
  {
    seq(|items|, i requires 0 <= i < |items| => items[i].product)
  }

  predicate Holds(c: Claim, lock: nat) {
    c.taken <= |c.wants| && lock in c.wants[..c.taken]
  }

  predicate Waiting(c: Claim) {
    c.taken < |c.wants|
  }

  /** Claim `i` waits for a row that another claim has locked. */
  predicate Blocked(cs: seq<Claim>, i: nat)
    requires i < |cs|
  {
    Waiting(cs[i]) && exists j :: 0 <= j < |cs| && j != i && Holds(cs[j], cs[i].wants[cs[i].taken])
  }

  /** `sorts` is the program's order; without it a claim would lock in the order of its cart. */
  datatype Event = Start(items: seq<Item>, sorts: bool) | Lock(claim: nat) | Commit(claim: nat)

  /** A lock request that is blocked waits; a commit needs every lock and releases them all. */
  function Apply(cs: seq<Claim>, e: Event): seq<Claim> {
    match e
    case Start(items, sorts) => cs + [Claim(LockOrder(if sorts then SortByProduct(items) else items), 0)]
    case Lock(i) =>
      if i < |cs| && Waiting(cs[i]) && !Blocked(cs, i) then cs[i := cs[i].(taken := cs[i].taken + 1)] else cs
    case Commit(i) => if i < |cs| && !Waiting(cs[i]) then cs[i := Claim([], 0)] else cs
  }

  function Run(events: seq<Event>): seq<Claim> {
    if events == [] then [] else Apply(Run(events[..|events| - 1]), events[|events| - 1])
  }

  /** A lock is granted exactly while no other claim has the row; a commit needs every lock, and gives all of them back. */
  lemma StepsExactly(cs: seq<Claim>, i: nat)
    requires i < |cs|
    ensures
      var next := cs[i].taken;
      Apply(cs, Lock(i)) ==
      if && next < |cs[i].wants|
         && forall j, k :: 0 <= j < |cs| && j != i && 0 <= k < cs[j].taken <= |cs[j].wants| ==> cs[j].wants[k] != cs[i].wants[next]
      then cs[i := Claim(cs[i].wants, next + 1)] else cs
    ensures Apply(cs, Commit(i)) == if cs[i].taken >= |cs[i].wants| then cs[i := Claim([], 0)] else cs
  {
    if Waiting(cs[i]) {
      var lock := cs[i].wants[cs[i].taken];
      forall j | 0 <= j < |cs| && j != i
        ensures Holds(cs[j], lock) <==> exists k :: 0 <= k < cs[j].taken <= |cs[j].wants| && cs[j].wants[k] == lock
      {
        HeldAt(cs[j], lock);
      }
    }
  }

  lemma HeldAt(c: Claim, lock: nat)
    ensures Holds(c, lock) <==> exists k :: 0 <= k < c.taken <= |c.wants| && c.wants[k] == lock
  {
    if Holds(c, lock) {
      var k :| 0 <= k < c.taken && c.wants[..c.taken][k] == lock;
      assert c.wants[k] == lock;
    }
    if k :| 0 <= k < c.taken <= |c.wants| && c.wants[k] == lock {
      assert c.wants[..c.taken][k] == lock;
    }
  }

  /** Sorted requests, and no row locked twice. */
  ghost predicate Inv(cs: seq<Claim>) {
    && (forall i :: 0 <= i < |cs| ==> InOrder(cs[i].wants) && cs[i].taken <= |cs[i].wants|)
    && (forall i, j, lock :: 0 <= i < |cs| && 0 <= j < |cs| && i != j && Holds(cs[i], lock) ==> !Holds(cs[j], lock))
  }

  lemma StartKeeps(cs: seq<Claim>, items: seq<Item>)
    requires Inv(cs)
    ensures Inv(Apply(cs, Start(items, true)))
  {
    SortIsSorted(items);
  }

  lemma LockKeeps(cs: seq<Claim>, i: nat)
    requires Inv(cs) && i < |cs| && Waiting(cs[i]) && !Blocked(cs, i)
    ensures Inv(cs[i := cs[i].(taken := cs[i].taken + 1)])
  {
    var after, taken := cs[i := cs[i].(taken := cs[i].taken + 1)], cs[i].wants[cs[i].taken];
    assert cs[i].wants[..cs[i].taken + 1] == cs[i].wants[..cs[i].taken] + [taken];
    assert forall lock :: Holds(after[i], lock) ==> Holds(cs[i], lock) || lock == taken;
  }

  lemma CommitKeeps(cs: seq<Claim>, i: nat)
    requires Inv(cs) && i < |cs|
    ensures Inv(cs[i := Claim([], 0)])
  {
  }

  lemma StepKeeps(cs: seq<Claim>, e: Event)
    requires Inv(cs) && (e.Start? ==> e.sorts)
    ensures Inv(Apply(cs, e))
  {
    match e
    case Start(items, sorts) => StartKeeps(cs, items);
    case Lock(i) => if i < |cs| && Waiting(cs[i]) && !Blocked(cs, i) { LockKeeps(cs, i); }
    case Commit(i) => if i < |cs| && !Waiting(cs[i]) { CommitKeeps(cs, i); }
  }

  predicate AllSorted(events: seq<Event>) {
    forall i :: 0 <= i < |events| && events[i].Start? ==> events[i].sorts
  }

  lemma {:induction false} RunKeeps(events: seq<Event>)
    requires AllSorted(events)
    ensures Inv(Run(events))
  {
    if events != [] {
      RunKeeps(events[..|events| - 1]);
      StepKeeps(Run(events[..|events| - 1]), events[|events| - 1]);
    }
  }

  /** In every run of sorted claims no two of them have locked the same row. */
  lemma {:induction false} RowsAreLockedOnce(events: seq<Event>, i: nat, j: nat, a: nat, b: nat)
    requires AllSorted(events) && i < |Run(events)| && j < |Run(events)| && i != j
    requires a < Run(events)[i].taken && b < Run(events)[j].taken
    ensures Run(events)[i].taken <= |Run(events)[i].wants| && Run(events)[j].taken <= |Run(events)[j].wants|
    ensures Run(events)[i].wants[a] != Run(events)[j].wants[b]
  {
    RunKeeps(events);
    var c, d := Run(events)[i], Run(events)[j];
    HeldAt(c, c.wants[a]);
    HeldAt(d, d.wants[b]);
  }

  /** The waiting claims strictly above `floor`, counted. */
  function Above(cs: seq<Claim>, floor: nat): set<nat> {
    set i | 0 <= i < |cs| && Waiting(cs[i]) && cs[i].wants[cs[i].taken] > floor
  }

  /** Following the holder of the awaited row climbs to ever larger rows, so it ends at a claim that can run. */
  lemma {:induction false} Climb(cs: seq<Claim>, i: nat) returns (free: nat)
    requires Inv(cs) && i < |cs| && Waiting(cs[i])
    ensures free < |cs| && (free == i || cs[free].taken > 0) && !Blocked(cs, free)
    decreases Above(cs, cs[i].wants[cs[i].taken])
  {
    if !Blocked(cs, i) {
      return i;
    }
    var lock := cs[i].wants[cs[i].taken];
    var j :| 0 <= j < |cs| && j != i && Holds(cs[j], lock);
    if !Waiting(cs[j]) {
      return j;
    }
    var next := cs[j].wants[cs[j].taken];
    var k :| 0 <= k < cs[j].taken && cs[j].wants[k] == lock;
    assert lock <= next;
    if !Blocked(cs, j) {
      return j;
    }
    assert j in Above(cs, lock) && j !in Above(cs, next);
    assert Above(cs, next) <= Above(cs, lock);
    free := Climb(cs, j);
  }

  /** In every run of sorted claims, whenever some claim waits, some claim can take its next lock or commit. */
  lemma {:induction false} SortedClaimsNeverDeadlock(events: seq<Event>, i: nat) returns (free: nat)
    requires AllSorted(events) && i < |Run(events)| && Waiting(Run(events)[i])
    ensures free < |Run(events)| && Run(events)[free].wants != [] && !Blocked(Run(events), free)
    ensures Apply(Run(events), if Waiting(Run(events)[free]) then Lock(free) else Commit(free)) != Run(events)
  {
    RunKeeps(events);
    var cs := Run(events);
    free := Climb(cs, i);
    if Waiting(cs[free]) {
      assert Apply(cs, Lock(free))[free].taken == cs[free].taken + 1;
    } else {
      assert Apply(cs, Commit(free))[free].wants == [];
    }
  }

  lemma RunSnoc(events: seq<Event>, e: Event)
    ensures Run(events + [e]) == Apply(Run(events), e)
  {
    assert (events + [e])[..|events|] == events;
  }

  /** Cart order instead of sorted order deadlocks: two carts of the same two products, each holding what the other needs. */
  lemma UnsortedClaimsDeadlock(p: Item, q: Item) returns (events: seq<Event>)
    requires p.product != q.product
    ensures |Run(events)| == 2 && Blocked(Run(events), 0) && Blocked(Run(events), 1)
  {
    var e1 := [Start([p, q], false)];
    RunSnoc([], e1[0]);
    assert [] + e1 == e1;
    var e2 := e1 + [Start([q, p], false)];
    RunSnoc(e1, Start([q, p], false));
    var e3 := e2 + [Lock(0)];
    RunSnoc(e2, Lock(0));
    RunSnoc(e3, Lock(1));
    events := e3 + [Lock(1)];
    var pq, qp := [p.product, q.product], [q.product, p.product];
    assert LockOrder([p, q]) == pq && LockOrder([q, p]) == qp;
    assert Run(e2) == [Claim(pq, 0), Claim(qp, 0)];
    assert Run(e3) == [Claim(pq, 1), Claim(qp, 0)];
    var cs := Run(events);
    assert cs == [Claim(pq, 1), Claim(qp, 1)];
    assert pq[..1][0] == p.product && qp[..1][0] == q.product;
    assert Holds(cs[0], p.product) && Holds(cs[1], q.product);
  }
}
