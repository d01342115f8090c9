/** The selection of every queue claim: ORDER BY next_attempt_at, id LIMIT :limit. */
module Ranking {

  predicate Before(at: map<nat, int>, a: nat, b: nat)
    requires a in at && b in at
  {
    at[a] < at[b] || (at[a] == at[b] && a < b)
  }

  /** Rows in order, none left out before one taken, the limit used up if any remain. */
  ghost predicate Ranked(at: map<nat, int>, limit: nat, ids: seq<nat>) {
    && |ids| <= limit
    && (forall i :: 0 <= i < |ids| ==> ids[i] in at)
    && (forall i, j :: 0 <= i < j < |ids| ==> Before(at, ids[i], ids[j]))
    && (forall id :: id in at && id !in ids ==> |ids| == limit && forall i :: 0 <= i < |ids| ==> Before(at, ids[i], id))
  }

  /** Taken rows come by time, then id; a row is left out only when the limit is used up by rows no later than it. */
  lemma RankedByTime(at: map<nat, int>, limit: nat, ids: seq<nat>)
    requires Ranked(at, limit, ids)
    ensures forall i, j :: 0 <= i < j < |ids| ==>
      at[ids[i]] <= at[ids[j]] && (at[ids[i]] == at[ids[j]] ==> ids[i] < ids[j])
    ensures forall id :: id in at && id !in ids ==>
      |ids| == limit && forall i :: 0 <= i < |ids| ==> at[ids[i]] <= at[id] && (at[ids[i]] == at[id] ==> ids[i] < id)
  {
  }

  lemma {:induction false} FirstExists(at: map<nat, int>, ids: set<nat>) returns (m: nat)
    requires ids != {} && ids <= at.Keys
    ensures m in ids && forall x :: x in ids && x != m ==> Before(at, m, x)
    decreases |ids|
  {
    var id :| id in ids;
    m := id;
    if ids != {id} {
      assert ids == {id} + (ids - {id});
      var rest := FirstExists(at, ids - {id});
      m := if Before(at, id, rest) then id else rest;
    }
  }

  lemma SomeElement(ids: set<nat>) returns (m: nat)
    requires ids != {}
    ensures m in ids
  {
    m :| m in ids;
  }

  method SelectFirst(at: map<nat, int>, limit: nat) returns (ids: seq<nat>)
    ensures Ranked(at, limit, ids)
  {
    ids := [];
    var left := at.Keys;
    while |ids| < limit && left != {}
      invariant left <= at.Keys && |ids| <= limit
      invariant forall i :: 0 <= i < |ids| ==> ids[i] in at && ids[i] !in left
      invariant forall id :: id in at && id !in ids ==> id in left
      invariant forall i, j :: 0 <= i < j < |ids| ==> Before(at, ids[i], ids[j])
      invariant forall i, id :: 0 <= i < |ids| && id in left ==> Before(at, ids[i], id)
      decreases |left|
    {
      ghost var m := FirstExists(at, left);
      var first :| first in left && forall x :: x in left && x != first ==> Before(at, first, x);
      ids := ids + [first];
      left := left - {first};
    }
  }
}
