/** Bulk actions keep the intent log in step with membership. */
module CatalogTheorems {
  import opened Wrappers
  import opened Catalog

  lemma {:induction false} BumpAllFrame(s: State, cs: seq<CollectionId>)
    ensures BumpAll(s, cs).products == s.products && BumpAll(s, cs).members == s.members
    ensures BumpAll(s, cs).collections.Keys == s.collections.Keys
    ensures forall c :: c in s.collections ==>
      && BumpAll(s, cs).collections[c].merchant == s.collections[c].merchant
      && BumpAll(s, cs).collections[c].deleted == s.collections[c].deleted
      && BumpAll(s, cs).collections[c].revision >= s.collections[c].revision
  {
    if cs != [] {
      BumpAllFrame(s, cs[..|cs| - 1]);
    }
  }

  lemma SameActive(s: State, t: State, c: CollectionId)
    requires t.products == s.products && t.members == s.members
    ensures Active(s, c) <==> Active(t, c)
  {
  }

  /** Republished collections get a larger revision and a matching intent, the others keep theirs. */
  lemma {:induction false} BumpAllEffect(s: State, cs: seq<CollectionId>, c: CollectionId)
    requires c in s.collections
    ensures
      var t := BumpAll(s, cs);
      && c in t.collections
      && (c in cs ==> Advanced(s, t, c))
      && (c !in cs ==> t.collections[c] == s.collections[c] && Newest(t.log, OfCollection(c)) == Newest(s.log, OfCollection(c)))
  {
    BumpAllFrame(s, cs);
    if cs != [] {
      var front, last := cs[..|cs| - 1], cs[|cs| - 1];
      var u := BumpAll(s, front);
      BumpAllFrame(s, front);
      BumpAllEffect(s, front, c);
      if last in u.collections {
        NewestSnoc(u.log, Intent(OfCollection(last), KindFor(u, last), u.collections[last].revision + 1, []), OfCollection(c));
      }
      SameActive(u, BumpAll(s, cs), c);
    }
  }

  // ---- Delete ----

  lemma DeleteRowActive(s: State, p: ProductId, c: CollectionId)
    requires p in s.products
    ensures (p, c) !in s.members ==> (Active(DeleteRow(s, p), c) <==> Active(s, c))
  {
  }

  lemma DeleteOneEffect(s: State, p: ProductId, c: CollectionId)
    requires c in s.collections && p in s.products && !s.products[p].deleted
    ensures
      var t := DeleteOne(s, p);
      && ((p, c) in s.members ==> Advanced(s, t, c))
      && ((p, c) !in s.members ==> Untouched(s, t, c))
  {
    var gone := DeleteRow(s, p);
    var cs := CollectionsOf(s.members, p);
    var bumped := BumpAll(gone, cs);
    var t := DeleteOne(s, p);
    BumpAllFrame(gone, cs);
    BumpAllEffect(gone, cs, c);
    DeleteRowActive(s, p, c);
    NewestSnoc(bumped.log, t.log[|bumped.log|], OfCollection(c));
    SameActive(gone, bumped, c);
    SameActive(gone, t, c);
  }

  lemma DeleteOneFrame(s: State, p: ProductId)
    ensures DeleteOne(s, p).collections.Keys == s.collections.Keys && DeleteOne(s, p).products.Keys == s.products.Keys
    ensures forall q :: q in s.products && q != p ==> q in DeleteOne(s, p).products && DeleteOne(s, p).products[q] == s.products[q]
    ensures forall m :: m in DeleteOne(s, p).members ==> m in s.members
    ensures forall m :: m in s.members && m.0 != p ==> m in DeleteOne(s, p).members
    ensures forall c :: c in s.collections ==>
      && DeleteOne(s, p).collections[c].deleted == s.collections[c].deleted
      && DeleteOne(s, p).collections[c].merchant == s.collections[c].merchant
  {
    if p in s.products && !s.products[p].deleted {
      BumpAllFrame(DeleteRow(s, p), CollectionsOf(s.members, p));
    }
  }

  predicate Distinct(ids: seq<ProductId>) {
    forall i, j :: 0 <= i < j < |ids| ==> ids[i] != ids[j]
  }

  predicate AllPresent(s: State, ids: seq<ProductId>) {
    forall p :: p in ids ==> p in s.products && !s.products[p].deleted
  }

  lemma {:induction false} DeleteAllFrame(s: State, ids: seq<ProductId>)
    requires Distinct(ids) && AllPresent(s, ids)
    ensures DeleteAll(s, ids).collections.Keys == s.collections.Keys && DeleteAll(s, ids).products.Keys == s.products.Keys
    ensures forall q :: q in s.products && q !in ids ==> q in DeleteAll(s, ids).products && DeleteAll(s, ids).products[q] == s.products[q]
    ensures forall m :: m in DeleteAll(s, ids).members ==> m in s.members
    ensures forall m :: m in s.members && m.0 !in ids ==> m in DeleteAll(s, ids).members
  {
    if ids != [] {
      DeleteAllFrame(s, ids[..|ids| - 1]);
      DeleteOneFrame(DeleteAll(s, ids[..|ids| - 1]), ids[|ids| - 1]);
    }
  }

  lemma AdvancedThenUntouched(s: State, u: State, t: State, c: CollectionId)
    requires Advanced(s, u, c) && Untouched(u, t, c)
    ensures Advanced(s, t, c)
  {
  }

  lemma UntouchedThenAdvanced(s: State, u: State, t: State, c: CollectionId)
    requires c in s.collections && Untouched(s, u, c) && Advanced(u, t, c)
    ensures Advanced(s, t, c)
  {
  }

  lemma HoldsSnoc(members: seq<(ProductId, CollectionId)>, ids: seq<ProductId>, c: CollectionId)
    requires ids != []
    ensures Holds(members, ids, c) <==> Holds(members, ids[..|ids| - 1], c) || (ids[|ids| - 1], c) in members
  {
  }

  /** After any number of deletes: touched collections are in step at a larger revision, the others as they were. */
  lemma {:induction false} DeleteAllEffect(s: State, ids: seq<ProductId>, c: CollectionId)
    requires Distinct(ids) && AllPresent(s, ids) && c in s.collections
    ensures c in DeleteAll(s, ids).collections
    ensures if Holds(s.members, ids, c) then Advanced(s, DeleteAll(s, ids), c) else Untouched(s, DeleteAll(s, ids), c)
  {
    if ids != [] {
      var front, last := ids[..|ids| - 1], ids[|ids| - 1];
      var u, t := DeleteAll(s, front), DeleteAll(s, ids);
      DeleteAllFrame(s, front);
      DeleteAllEffect(s, front, c);
      HoldsSnoc(s.members, ids, c);
      assert last !in front && last in ids;
      assert (last, c) in u.members <==> (last, c) in s.members;
      DeleteOneEffect(u, last, c);
      if Holds(s.members, front, c) {
        if (last, c) !in u.members {
          AdvancedThenUntouched(s, u, t, c);
        }
      } else if (last, c) in u.members {
        UntouchedThenAdvanced(s, u, t, c);
      }
    }
  }

  // ---- Tombstones ----

  /** `c` would still have an active member without the products `gone`. */
  predicate ActiveWithout(s: State, gone: seq<ProductId>, c: CollectionId) {
    exists m :: m in s.members && m.1 == c && m.0 !in gone && Publishable(s, m.0)
  }

  predicate NotDeleted(s: State, c: CollectionId) {
    c in s.collections && !s.collections[c].deleted
  }

  /** One deletion: its tombstone waits for exactly the republication of each collection that survives it. */
  lemma TombstoneOfOneDelete(s: State, p: ProductId, d: Dep)
    requires p in s.products && !s.products[p].deleted
    ensures
      var t := DeleteOne(s, p);
      var tombstone := Newest(t.log, OfProduct(p));
      && p in t.products && tombstone.Some? && tombstone.value.kind == TOMBSTONE_KIND
      && tombstone.value.revision == t.products[p].revision
      && (d in tombstone.value.deps <==>
            (p, d.c) in s.members && NotDeleted(t, d.c) && Active(t, d.c) && d.revision == t.collections[d.c].revision)
  {
    var gone := DeleteRow(s, p);
    var cs := CollectionsOf(s.members, p);
    var t := DeleteOne(s, p);
    BumpAllFrame(gone, cs);
    NewestSnoc(BumpAll(gone, cs).log, t.log[|t.log| - 1], OfProduct(p));
    SameActive(gone, t, d.c);
  }

  /** A deletion enqueues nothing for any other product. */
  lemma DeleteOneOtherProducts(s: State, p: ProductId, q: ProductId)
    requires p != q
    ensures Newest(DeleteOne(s, p).log, OfProduct(q)) == Newest(s.log, OfProduct(q))
  {
    if p in s.products && !s.products[p].deleted {
      var bumped := BumpAll(DeleteRow(s, p), CollectionsOf(s.members, p));
      BumpAllProducts(DeleteRow(s, p), CollectionsOf(s.members, p), q);
      NewestSnoc(bumped.log, DeleteOne(s, p).log[|bumped.log|], OfProduct(q));
    }
  }

  lemma {:induction false} BumpAllProducts(s: State, cs: seq<CollectionId>, q: ProductId)
    ensures Newest(BumpAll(s, cs).log, OfProduct(q)) == Newest(s.log, OfProduct(q))
  {
    if cs != [] {
      var u := BumpAll(s, cs[..|cs| - 1]);
      BumpAllProducts(s, cs[..|cs| - 1], q);
      if BumpAll(s, cs).log != u.log {
        NewestSnoc(u.log, BumpAll(s, cs).log[|u.log|], OfProduct(q));
      }
    }
  }

  /** What deletions leave active is what was active without the deleted products. */
  lemma {:induction false} DeleteAllActive(s: State, ids: seq<ProductId>, c: CollectionId)
    requires Distinct(ids) && AllPresent(s, ids)
    ensures NotDeleted(DeleteAll(s, ids), c) <==> NotDeleted(s, c)
    ensures Active(DeleteAll(s, ids), c) <==> ActiveWithout(s, ids, c)
  {
    DeleteAllMembers(s, ids);
    DeleteAllFrame(s, ids);
    DeleteAllKeepsCollections(s, ids);
    var t := DeleteAll(s, ids);
    forall m | m in s.members && m.0 !in ids ensures m in t.members && (Publishable(t, m.0) <==> Publishable(s, m.0)) {
    }
  }

  lemma {:induction false} DeleteAllKeepsCollections(s: State, ids: seq<ProductId>)
    ensures DeleteAll(s, ids).collections.Keys == s.collections.Keys
    ensures forall c :: c in s.collections ==>
      && DeleteAll(s, ids).collections[c].deleted == s.collections[c].deleted
      && DeleteAll(s, ids).collections[c].revision >= s.collections[c].revision
  {
    if ids != [] {
      var u, p := DeleteAll(s, ids[..|ids| - 1]), ids[|ids| - 1];
      DeleteAllKeepsCollections(s, ids[..|ids| - 1]);
      if p in u.products && !u.products[p].deleted {
        BumpAllFrame(DeleteRow(u, p), CollectionsOf(u.members, p));
      }
    }
  }

  lemma {:induction false} DeleteAllMembers(s: State, ids: seq<ProductId>)
    requires Distinct(ids) && AllPresent(s, ids)
    ensures forall m :: m in DeleteAll(s, ids).members <==> m in s.members && m.0 !in ids
  {
    if ids != [] {
      var front, last := ids[..|ids| - 1], ids[|ids| - 1];
      DeleteAllMembers(s, front);
      DeleteAllFrame(s, front);
      assert ids == front + [last] && last !in front;
      BumpAllFrame(DeleteRow(DeleteAll(s, front), last), CollectionsOf(DeleteAll(s, front).members, last));
    }
  }

  lemma {:induction false} DeleteAllAppend(s: State, a: seq<ProductId>, b: seq<ProductId>)
    ensures DeleteAll(s, a + b) == DeleteAll(DeleteAll(s, a), b)
  {
    if b == [] {
      assert a + b == a;
    } else {
      assert (a + b)[..|a + b| - 1] == a + b[..|b| - 1];
      DeleteAllAppend(s, a, b[..|b| - 1]);
    }
  }

  lemma {:induction false} LaterDeletesKeepTombstone(s: State, ids: seq<ProductId>, q: ProductId)
    requires q !in ids
    ensures Newest(DeleteAll(s, ids).log, OfProduct(q)) == Newest(s.log, OfProduct(q))
  {
    if ids != [] {
      var front, last := ids[..|ids| - 1], ids[|ids| - 1];
      assert ids == front + [last];
      LaterDeletesKeepTombstone(s, front, q);
      DeleteOneOtherProducts(DeleteAll(s, front), last, q);
    }
  }

  /** The tombstone that the k-th deletion of a bulk delete leaves behind. */
  function Tombstone(s: State, ids: seq<ProductId>, k: nat): Option<Intent>
    requires k < |ids|
  {
    Newest(DeleteAll(s, ids).log, OfProduct(ids[k]))
  }

  lemma SplitAt(s: State, ids: seq<ProductId>, k: nat)
    requires Distinct(ids) && AllPresent(s, ids) && k < |ids|
    ensures Distinct(ids[..k + 1]) && AllPresent(s, ids[..k + 1]) && ids[k] !in ids[k + 1..]
    ensures DeleteAll(s, ids) == DeleteAll(DeleteAll(s, ids[..k + 1]), ids[k + 1..])
    ensures Distinct(ids[k + 1..]) && AllPresent(DeleteAll(s, ids[..k + 1]), ids[k + 1..])
    ensures Tombstone(s, ids, k) == Newest(DeleteAll(s, ids[..k + 1]).log, OfProduct(ids[k]))
  {
    assert ids[..k + 1] + ids[k + 1..] == ids;
    DeleteAllAppend(s, ids[..k + 1], ids[k + 1..]);
    DeleteAllFrame(s, ids[..k + 1]);
    LaterDeletesKeepTombstone(DeleteAll(s, ids[..k + 1]), ids[k + 1..], ids[k]);
  }

  /**
   * A bulk delete: the k-th tombstone waits for exactly the collections of its product that are live and keep an active
   * member without the first k + 1 products, each at its revision of that moment.
   */
  lemma TombstonesOfBulkDelete(s: State, ids: seq<ProductId>, k: nat, d: Dep)
    requires Distinct(ids) && AllPresent(s, ids) && k < |ids|
    ensures Tombstone(s, ids, k).Some? && Tombstone(s, ids, k).value.kind == TOMBSTONE_KIND
    ensures d in Tombstone(s, ids, k).value.deps <==>
      && (ids[k], d.c) in s.members && NotDeleted(s, d.c) && ActiveWithout(s, ids[..k + 1], d.c)
      && d.c in DeleteAll(s, ids[..k + 1]).collections && d.revision == DeleteAll(s, ids[..k + 1]).collections[d.c].revision
  {
    SplitAt(s, ids, k);
    var first := ids[..k];
    assert ids[..k + 1][..k] == first;
    assert Distinct(first) && AllPresent(s, first);
    DeleteAllFrame(s, first);
    DeleteAllMembers(s, first);
    assert ids[k] !in first;
    TombstoneOfOneDelete(DeleteAll(s, first), ids[k], d);
    DeleteAllActive(s, ids[..k + 1], d.c);
  }

  /** Such a dependency is overtaken in the same transaction exactly when a later product of the list is in the collection. */
  lemma DependencyIsOvertakenExactly(s: State, ids: seq<ProductId>, k: nat, d: Dep)
    requires Distinct(ids) && AllPresent(s, ids) && k < |ids|
    requires Tombstone(s, ids, k).Some? && d in Tombstone(s, ids, k).value.deps
    ensures Overtaken(DeleteAll(s, ids).log, d) <==> Holds(s.members, ids[k + 1..], d.c)
  {
    TombstonesOfBulkDelete(s, ids, k, d);
    SplitAt(s, ids, k);
    var u, first := DeleteAll(s, ids[..k + 1]), ids[..k + 1];
    DeleteAllMembers(s, first);
    DeleteAllEffect(s, first, d.c);
    assert first[k] == ids[k] && Holds(s.members, first, d.c);
    DeleteAllEffect(u, ids[k + 1..], d.c);
    assert Holds(u.members, ids[k + 1..], d.c) <==> Holds(s.members, ids[k + 1..], d.c) by {
      forall p | p in ids[k + 1..] ensures p !in first {
        var j :| 0 <= j < |ids[k + 1..]| && ids[k + 1..][j] == p;
        assert ids[k + 1 + j] == p;
      }
    }
  }

  /** A live collection of the k-th product that stays active without it and still holds a later product of the list. */
  predicate Shared(s: State, ids: seq<ProductId>, k: nat, c: CollectionId)
    requires k < |ids|
  {
    && (ids[k], c) in s.members && NotDeleted(s, c)
    && ActiveWithout(s, ids[..k + 1], c) && Holds(s.members, ids[k + 1..], c)
  }

  /** A bulk delete leaves the k-th tombstone waiting for an overtaken intent exactly when such a collection exists. */
  lemma TombstoneIsStuckExactly(s: State, ids: seq<ProductId>, k: nat)
    requires Distinct(ids) && AllPresent(s, ids) && k < |ids|
    ensures Tombstone(s, ids, k).Some?
    ensures
      (exists d :: d in Tombstone(s, ids, k).value.deps && Overtaken(DeleteAll(s, ids).log, d)) <==>
      exists c :: c in s.collections && Shared(s, ids, k, c)
  {
    TombstonesOfBulkDelete(s, ids, k, Dep(0, 0));
    if d :| d in Tombstone(s, ids, k).value.deps && Overtaken(DeleteAll(s, ids).log, d) {
      TombstonesOfBulkDelete(s, ids, k, d);
      DependencyIsOvertakenExactly(s, ids, k, d);
      assert Shared(s, ids, k, d.c);
    }
    if c :| c in s.collections && Shared(s, ids, k, c) {
      DeleteAllKeepsCollections(s, ids[..k + 1]);
      var d := Dep(c, DeleteAll(s, ids[..k + 1]).collections[c].revision);
      TombstonesOfBulkDelete(s, ids, k, d);
      DependencyIsOvertakenExactly(s, ids, k, d);
    }
  }

  /** Two products of one collection, deleted together: the first tombstone can never be sent. */
  lemma TwoDeletedTogetherStick(s: State, p: ProductId, q: ProductId, c: CollectionId)
    requires p != q && c in s.collections && !s.collections[c].deleted
    requires (p, c) in s.members && (q, c) in s.members && Publishable(s, p) && Publishable(s, q)
    ensures AllPresent(s, [p, q]) && Tombstone(s, [p, q], 0).Some?
    ensures exists d :: d in Tombstone(s, [p, q], 0).value.deps && Overtaken(DeleteAll(s, [p, q]).log, d)
  {
    assert [p, q][..1] == [p] && [p, q][1..] == [q];
    assert (q, c).0 !in [p];
    assert Shared(s, [p, q], 0, c);
    TombstoneIsStuckExactly(s, [p, q], 0);
  }

  // ---- Edits ----

  lemma {:induction false} EditAllFrame(s: State, ids: seq<ProductId>, action: Action)
    requires EditAll(s, ids, action).Some?
    ensures EditAll(s, ids, action).value.collections == s.collections
    ensures EditAll(s, ids, action).value.log == s.log
    ensures EditAll(s, ids, action).value.products.Keys == s.products.Keys
    ensures forall q :: q in s.products && q !in ids ==> EditAll(s, ids, action).value.products[q] == s.products[q]
    ensures forall m: (ProductId, CollectionId) :: m.0 !in ids ==> (m in EditAll(s, ids, action).value.members <==> m in s.members)
  {
    if ids != [] {
      EditAllFrame(s, ids[..|ids| - 1], action);
    }
  }

  /** Where an edited product may end up. */
  lemma {:induction false} EditAllMembers(s: State, ids: seq<ProductId>, action: Action, m: (ProductId, CollectionId))
    requires EditAll(s, ids, action).Some?
    requires m in EditAll(s, ids, action).value.members
    ensures m in s.members || (m.0 in ids && action == Move(m.1))
  {
    if ids != [] {
      var front := ids[..|ids| - 1];
      if m in EditAll(s, front, action).value.members {
        EditAllMembers(s, front, action, m);
      }
    }
  }

  /** Tables and collection intents are the same, apart from `published` marks. */
  predicate Announced(s: State, t: State, c: CollectionId) {
    && t.collections == s.collections && t.members == s.members
    && Newest(t.log, OfCollection(c)) == Newest(s.log, OfCollection(c))
    && t.products.Keys == s.products.Keys
    && (forall p :: p in s.products ==> t.products[p].(published := s.products[p].published) == s.products[p])
  }

  lemma AnnounceFrame(
    s: State, before: map<ProductId, Product>, p: ProductId, action: Action, deps: seq<CollectionId>, c: CollectionId)
    ensures Announced(s, Announce(s, before, p, action, deps), c)
  {
    var t := Announce(s, before, p, action, deps);
    if t.log != s.log {
      NewestSnoc(s.log, t.log[|s.log|], OfCollection(c));
    }
  }

  lemma AnnouncedTwice(s: State, u: State, t: State, c: CollectionId)
    requires Announced(s, u, c) && Announced(u, t, c)
    ensures Announced(s, t, c)
  {
  }

  lemma {:induction false} AnnounceAllFrame(
    s: State, before: map<ProductId, Product>, ids: seq<ProductId>, action: Action, deps: seq<CollectionId>, c: CollectionId)
    ensures Announced(s, AnnounceAll(s, before, ids, action, deps), c)
  {
    if ids != [] {
      var u := AnnounceAll(s, before, ids[..|ids| - 1], action, deps);
      AnnounceAllFrame(s, before, ids[..|ids| - 1], action, deps, c);
      AnnounceFrame(u, before, ids[|ids| - 1], action, deps, c);
      AnnouncedTwice(s, u, AnnounceAll(s, before, ids, action, deps), c);
    }
  }

  lemma SameActiveUpToPublished(s: State, t: State, c: CollectionId)
    requires t.members == s.members && t.products.Keys == s.products.Keys
    requires forall p :: p in s.products ==> t.products[p].(published := s.products[p].published) == s.products[p]
    ensures Active(s, c) <==> Active(t, c)
  {
  }

  lemma EditsElsewhere(s: State, ids: seq<ProductId>, action: Action, c: CollectionId)
    requires EditAll(s, ids, action).Some? && !TouchedBefore(s, ids, action, c)
    ensures Active(s, c) <==> Active(EditAll(s, ids, action).value, c)
  {
    EditAllFrame(s, ids, action);
    var t := EditAll(s, ids, action).value;
    if Active(s, c) {
      var m :| m in s.members && m.1 == c && Publishable(s, m.0);
      assert m == (m.0, c) && m.0 !in ids;
      assert m in t.members && Publishable(t, m.0);
    }
    if Active(t, c) {
      var m :| m in t.members && m.1 == c && Publishable(t, m.0);
      EditAllMembers(s, ids, action, m);
      assert m == (m.0, c) && m.0 !in ids;
      assert m in s.members && Publishable(s, m.0);
    }
  }

  lemma EditEffect(s: State, merchant: MerchantId, ids: seq<ProductId>, action: Action, order: seq<CollectionId>, c: CollectionId)
    requires Enumerates(s, ids, action, order) && !action.Delete?
    requires Refused(s, merchant, ids, action).None? && Live(s.collections, merchant, c)
    ensures
      var t := Bulk(s, merchant, ids, action, order);
      && (TouchedBefore(s, ids, action, c) ==> Advanced(s, t, c))
      && (!TouchedBefore(s, ids, action, c) ==> Untouched(s, t, c))
  {
    var edited := EditAll(s, ids, action).value;
    var live := LiveOf(edited.collections, merchant, order);
    var bumped := BumpAll(edited, live);
    var t := Bulk(s, merchant, ids, action, order);
    EditAllFrame(s, ids, action);
    BumpAllFrame(edited, live);
    BumpAllEffect(edited, live, c);
    AnnounceAllFrame(bumped, s.products, ids, action, Republished(edited, live), c);
    SameActiveUpToPublished(bumped, t, c);
    if !TouchedBefore(s, ids, action, c) {
      EditsElsewhere(s, ids, action, c);
      SameActive(edited, bumped, c);
    }
  }

  // ---- Main results ----

  /**
   * After any accepted bulk action, a live collection that held or holds one of the products has a strictly larger
   * revision and a newest intent that matches its membership; every other collection is exactly as before.
   */
  lemma {:induction false} BulkKeepsLogInStep(
    s: State, merchant: MerchantId, ids: seq<ProductId>, action: Action, order: seq<CollectionId>, c: CollectionId)
    requires Distinct(ids) && Enumerates(s, ids, action, order)
    requires Refused(s, merchant, ids, action).None? && Live(s.collections, merchant, c)
    ensures
      var t := Bulk(s, merchant, ids, action, order);
      && (TouchedBefore(s, ids, action, c) || Holds(t.members, ids, c) ==>
            Advanced(s, t, c))
      && (!TouchedBefore(s, ids, action, c) ==> Untouched(s, t, c))
  {
    var t := Bulk(s, merchant, ids, action, order);
    if action.Delete? {
      DeleteAllEffect(s, ids, c);
      DeleteAllFrame(s, ids);
    } else {
      EditEffect(s, merchant, ids, action, order, c);
      EditAllFrame(s, ids, action);
      var edited := EditAll(s, ids, action).value;
      var live := LiveOf(edited.collections, merchant, order);
      BumpAllFrame(edited, live);
      AnnounceAllFrame(BumpAll(edited, live), s.products, ids, action, Republished(edited, live), c);
      if Holds(t.members, ids, c) {
        var p :| p in ids && (p, c) in t.members;
        EditAllMembers(s, ids, action, (p, c));
      }
    }
  }

  /** So every collection that was in step stays in step. */
  lemma InStepIsKept(
    s: State, merchant: MerchantId, ids: seq<ProductId>, action: Action, order: seq<CollectionId>, c: CollectionId)
    requires Distinct(ids) && Enumerates(s, ids, action, order)
    requires Live(s.collections, merchant, c) && InStep(s, c)
    ensures InStep(Bulk(s, merchant, ids, action, order), c)
  {
    if Refused(s, merchant, ids, action).None? {
      BulkKeepsLogInStep(s, merchant, ids, action, order, c);
    }
  }

  // ---- What the edits do ----

  lemma HalfUpIsNearest(x: real)
    ensures -0.5 <= HalfUp(x) as real - x <= 0.5
    ensures x >= 0.0 ==> HalfUp(x) as real - x > -0.5
    ensures x < 0.0 ==> HalfUp(x) as real - x < 0.5
  {
  }

  /** The row and memberships one product ends up with; None of the other products is touched. */
  predicate EditedAs(s: State, t: State, edited: bool, action: Action, p: ProductId, c: CollectionId)
    requires p in s.products
  {
    && p in t.products
    && (!edited ==> t.products[p] == s.products[p] && ((p, c) in t.members <==> (p, c) in s.members))
    && (edited ==>
          && Some(t.products[p]) == EditedProduct(s.products[p], action)
          && ((p, c) in t.members <==>
                match action
                case Move(target) => c == target
                case Draft => false
                case _ => (p, c) in s.members))
  }

  lemma EditOneResult(s: State, q: ProductId, action: Action, p: ProductId, c: CollectionId)
    requires EditOne(s, q, action).Some? && p in s.products
    ensures EditedAs(s, EditOne(s, q, action).value, p == q, action, p, c)
  {
  }

  lemma {:induction false} EditAllResult(s: State, ids: seq<ProductId>, action: Action, p: ProductId, c: CollectionId)
    requires Distinct(ids) && EditAll(s, ids, action).Some? && p in s.products
    ensures EditedAs(s, EditAll(s, ids, action).value, p in ids, action, p, c)
  {
    if ids != [] {
      var front, last := ids[..|ids| - 1], ids[|ids| - 1];
      EditAllResult(s, front, action, p, c);
      EditOneResult(EditAll(s, front, action).value, last, action, p, c);
      assert last !in front && ids == front + [last];
    }
  }

  /** An edit of owned products is rolled back exactly when some price leaves the int64 range. */
  lemma {:induction false} EditFailsExactly(s: State, ids: seq<ProductId>, action: Action)
    requires Distinct(ids) && AllPresent(s, ids) && !action.Delete?
    ensures
      EditAll(s, ids, action).None? <==>
      action.PriceMarkup? && exists p :: p in ids && p in s.products && MarkedUp(s.products[p].amount, action.percent) >= MAX_AMOUNT
  {
    if ids != [] {
      var front, last := ids[..|ids| - 1], ids[|ids| - 1];
      assert last in ids && last !in front && ids == front + [last];
      EditFailsExactly(s, front, action);
      if EditAll(s, front, action).Some? {
        EditAllFrame(s, front, action);
      }
    }
  }

  lemma {:induction false} AnnounceNewest(
    s: State, before: map<ProductId, Product>, ids: seq<ProductId>, deps: seq<CollectionId>, p: ProductId)
    requires Distinct(ids) && p in ids && p in s.products && p in before
    requires !before[p].draft && s.products[p].published
    ensures
      Newest(AnnounceAll(s, before, ids, Draft, deps).log, OfProduct(p)) ==
      Some(Intent(OfProduct(p), TOMBSTONE_KIND, s.products[p].revision, DepsOn(s.collections, deps)))
  {
    var front, last := ids[..|ids| - 1], ids[|ids| - 1];
    var u, t := AnnounceAll(s, before, front, Draft, deps), AnnounceAll(s, before, ids, Draft, deps);
    AnnounceAllFrame(s, before, front, Draft, deps, 0);
    if last != p {
      assert p in front;
      AnnounceNewest(s, before, front, deps, p);
    } else {
      assert u.products[p].(published := s.products[p].published) == s.products[p];
      assert u.products[p].published ==> u.products[p] == s.products[p];
      DraftedKeepsPublished(s, before, front, deps, p);
    }
    if t.log != u.log {
      NewestSnoc(u.log, t.log[|u.log|], OfProduct(p));
    }
  }

  lemma {:induction false} DraftedKeepsPublished(
    s: State, before: map<ProductId, Product>, ids: seq<ProductId>, deps: seq<CollectionId>, p: ProductId)
    requires p in s.products && s.products[p].published
    ensures p in AnnounceAll(s, before, ids, Draft, deps).products
    ensures AnnounceAll(s, before, ids, Draft, deps).products[p] == s.products[p]
  {
    if ids != [] {
      DraftedKeepsPublished(s, before, ids[..|ids| - 1], deps, p);
    }
  }

  /** A product drafted after publication is tombstoned, waiting for exactly the collections republished without it. */
  lemma DraftTombstoneWaits(
    s: State, merchant: MerchantId, ids: seq<ProductId>, order: seq<CollectionId>, p: ProductId, d: Dep)
    requires Distinct(ids) && Enumerates(s, ids, Draft, order) && Refused(s, merchant, ids, Draft).None?
    requires p in ids && !s.products[p].draft && s.products[p].published
    ensures
      var t := Bulk(s, merchant, ids, Draft, order);
      var tombstone := Newest(t.log, OfProduct(p));
      && tombstone.Some? && tombstone.value.kind == TOMBSTONE_KIND
      && (d in tombstone.value.deps <==>
            && Live(s.collections, merchant, d.c) && Holds(s.members, ids, d.c) && Active(t, d.c)
            && d.c in t.collections && d.revision == t.collections[d.c].revision)
      && (d in tombstone.value.deps ==> !Overtaken(t.log, d))
  {
    var edited := EditAll(s, ids, Draft).value;
    var live := LiveOf(edited.collections, merchant, order);
    var bumped := BumpAll(edited, live);
    var deps := Republished(edited, live);
    var t := Bulk(s, merchant, ids, Draft, order);
    EditAllFrame(s, ids, Draft);
    EditAllResult(s, ids, Draft, p, d.c);
    BumpAllFrame(edited, live);
    AnnounceNewest(bumped, s.products, ids, deps, p);
    AnnounceAllFrame(bumped, s.products, ids, Draft, deps, d.c);
    SameActiveUpToPublished(bumped, t, d.c);
    SameActive(edited, bumped, d.c);
    if d.c in live {
      BumpAllEffect(edited, live, d.c);
    }
  }
}
