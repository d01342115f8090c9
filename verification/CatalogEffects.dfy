/** What a bulk action does to each row, membership and intent, written on the rows themselves. */
module CatalogEffects {
  import opened Wrappers
  import opened Catalog
  import opened CatalogTheorems

  // ---- Prices ----

  /** `n` is the integer nearest to `x`; of two equally near ones, the one further from zero. */
  predicate Nearest(x: real, n: int) {
    && -0.5 <= n as real - x <= 0.5
    && (x >= 0.0 ==> n as real - x > -0.5)
    && (x < 0.0 ==> n as real - x < 0.5)
  }

  /** The price before rounding: `percent` hundredths more than before, no price counting as zero. */
  function RaisedPrice(amount: Option<int>, percent: real): real {
    match amount
    case None => 0.0
    case Some(n) => n as real + n as real * percent / 100.0
  }

  lemma MarkupIsNearest(amount: Option<int>, percent: real)
    ensures Nearest(RaisedPrice(amount, percent), MarkedUp(amount, percent))
    ensures MarkedUp(amount, percent) >= MAX_AMOUNT <==> RaisedPrice(amount, percent) >= 9_223_372_036_854_775_807.5
  {
    var base := (if amount.Some? then amount.value else 0) as real;
    assert base * (100.0 + percent) / 100.0 == base + base * percent / 100.0;
    HalfUpIsNearest(RaisedPrice(amount, percent));
  }

  // ---- Rows ----

  /** An edited row: a new revision, the one field the action names, and every other field but `published` as it was. */
  predicate EditedRow(row: Product, after: Product, action: Action) {
    && after.revision == row.revision + 1
    && after.merchant == row.merchant && after.deleted == row.deleted
    && after.draft == (action.Draft? || (row.draft && !action.Publish?))
    && after.visibility == (if action.SetVisibility? then action.v else row.visibility)
    && if action.PriceMarkup?
       then after.amount.Some? && after.amount.value < 0x8000_0000_0000_0000
            && Nearest(RaisedPrice(row.amount, action.percent), after.amount.value)
       else after.amount == row.amount
  }

  lemma EditedIsEditedRow(row: Product, action: Action)
    requires EditedProduct(row, action).Some?
    ensures EditedRow(row, EditedProduct(row, action).value, action)
    ensures EditedProduct(row, action).value.published == row.published
  {
    if action.PriceMarkup? {
      MarkupIsNearest(row.amount, action.percent);
    }
  }

  /** The tables of an accepted edit on its way to the log. */
  function Edited(s: State, ids: seq<ProductId>, action: Action): State
    requires EditAll(s, ids, action).Some?
  {
    EditAll(s, ids, action).value
  }

  lemma EditedRows(s: State, ids: seq<ProductId>, action: Action, p: ProductId)
    requires Distinct(ids) && EditAll(s, ids, action).Some? && p in s.products
    ensures p in Edited(s, ids, action).products
    ensures p !in ids ==> Edited(s, ids, action).products[p] == s.products[p]
    ensures p in ids ==>
      EditedRow(s.products[p], Edited(s, ids, action).products[p], action)
      && Edited(s, ids, action).products[p].published == s.products[p].published
  {
    EditAllResult(s, ids, action, p, 0);
    if p in ids {
      EditedIsEditedRow(s.products[p], action);
    }
  }

  /** Announcing marks a publishable product of the list as published and changes no other field of any product. */
  lemma {:induction false} AnnouncedRow(
    s: State, before: map<ProductId, Product>, ids: seq<ProductId>, action: Action, deps: seq<CollectionId>, p: ProductId)
    requires p in s.products && p in before
    ensures
      var t := AnnounceAll(s, before, ids, action, deps);
      && p in t.products
      && t.products[p] == s.products[p].(published :=
           s.products[p].published || (p in ids && !s.products[p].draft && !s.products[p].deleted))
  {
    if ids != [] {
      var front, last := ids[..|ids| - 1], ids[|ids| - 1];
      AnnouncedRow(s, before, front, action, deps, p);
      assert ids == front + [last];
    }
  }

  /** Where a product is a member after the action. */
  predicate MemberAfter(s: State, ids: seq<ProductId>, action: Action, p: ProductId, c: CollectionId) {
    if p in ids && action.Move? then c == action.target
    else if p in ids && action.Draft? then false
    else (p, c) in s.members
  }

  /**
   * After an accepted edit each selected row is edited, in the one way its action names, and is published if it may be;
   * memberships follow a move or a draft; no other product changes.
   */
  lemma BulkEditsExactly(
    s: State, merchant: MerchantId, ids: seq<ProductId>, action: Action, order: seq<CollectionId>, p: ProductId, c: CollectionId)
    requires Distinct(ids) && !action.Delete? && Refused(s, merchant, ids, action).None? && p in s.products
    ensures
      var t := Bulk(s, merchant, ids, action, order);
      && t.products.Keys == s.products.Keys
      && (p !in ids ==> t.products[p] == s.products[p])
      && (p in ids ==>
            && EditedRow(s.products[p], t.products[p], action)
            && t.products[p].published == (s.products[p].published || !t.products[p].draft))
      && ((p, c) in t.members <==> MemberAfter(s, ids, action, p, c))
  {
    var edited := Edited(s, ids, action);
    var live := LiveOf(edited.collections, merchant, order);
    var deps := Republished(edited, live);
    EditAllFrame(s, ids, action);
    EditedRows(s, ids, action, p);
    EditAllResult(s, ids, action, p, c);
    BumpAllFrame(edited, live);
    AnnouncedRow(BumpAll(edited, live), s.products, ids, action, deps, p);
    AnnounceAllFrame(BumpAll(edited, live), s.products, ids, action, deps, c);
  }

  // ---- Refusals ----

  /** Each selected product exists, belongs to the merchant and is not deleted. */
  predicate Selectable(s: State, merchant: MerchantId, ids: seq<ProductId>) {
    forall i :: 0 <= i < |ids| ==>
      ids[i] in s.products && s.products[ids[i]].merchant == merchant && !s.products[ids[i]].deleted
  }

  predicate GoodTarget(s: State, merchant: MerchantId, action: Action) {
    action.Move? ==>
      && action.target in s.collections && s.collections[action.target].merchant == merchant
      && !s.collections[action.target].deleted
  }

  /** A draft cannot be moved, and no price may leave the int64 range. */
  predicate Impossible(s: State, ids: seq<ProductId>, action: Action) {
    exists i :: 0 <= i < |ids| && ids[i] in s.products &&
      ((action.Move? && s.products[ids[i]].draft) ||
       (action.PriceMarkup? && RaisedPrice(s.products[ids[i]].amount, action.percent) >= 9_223_372_036_854_775_807.5))
  }

  lemma PricesOut(s: State, ids: seq<ProductId>, action: Action)
    requires Distinct(ids) && AllPresent(s, ids) && !action.Delete?
    ensures EditAll(s, ids, action).None? <==>
      action.PriceMarkup? && exists i ::
        0 <= i < |ids| && ids[i] in s.products && RaisedPrice(s.products[ids[i]].amount, action.percent) >= 9_223_372_036_854_775_807.5
  {
    EditFailsExactly(s, ids, action);
    if action.PriceMarkup? {
      forall p | p in s.products
        ensures MarkedUp(s.products[p].amount, action.percent) >= MAX_AMOUNT <==>
          RaisedPrice(s.products[p].amount, action.percent) >= 9_223_372_036_854_775_807.5
      {
        MarkupIsNearest(s.products[p].amount, action.percent);
      }
      if EditAll(s, ids, action).None? {
        var p :| p in ids && p in s.products && MarkedUp(s.products[p].amount, action.percent) >= MAX_AMOUNT;
        var i :| 0 <= i < |ids| && ids[i] == p;
        assert RaisedPrice(s.products[ids[i]].amount, action.percent) >= 9_223_372_036_854_775_807.5;
      }
    }
  }

  /** A bulk action is refused exactly for a bad request, a product or target it cannot use, a draft to move or a price. */
  lemma RefusedExactly(s: State, merchant: MerchantId, ids: seq<ProductId>, action: Action)
    requires Distinct(ids)
    ensures
      var wellFormed := 1 <= |ids| <= 100 && (action.PriceMarkup? ==> 0.0 < action.percent <= 10000.0);
      var found := Selectable(s, merchant, ids) && GoodTarget(s, merchant, action);
      && (Refused(s, merchant, ids, action) == Some(NotFound) <==> wellFormed && !found)
      && (Refused(s, merchant, ids, action) == Some(InvalidContent) <==> !wellFormed || (found && Impossible(s, ids, action)))
      && (Refused(s, merchant, ids, action) == None <==> wellFormed && found && !Impossible(s, ids, action))
  {
    OwnedIsSelectable(s, merchant, ids);
    if Owned(s, merchant, ids) && !action.Delete? {
      PricesOut(s, ids, action);
      DraftsByPosition(s, ids);
    }
  }

  lemma OwnedIsSelectable(s: State, merchant: MerchantId, ids: seq<ProductId>)
    ensures Owned(s, merchant, ids) <==> Selectable(s, merchant, ids)
  {
    if Selectable(s, merchant, ids) {
      forall p | p in ids ensures p in s.products && s.products[p].merchant == merchant && !s.products[p].deleted {
        var i :| 0 <= i < |ids| && ids[i] == p;
      }
    }
  }

  lemma DraftsByPosition(s: State, ids: seq<ProductId>)
    ensures (exists p :: p in ids && p in s.products && s.products[p].draft) <==>
      exists i :: 0 <= i < |ids| && ids[i] in s.products && s.products[ids[i]].draft
  {
    if p :| p in ids && p in s.products && s.products[p].draft {
      var i :| 0 <= i < |ids| && ids[i] == p;
      assert s.products[ids[i]].draft;
    }
  }

  // ---- Deletions ----

  lemma DeleteOneRow(s: State, p: ProductId)
    requires p in s.products && !s.products[p].deleted
    ensures DeleteOne(s, p).products == s.products[p := s.products[p].(deleted := true, revision := s.products[p].revision + 1)]
  {
    BumpAllFrame(DeleteRow(s, p), CollectionsOf(s.members, p));
  }

  /** A bulk delete marks each selected row deleted under a new revision, ends its memberships and tombstones it. */
  lemma {:induction false} BulkDeletesExactly(s: State, ids: seq<ProductId>, p: ProductId)
    requires Distinct(ids) && AllPresent(s, ids) && p in s.products
    ensures
      var t := DeleteAll(s, ids);
      && p in t.products
      && t.products[p] ==
           (if p in ids then s.products[p].(deleted := true, revision := s.products[p].revision + 1) else s.products[p])
      && (forall c: CollectionId :: (p, c) in t.members <==> (p, c) in s.members && p !in ids)
      && (p in ids ==>
            && Newest(t.log, OfProduct(p)).Some?
            && Newest(t.log, OfProduct(p)).value.kind == 5
            && Newest(t.log, OfProduct(p)).value.revision == s.products[p].revision + 1)
      && (p !in ids ==> Newest(t.log, OfProduct(p)) == Newest(s.log, OfProduct(p)))
  {
    if ids != [] {
      var front, last := ids[..|ids| - 1], ids[|ids| - 1];
      assert ids == front + [last] && last in ids && last !in front;
      var u := DeleteAll(s, front);
      DeleteAllMembers(s, ids);
      DeleteAllFrame(s, front);
      BulkDeletesExactly(s, front, p);
      DeleteOneRow(u, last);
      if p == last {
        TombstoneOfOneDelete(u, p, Dep(0, 0));
      } else {
        DeleteOneOtherProducts(u, last, p);
      }
    }
  }

  // ---- Collections ----

  /** Some member product of the collection is neither draft nor deleted. */
  predicate HasActive(s: State, c: CollectionId) {
    exists m :: m in s.members && m.1 == c && m.0 in s.products && !s.products[m.0].draft && !s.products[m.0].deleted
  }

  lemma ActiveIsHasActive(s: State, c: CollectionId)
    ensures Active(s, c) <==> HasActive(s, c)
  {
    if Active(s, c) {
      var m :| m in s.members && m.1 == c && Publishable(s, m.0);
      assert m in s.members && m.1 == c && m.0 in s.products && !s.products[m.0].draft && !s.products[m.0].deleted;
    }
    if HasActive(s, c) {
      var m :| m in s.members && m.1 == c && m.0 in s.products && !s.products[m.0].draft && !s.products[m.0].deleted;
      assert Publishable(s, m.0);
    }
  }

  /** One republication: the next revision, announced as a listing exactly while a live collection has something to show. */
  lemma BumpExactly(s: State, c: CollectionId)
    ensures
      Bump(s, c) ==
      if c !in s.collections then s
      else
        var kind := if !s.collections[c].deleted && HasActive(s, c) then 30405 else 5;
        s.(collections := s.collections[c :=
             Collection(s.collections[c].merchant, s.collections[c].deleted, s.collections[c].revision + 1)],
           log := s.log + [Intent(OfCollection(c), kind, s.collections[c].revision + 1, [])])
  {
    ActiveIsHasActive(s, c);
  }

  /** A collection advances once for each time it is named. */
  lemma {:induction false} BumpAllCounts(s: State, cs: seq<CollectionId>, c: CollectionId)
    requires c in s.collections
    ensures c in BumpAll(s, cs).collections
    ensures BumpAll(s, cs).collections[c] == s.collections[c].(revision := s.collections[c].revision + multiset(cs)[c])
    ensures |BumpAll(s, cs).log| - |s.log| <= |cs|
  {
    if cs != [] {
      var front, last := cs[..|cs| - 1], cs[|cs| - 1];
      assert cs == front + [last];
      assert multiset(cs) == multiset(front) + multiset{last};
      BumpAllCounts(s, front, c);
    }
  }

  lemma {:induction false} LiveOfCounts(collections: map<CollectionId, Collection>, merchant: MerchantId, cs: seq<CollectionId>, c: CollectionId)
    ensures multiset(LiveOf(collections, merchant, cs))[c] == if Live(collections, merchant, c) then multiset(cs)[c] else 0
  {
    if cs != [] {
      var front, last := cs[..|cs| - 1], cs[|cs| - 1];
      assert cs == front + [last];
      assert multiset(cs) == multiset(front) + multiset{last};
      LiveOfCounts(collections, merchant, front, c);
      if Live(collections, merchant, last) {
        assert multiset(LiveOf(collections, merchant, cs)) == multiset(LiveOf(collections, merchant, front)) + multiset{last};
      }
    }
  }

  lemma {:induction false} OnceEach(order: seq<CollectionId>, c: CollectionId)
    requires forall i, j :: 0 <= i < j < |order| ==> order[i] != order[j]
    ensures multiset(order)[c] == if c in order then 1 else 0
  {
    if order != [] {
      var front, last := order[..|order| - 1], order[|order| - 1];
      assert order == front + [last];
      assert multiset(order) == multiset(front) + multiset{last};
      OnceEach(front, c);
    }
  }

  /** The collection has its next revision and an intent that shows it, or takes it down when nothing is left to show. */
  predicate Told(s: State, t: State, c: CollectionId)
    requires c in s.collections
  {
    && c in t.collections
    && t.collections[c] == s.collections[c].(revision := s.collections[c].revision + 1)
    && Newest(t.log, OfCollection(c)) ==
         Some(Intent(OfCollection(c), if HasActive(t, c) then 30405 else 5, s.collections[c].revision + 1, []))
  }

  predicate Untold(s: State, t: State, c: CollectionId)
    requires c in s.collections
  {
    && c in t.collections && t.collections[c] == s.collections[c]
    && Newest(t.log, OfCollection(c)) == Newest(s.log, OfCollection(c))
  }

  lemma BumpsLiveOnce(s: State, merchant: MerchantId, order: seq<CollectionId>, c: CollectionId)
    requires forall i, j :: 0 <= i < j < |order| ==> order[i] != order[j]
    requires c in s.collections
    ensures
      var t := BumpAll(s, LiveOf(s.collections, merchant, order));
      if c in order && Live(s.collections, merchant, c) then Told(s, t, c) else Untold(s, t, c)
  {
    var live := LiveOf(s.collections, merchant, order);
    LiveOfCounts(s.collections, merchant, order, c);
    OnceEach(order, c);
    BumpAllCounts(s, live, c);
    BumpAllEffect(s, live, c);
    ActiveIsHasActive(BumpAll(s, live), c);
  }

  /** Announcing products afterwards tells nothing more of a collection. */
  lemma ToldStays(s: State, edited: State, bumped: State, t: State, c: CollectionId)
    requires c in s.collections && edited.collections == s.collections && edited.log == s.log
    requires Announced(bumped, t, c)
    ensures Told(edited, bumped, c) ==> Told(s, t, c)
    ensures Untold(edited, bumped, c) ==> Untold(s, t, c)
  {
    HasActiveUpToPublished(bumped, t, c);
  }

  /** A live collection of the merchant that holds a selected product, or is to receive them. */
  predicate Touched(s: State, merchant: MerchantId, ids: seq<ProductId>, action: Action, c: CollectionId)
    requires c in s.collections
  {
    && ((exists p :: p in ids && (p, c) in s.members) || action == Move(c))
    && s.collections[c].merchant == merchant && !s.collections[c].deleted
  }

  lemma TouchedIsNamed(
    s: State, merchant: MerchantId, ids: seq<ProductId>, action: Action, order: seq<CollectionId>, c: CollectionId)
    requires Enumerates(s, ids, action, order) && c in s.collections
    ensures Touched(s, merchant, ids, action, c) <==> c in order && Live(s.collections, merchant, c)
  {
    assert c in order <==> TouchedBefore(s, ids, action, c);
  }

  lemma HasActiveUpToPublished(s: State, t: State, c: CollectionId)
    requires t.members == s.members && t.products.Keys == s.products.Keys
    requires forall p :: p in s.products ==> t.products[p].(published := s.products[p].published) == s.products[p]
    ensures HasActive(s, c) <==> HasActive(t, c)
  {
    SameActiveUpToPublished(s, t, c);
    ActiveIsHasActive(s, c);
    ActiveIsHasActive(t, c);
  }

  /**
   * An accepted edit gives each live collection of the merchant that it touches exactly one new revision and an intent
   * that shows it, or takes it down when nothing is left to show; no other collection changes.
   */
  lemma EditTellsCollections(
    s: State, merchant: MerchantId, ids: seq<ProductId>, action: Action, order: seq<CollectionId>, c: CollectionId)
    requires Distinct(ids) && Enumerates(s, ids, action, order) && !action.Delete?
    requires Refused(s, merchant, ids, action).None? && c in s.collections
    ensures
      var t := Bulk(s, merchant, ids, action, order);
      if Touched(s, merchant, ids, action, c) then Told(s, t, c) else Untold(s, t, c)
  {
    var edited := Edited(s, ids, action);
    var live := LiveOf(edited.collections, merchant, order);
    var t := Bulk(s, merchant, ids, action, order);
    EditAllFrame(s, ids, action);
    BumpsLiveOnce(edited, merchant, order, c);
    AnnounceAllFrame(BumpAll(edited, live), s.products, ids, action, Republished(edited, live), c);
    ToldStays(s, edited, BumpAll(edited, live), t, c);
    TouchedIsNamed(s, merchant, ids, action, order, c);
  }

  /** Deleting a product advances each of its collections once per membership, and those alone. */
  lemma DeleteTellsCollections(s: State, p: ProductId, c: CollectionId)
    requires p in s.products && !s.products[p].deleted && c in s.collections
    ensures
      var t := DeleteOne(s, p);
      && c in t.collections
      && t.collections[c] == s.collections[c].(revision := s.collections[c].revision + multiset(s.members)[(p, c)])
      && ((p, c) in s.members ==>
            Newest(t.log, OfCollection(c)) ==
              Some(Intent(OfCollection(c), if !s.collections[c].deleted && HasActive(t, c) then 30405 else 5, t.collections[c].revision, [])))
      && ((p, c) !in s.members ==> Newest(t.log, OfCollection(c)) == Newest(s.log, OfCollection(c)))
  {
    CollectionsOfCounts(s.members, p, c);
    BumpAllCounts(DeleteRow(s, p), CollectionsOf(s.members, p), c);
    DeleteOneEffect(s, p, c);
    ActiveIsHasActive(DeleteOne(s, p), c);
  }

  lemma {:induction false} CollectionsOfCounts(members: seq<(ProductId, CollectionId)>, p: ProductId, c: CollectionId)
    ensures multiset(CollectionsOf(members, p))[c] == multiset(members)[(p, c)]
  {
    if members != [] {
      assert members == [members[0]] + members[1..];
      assert multiset(members) == multiset{members[0]} + multiset(members[1..]);
      CollectionsOfCounts(members[1..], p, c);
      if members[0].0 == p {
        assert multiset(CollectionsOf(members, p)) == multiset{members[0].1} + multiset(CollectionsOf(members[1..], p));
      }
    }
  }

  /** The memberships of the other products stay, row by row. */
  lemma {:induction false} WithoutCounts(members: seq<(ProductId, CollectionId)>, p: ProductId, m: (ProductId, CollectionId))
    ensures multiset(Without(members, p))[m] == if m.0 == p then 0 else multiset(members)[m]
  {
    if members != [] {
      assert members == [members[0]] + members[1..];
      assert multiset(members) == multiset{members[0]} + multiset(members[1..]);
      WithoutCounts(members[1..], p, m);
      if members[0].0 != p {
        assert multiset(Without(members, p)) == multiset{members[0]} + multiset(Without(members[1..], p));
      }
    }
  }

  // ---- Announcements ----

  /** The intent of a publishable product, or the tombstone of a drafted one. */
  lemma AnnounceEffect(s: State, before: map<ProductId, Product>, p: ProductId, action: Action, deps: seq<CollectionId>, q: ProductId)
    requires p in s.products && p in before
    ensures
      var t, row := Announce(s, before, p, action, deps), s.products[p];
      Newest(t.log, OfProduct(q)) ==
        if q != p then Newest(s.log, OfProduct(q))
        else if action.Draft? && !before[p].draft && row.published then
          Some(Intent(OfProduct(p), 5, row.revision, DepsOn(s.collections, deps)))
        else if !row.draft && !row.deleted then
          Some(Intent(OfProduct(p), 30402, row.revision, DepsOn(s.collections, CollectionsOf(s.members, p))))
        else Newest(s.log, OfProduct(q))
  {
    var t := Announce(s, before, p, action, deps);
    if t.log != s.log {
      NewestSnoc(s.log, t.log[|s.log|], OfProduct(q));
    }
  }

  lemma {:induction false} AnnounceAllEffect(
    s: State, before: map<ProductId, Product>, ids: seq<ProductId>, action: Action, deps: seq<CollectionId>, p: ProductId)
    requires Distinct(ids) && forall x :: x in ids ==> x in s.products && x in before
    requires p in s.products && p in before
    ensures
      var t, row := AnnounceAll(s, before, ids, action, deps), s.products[p];
      && p in t.products
      && Newest(t.log, OfProduct(p)) ==
           if p !in ids then Newest(s.log, OfProduct(p))
           else if action.Draft? && !before[p].draft && row.published then
             Some(Intent(OfProduct(p), 5, row.revision, DepsOn(s.collections, deps)))
           else if !row.draft && !row.deleted then
             Some(Intent(OfProduct(p), 30402, row.revision, DepsOn(s.collections, CollectionsOf(s.members, p))))
           else Newest(s.log, OfProduct(p))
  {
    if ids != [] {
      var front, last := ids[..|ids| - 1], ids[|ids| - 1];
      assert ids == front + [last] && last in ids && last !in front;
      AnnounceAllEffect(s, before, front, action, deps, p);
      AnnounceAllFrame(s, before, front, action, deps, 0);
      AnnouncedRow(s, before, front, action, deps, last);
      AnnounceEffect(AnnounceAll(s, before, front, action, deps), before, last, action, deps, p);
    }
  }

  /** After an accepted edit a publishable product is announced at its new revision, bound to its collections as they now are. */
  lemma EditAnnouncesProduct(
    s: State, merchant: MerchantId, ids: seq<ProductId>, action: Action, order: seq<CollectionId>, p: ProductId, d: Dep)
    requires Distinct(ids) && !action.Delete? && Refused(s, merchant, ids, action).None? && p in s.products
    ensures
      var t := Bulk(s, merchant, ids, action, order);
      && p in t.products
      && (p in ids && !t.products[p].draft ==>
            && Newest(t.log, OfProduct(p)).Some?
            && Newest(t.log, OfProduct(p)).value.kind == 30402
            && Newest(t.log, OfProduct(p)).value.revision == s.products[p].revision + 1
            && (d in Newest(t.log, OfProduct(p)).value.deps <==>
                  (p, d.c) in t.members && d.c in t.collections && d.revision == t.collections[d.c].revision))
      && (p !in ids || (t.products[p].draft && (!action.Draft? || s.products[p].draft || !s.products[p].published)) ==>
            Newest(t.log, OfProduct(p)) == Newest(s.log, OfProduct(p)))
  {
    var edited := Edited(s, ids, action);
    var live := LiveOf(edited.collections, merchant, order);
    var bumped := BumpAll(edited, live);
    var deps := Republished(edited, live);
    EditAllFrame(s, ids, action);
    EditedRows(s, ids, action, p);
    BulkEditsExactly(s, merchant, ids, action, order, p, d.c);
    BumpAllFrame(edited, live);
    BumpAllProducts(edited, live, p);
    AnnounceAllFrame(bumped, s.products, ids, action, deps, 0);
    AnnounceAllEffect(bumped, s.products, ids, action, deps, p);
  }
}
