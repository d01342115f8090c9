/** The bulk action as one transaction over mutable tables. */
module CatalogEngine {
  import opened Wrappers
  import opened Catalog
  import opened CatalogTheorems

  lemma KindIsStable(s: State, cs: seq<CollectionId>, c: CollectionId)
    ensures KindFor(BumpAll(s, cs), c) == KindFor(s, c)
  {
  }

  lemma {:induction false} SmallestExists(ids: set<nat>) returns (m: nat)
    requires ids != {}
    ensures m in ids && forall x :: x in ids ==> m <= x
    decreases |ids|
  {
    var id :| id in ids;
    m := id;
    if ids != {id} {
      assert ids == {id} + (ids - {id});
      var rest := SmallestExists(ids - {id});
      m := if id <= rest then id else rest;
    }
  }

  /** sorted(collection_ids). */
  method Sorted(ids: set<nat>) returns (order: seq<nat>)
    ensures forall c :: c in order <==> c in ids
    ensures forall i, j :: 0 <= i < j < |order| ==> order[i] < order[j]
  {
    order := [];
    var left := ids;
    while left != {}
      invariant left <= ids && forall c :: c in ids <==> c in left || c in order
      invariant forall i, j :: 0 <= i < j < |order| ==> order[i] < order[j]
      invariant forall i, d :: 0 <= i < |order| && d in left ==> order[i] < d
      decreases |left|
    {
      ghost var m := SmallestExists(left);
      var next :| next in left && forall x :: x in left ==> next <= x;
      order := order + [next];
      left := left - {next};
    }
  }

  class CatalogService {
    var products: map<ProductId, Product>
    var collections: map<CollectionId, Collection>
    var members: seq<(ProductId, CollectionId)>
    var log: seq<Intent>

    function Tables(): State
      reads this
    {
      State(products, collections, members, log)
    }

    /** The catalog as the other editors of the program left it. */
    constructor (loaded: State)
      ensures Tables() == loaded
    {
      products, collections, members, log := loaded.products, loaded.collections, loaded.members, loaded.log;
    }

    /** Revision and intent of one collection; true when it was published rather than tombstoned. */
    method RepublishOne(c: CollectionId) returns (published: bool)
      requires c in collections
      modifies this
      ensures Tables() == Bump(old(Tables()), c)
      ensures published <==> KindFor(old(Tables()), c) == COLLECTION_KIND
    {
      var revision := collections[c].revision + 1;
      published := !collections[c].deleted &&
        exists m :: m in members && m.1 == c && m.0 in products && !products[m.0].draft && !products[m.0].deleted;
      assert Active(Tables(), c) <==>
        exists m :: m in members && m.1 == c && m.0 in products && !products[m.0].draft && !products[m.0].deleted;
      collections := collections[c := collections[c].(revision := revision)];
      log := log + [Intent(OfCollection(c), if published then COLLECTION_KIND else TOMBSTONE_KIND, revision, [])];
    }

    /** In ascending order, skipping what is deleted or owned by another merchant. */
    method RepublishBulkCollections(merchant: MerchantId, order: seq<CollectionId>) returns (deps: seq<CollectionId>)
      modifies this
      ensures Tables() == BumpAll(old(Tables()), LiveOf(old(collections), merchant, order))
      ensures deps == Republished(old(Tables()), LiveOf(old(collections), merchant, order))
    {
      ghost var s := Tables();
      deps := [];
      for k := 0 to |order|
        invariant Tables() == BumpAll(s, LiveOf(s.collections, merchant, order[..k]))
        invariant deps == Republished(s, LiveOf(s.collections, merchant, order[..k]))
      {
        var c := order[k];
        ghost var done := LiveOf(s.collections, merchant, order[..k]);
        BumpAllFrame(s, done);
        KindIsStable(s, done, c);
        assert order[..k + 1][..k] == order[..k];
        if c in collections && collections[c].merchant == merchant && !collections[c].deleted {
          assert (done + [c])[..|done|] == done;
          var published := RepublishOne(c);
          if published {
            deps := deps + [c];
          }
        }
      }
      assert order[..|order|] == order;
    }

    /** Memberships, product row, collections, tombstone. */
    method DeleteProductLocked(p: ProductId)
      requires forall m :: m in members ==> m.1 in collections
      modifies this
      ensures Tables() == DeleteOne(old(Tables()), p)
    {
      if p !in products || products[p].deleted {
        return;
      }
      var cs := CollectionsOf(members, p);
      var revision := products[p].revision + 1;
      members := Without(members, p);
      products := products[p := products[p].(deleted := true, revision := revision)];
      ghost var gone := Tables();
      var deps := [];
      for k := 0 to |cs|
        invariant Tables() == BumpAll(gone, cs[..k])
        invariant deps == Republished(gone, cs[..k])
      {
        BumpAllFrame(gone, cs[..k]);
        KindIsStable(gone, cs[..k], cs[k]);
        assert cs[..k + 1][..k] == cs[..k];
        assert (p, cs[k]) in old(members);
        var published := RepublishOne(cs[k]);
        if published {
          deps := deps + [cs[k]];
        }
      }
      assert cs[..|cs|] == cs;
      log := log + [Intent(OfProduct(p), TOMBSTONE_KIND, revision, DepsOn(collections, deps))];
    }

    method DeleteEach(ids: seq<ProductId>)
      requires forall m :: m in members ==> m.1 in collections
      requires Distinct(ids) && AllPresent(Tables(), ids)
      modifies this
      ensures Tables() == DeleteAll(old(Tables()), ids)
    {
      ghost var s := Tables();
      for k := 0 to |ids|
        invariant Tables() == DeleteAll(s, ids[..k])
      {
        assert ids[..k + 1][..k] == ids[..k];
        DeleteAllFrame(s, ids[..k]);
        DeleteProductLocked(ids[k]);
      }
      assert ids[..|ids|] == ids;
    }

    /** One product's assignments; false leaves the row alone and aborts the action. */
    method EditProduct(p: ProductId, action: Action) returns (ok: bool)
      requires p in products && !action.Delete?
      modifies this
      ensures ok <==> EditOne(old(Tables()), p, action).Some?
      ensures ok ==> Tables() == EditOne(old(Tables()), p, action).value
      ensures ok <==> !(action.PriceMarkup? && MarkedUp(old(products)[p].amount, action.percent) >= MAX_AMOUNT)
    {
      var row := products[p];
      row := row.(revision := row.revision + 1);
      match action {
        case PriceMarkup(percent) =>
          var amount := MarkedUp(row.amount, percent);
          if amount >= MAX_AMOUNT {
            return false;
          }
          row := row.(amount := Some(amount));
        case SetVisibility(v) => row := row.(visibility := v);
        case Draft =>
          row := row.(draft := true);
          members := Without(members, p);
        case Publish => row := row.(draft := false);
        case Move(target) => members := Without(members, p) + [(p, target)];
      }
      products := products[p := row];
      ok := true;
    }

    method EditEach(ids: seq<ProductId>, action: Action) returns (ok: bool)
      requires !action.Delete? && forall p :: p in ids ==> p in products
      modifies this
      ensures ok <==> EditAll(old(Tables()), ids, action).Some?
      ensures ok ==> Tables() == EditAll(old(Tables()), ids, action).value
    {
      ghost var s := Tables();
      for k := 0 to |ids|
        invariant EditAll(s, ids[..k], action) == Some(Tables())
      {
        assert ids[..k + 1][..k] == ids[..k];
        EditAllFrame(s, ids[..k], action);
        var done := EditProduct(ids[k], action);
        if !done {
          EditAllStays(s, ids, k + 1, action);
          return false;
        }
      }
      assert ids[..|ids|] == ids;
      ok := true;
    }

    method AnnounceEach(before: map<ProductId, Product>, ids: seq<ProductId>, action: Action, deps: seq<CollectionId>)
      requires forall p :: p in ids ==> p in products && p in before
      modifies this
      ensures Tables() == AnnounceAll(old(Tables()), before, ids, action, deps)
    {
      ghost var s := Tables();
      for k := 0 to |ids|
        invariant Tables() == AnnounceAll(s, before, ids[..k], action, deps)
        invariant products.Keys == s.products.Keys
      {
        assert ids[..k + 1][..k] == ids[..k];
        var p := ids[k];
        var row := products[p];
        if action == Draft && !before[p].draft && row.published {
          log := log + [Intent(OfProduct(p), TOMBSTONE_KIND, row.revision, DepsOn(collections, deps))];
        } else if !row.draft && !row.deleted {
          products := products[p := row.(published := true)];
          log := log + [Intent(OfProduct(p), PRODUCT_KIND, row.revision, DepsOn(collections, CollectionsOf(members, p)))];
        }
      }
      assert ids[..|ids|] == ids;
    }

    /** All checks and edits in one transaction: an error leaves every table as it was. */
    method BulkProducts(merchant: MerchantId, ids: seq<ProductId>, action: Action)
      returns (error: Option<Error>, ghost order: seq<CollectionId>)
      requires Distinct(ids) && forall m :: m in members ==> m.1 in collections
      modifies this
      ensures error == Refused(old(Tables()), merchant, ids, action)
      ensures Enumerates(old(Tables()), ids, action, order)
      ensures Tables() == Bulk(old(Tables()), merchant, ids, action, order)
    {
      ghost var s := Tables();
      var touched := set m | m in members && m.0 in ids :: m.1;
      if action.Move? {
        touched := touched + {action.target};
      }
      var sorted := Sorted(touched);
      order := sorted;
      TouchedIsHeld(s, ids, action, touched, order);
      if |ids| < 1 || |ids| > 100 || (action.PriceMarkup? && !(0.0 < action.percent <= 10000.0)) {
        return Some(InvalidContent), order;
      }
      if exists p :: p in ids && !(p in products && products[p].merchant == merchant && !products[p].deleted) {
        return Some(NotFound), order;
      }
      if action.Delete? {
        DeleteEach(ids);
        return None, order;
      }
      if action.Move? {
        if !Live(collections, merchant, action.target) {
          return Some(NotFound), order;
        }
        if exists p :: p in ids && p in products && products[p].draft {
          return Some(InvalidContent), order;
        }
      }
      var before, rows, sets, intents := products, members, collections, log;
      var ok := EditEach(ids, action);
      if !ok {
        products, members, collections, log := before, rows, sets, intents;
        return Some(InvalidContent), order;
      }
      EditAllFrame(s, ids, action);
      ghost var edited := Tables();
      var deps := RepublishBulkCollections(merchant, sorted);
      BumpAllFrame(edited, LiveOf(edited.collections, merchant, sorted));
      AnnounceEach(before, ids, action, deps);
      error := None;
    }
  }

  lemma {:induction false} EditAllStays(s: State, ids: seq<ProductId>, k: nat, action: Action)
    requires k <= |ids| && EditAll(s, ids[..k], action).None?
    ensures EditAll(s, ids, action).None?
    decreases |ids|
  {
    if k < |ids| {
      assert ids[..|ids| - 1][..k] == ids[..k];
      EditAllStays(s, ids[..|ids| - 1], k, action);
    } else {
      assert ids[..k] == ids;
    }
  }

  lemma TouchedIsHeld(s: State, ids: seq<ProductId>, action: Action, touched: set<CollectionId>, order: seq<CollectionId>)
    requires touched == (set m | m in s.members && m.0 in ids :: m.1) + if action.Move? then {action.target} else {}
    requires forall c :: c in order <==> c in touched
    requires forall i, j :: 0 <= i < j < |order| ==> order[i] < order[j]
    ensures Enumerates(s, ids, action, order)
  {
  }
}
