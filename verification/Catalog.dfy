/** Bulk product actions and the collection intents they publish (infinitemarkets/services/catalog.py). */
module Catalog {
  import opened Wrappers

  type ProductId = nat
  type CollectionId = nat
  type MerchantId = nat

  const MAX_AMOUNT := 0x8000_0000_0000_0000
  const COLLECTION_KIND := 30405
  const PRODUCT_KIND := 30402
  const TOMBSTONE_KIND := 5

  datatype Product = Product(merchant: MerchantId, draft: bool, deleted: bool, revision: nat, amount: Option<int>,
                             visibility: nat, published: bool)

  datatype Collection = Collection(merchant: MerchantId, deleted: bool, revision: nat)

  datatype Aggregate = OfProduct(p: ProductId) | OfCollection(c: CollectionId)

  /** The intent of a collection at a revision: a dependency is an edge to one intent, not to the collection. */
  datatype Dep = Dep(c: CollectionId, revision: nat)

  /** One `enqueue_intent`; `deps` are the intents it waits for. */
  datatype Intent = Intent(of: Aggregate, kind: nat, revision: nat, deps: seq<Dep>)

  /** `members` holds the rows of product_collections. */
  datatype State = State(
    products: map<ProductId, Product>, collections: map<CollectionId, Collection>,
    members: seq<(ProductId, CollectionId)>, log: seq<Intent>)

  datatype Action = PriceMarkup(percent: real) | Move(target: CollectionId) | SetVisibility(v: nat) | Draft | Publish | Delete

  datatype Error = NotFound | InvalidContent

  // ---- Membership ----

  predicate Publishable(s: State, p: ProductId) {
    p in s.products && !s.products[p].draft && !s.products[p].deleted
  }

  predicate Active(s: State, c: CollectionId) {
    exists m :: m in s.members && m.1 == c && Publishable(s, m.0)
  }

  function Without(members: seq<(ProductId, CollectionId)>, p: ProductId): (r: seq<(ProductId, CollectionId)>)
    ensures forall m :: m in r <==> m in members && m.0 != p
  {
    if members == [] then []
    else if members[0].0 == p then Without(members[1..], p)
    else [members[0]] + Without(members[1..], p)
  }

  function CollectionsOf(members: seq<(ProductId, CollectionId)>, p: ProductId): (r: seq<CollectionId>)
    ensures forall c :: c in r <==> (p, c) in members
  {
    if members == [] then []
    else if members[0].0 == p then [members[0].1] + CollectionsOf(members[1..], p)
    else CollectionsOf(members[1..], p)
  }

  // ---- Republication ----

  /** Zero active members must not publish: such a collection is tombstoned. */
  function KindFor(s: State, c: CollectionId): nat {
    if c in s.collections && !s.collections[c].deleted && Active(s, c) then COLLECTION_KIND else TOMBSTONE_KIND
  }

  function Bump(s: State, c: CollectionId): State {
    if c !in s.collections then s
    else
      var revision := s.collections[c].revision + 1;
      s.(collections := s.collections[c := s.collections[c].(revision := revision)],
         log := s.log + [Intent(OfCollection(c), KindFor(s, c), revision, [])])
  }

  function BumpAll(s: State, cs: seq<CollectionId>): State {
    if cs == [] then s else Bump(BumpAll(s, cs[..|cs| - 1]), cs[|cs| - 1])
  }

  /** The collections of `cs` that published a new revision rather than a tombstone. */
  function Republished(s: State, cs: seq<CollectionId>): (r: seq<CollectionId>)
    ensures forall c :: c in r <==> c in cs && KindFor(s, c) == COLLECTION_KIND
  {
    if cs == [] then []
    else
      var front := Republished(s, cs[..|cs| - 1]);
      if KindFor(s, cs[|cs| - 1]) == COLLECTION_KIND then front + [cs[|cs| - 1]] else front
  }

  /** Each named collection is bound to its newest intent at the time of the enqueue. */
  function DepsOn(collections: map<CollectionId, Collection>, cs: seq<CollectionId>): (r: seq<Dep>)
    ensures forall d :: d in r <==> d.c in cs && d.c in collections && d.revision == collections[d.c].revision
  {
    if cs == [] then []
    else
      var c, front := cs[|cs| - 1], DepsOn(collections, cs[..|cs| - 1]);
      if c in collections then front + [Dep(c, collections[c].revision)] else front
  }

  predicate Live(collections: map<CollectionId, Collection>, merchant: MerchantId, c: CollectionId) {
    c in collections && collections[c].merchant == merchant && !collections[c].deleted
  }

  /** The bulk path skips deleted collections and those of other merchants. */
  function LiveOf(collections: map<CollectionId, Collection>, merchant: MerchantId, cs: seq<CollectionId>): (r: seq<CollectionId>)
    ensures forall c :: c in r <==> c in cs && Live(collections, merchant, c)
  {
    if cs == [] then []
    else
      var front := LiveOf(collections, merchant, cs[..|cs| - 1]);
      if Live(collections, merchant, cs[|cs| - 1]) then front + [cs[|cs| - 1]] else front
  }

  // ---- Delete ----

  function DeleteRow(s: State, p: ProductId): State
    requires p in s.products
  {
    s.(members := Without(s.members, p),
       products := s.products[p := s.products[p].(deleted := true, revision := s.products[p].revision + 1)])
  }

  /** Memberships go first, then the collections are republished, then the tombstone waits for the survivors. */
  function DeleteOne(s: State, p: ProductId): State {
    if p !in s.products || s.products[p].deleted then s
    else
      var gone := DeleteRow(s, p);
      var cs := CollectionsOf(s.members, p);
      var bumped := BumpAll(gone, cs);
      bumped.(log := bumped.log +
        [Intent(OfProduct(p), TOMBSTONE_KIND, s.products[p].revision + 1, DepsOn(bumped.collections, Republished(gone, cs)))])
  }

  function DeleteAll(s: State, ids: seq<ProductId>): State {
    if ids == [] then s else DeleteOne(DeleteAll(s, ids[..|ids| - 1]), ids[|ids| - 1])
  }

  // ---- Edits ----

  /** Round half away from zero. */
  function HalfUp(x: real): int {
    if x >= 0.0 then (x + 0.5).Floor else -((-x + 0.5).Floor)
  }

  function MarkedUp(amount: Option<int>, percent: real): int {
    HalfUp((if amount.Some? then amount.value else 0) as real * (100.0 + percent) / 100.0)
  }

  /** None rolls the whole action back: the new price leaves the int64 range. */
  function EditedProduct(row: Product, action: Action): Option<Product> {
    var next := row.(revision := row.revision + 1);
    match action
    case PriceMarkup(percent) =>
      if MarkedUp(row.amount, percent) >= MAX_AMOUNT then None
      else Some(next.(amount := Some(MarkedUp(row.amount, percent))))
    case Move(_) => Some(next)
    case SetVisibility(v) => Some(next.(visibility := v))
    case Draft => Some(next.(draft := true))
    case Publish => Some(next.(draft := false))
    case Delete => None
  }

  function EditedMembers(members: seq<(ProductId, CollectionId)>, p: ProductId, action: Action): seq<(ProductId, CollectionId)> {
    match action
    case Move(target) => Without(members, p) + [(p, target)]
    case Draft => Without(members, p)
    case _ => members
  }

  function EditOne(s: State, p: ProductId, action: Action): Option<State> {
    if p !in s.products || EditedProduct(s.products[p], action).None? then None
    else
      Some(s.(products := s.products[p := EditedProduct(s.products[p], action).value],
              members := EditedMembers(s.members, p, action)))
  }

  function EditAll(s: State, ids: seq<ProductId>, action: Action): Option<State> {
    if ids == [] then Some(s)
    else
      var front := EditAll(s, ids[..|ids| - 1], action);
      if front.None? then None else EditOne(front.value, ids[|ids| - 1], action)
  }

  /** A product drafted after publication is tombstoned; a publishable one is published again. */
  function Announce(s: State, before: map<ProductId, Product>, p: ProductId, action: Action, deps: seq<CollectionId>): State {
    if p !in s.products || p !in before then s
    else
      var row := s.products[p];
      if action == Draft && !before[p].draft && row.published then
        s.(log := s.log + [Intent(OfProduct(p), TOMBSTONE_KIND, row.revision, DepsOn(s.collections, deps))])
      else if Publishable(s, p) then
        s.(products := s.products[p := row.(published := true)],
           log := s.log + [Intent(OfProduct(p), PRODUCT_KIND, row.revision, DepsOn(s.collections, CollectionsOf(s.members, p)))])
      else s
  }

  function AnnounceAll(s: State, before: map<ProductId, Product>, ids: seq<ProductId>, action: Action, deps: seq<CollectionId>): State {
    if ids == [] then s
    else Announce(AnnounceAll(s, before, ids[..|ids| - 1], action, deps), before, ids[|ids| - 1], action, deps)
  }

  // ---- The bulk action ----

  predicate Owned(s: State, merchant: MerchantId, ids: seq<ProductId>) {
    forall p :: p in ids ==> p in s.products && s.products[p].merchant == merchant && !s.products[p].deleted
  }

  /** One of these products is a member of `c`. */
  predicate Holds(members: seq<(ProductId, CollectionId)>, ids: seq<ProductId>, c: CollectionId) {
    exists p :: p in ids && (p, c) in members
  }

  predicate TouchedBefore(s: State, ids: seq<ProductId>, action: Action, c: CollectionId) {
    Holds(s.members, ids, c) || action == Move(c)
  }

  /** `order` lists each collection to republish once. */
  ghost predicate Enumerates(s: State, ids: seq<ProductId>, action: Action, order: seq<CollectionId>) {
    && (forall c :: c in order <==> TouchedBefore(s, ids, action, c))
    && (forall i, j :: 0 <= i < j < |order| ==> order[i] != order[j])
  }

  /** The checks on the request alone: 1 to 100 products, a markup in (0, 10000]. */
  predicate WellFormed(ids: seq<ProductId>, action: Action) {
    1 <= |ids| <= 100 && (action.PriceMarkup? ==> 0.0 < action.percent <= 10000.0)
  }

  function Refused(s: State, merchant: MerchantId, ids: seq<ProductId>, action: Action): Option<Error> {
    if !WellFormed(ids, action) then Some(InvalidContent)
    else if !Owned(s, merchant, ids) then Some(NotFound)
    else if action.Delete? then None
    else if action.Move? && !Live(s.collections, merchant, action.target) then Some(NotFound)
    else if action.Move? && exists p :: p in ids && p in s.products && s.products[p].draft then Some(InvalidContent)
    else if EditAll(s, ids, action).None? then Some(InvalidContent)
    else None
  }

  /** A refused action changes nothing. */
  function Bulk(s: State, merchant: MerchantId, ids: seq<ProductId>, action: Action, order: seq<CollectionId>): State {
    if Refused(s, merchant, ids, action).Some? then s
    else if action.Delete? then DeleteAll(s, ids)
    else
      var edited := EditAll(s, ids, action).value;
      var live := LiveOf(edited.collections, merchant, order);
      AnnounceAll(BumpAll(edited, live), s.products, ids, action, Republished(edited, live))
  }

  // ---- Agreement of the log with the tables ----

  function Newest(log: seq<Intent>, of: Aggregate): Option<Intent> {
    if log == [] then None
    else if log[|log| - 1].of == of then Some(log[|log| - 1])
    else Newest(log[..|log| - 1], of)
  }

  lemma NewestSnoc(log: seq<Intent>, i: Intent, of: Aggregate)
    ensures Newest(log + [i], of) == if i.of == of then Some(i) else Newest(log, of)
  {
  }

  /** The newest intent carries the current revision, 30405 exactly when the collection has an active member. */
  predicate InStep(s: State, c: CollectionId) {
    && c in s.collections
    && Newest(s.log, OfCollection(c)) == Some(Intent(OfCollection(c), KindFor(s, c), s.collections[c].revision, []))
  }

  /** Nothing a reader of the relay sees of `c` changed, and nothing of its tables. */
  predicate Untouched(s: State, t: State, c: CollectionId) {
    && (c in s.collections <==> c in t.collections)
    && (c in s.collections ==> s.collections[c] == t.collections[c])
    && Newest(s.log, OfCollection(c)) == Newest(t.log, OfCollection(c))
    && (Active(s, c) <==> Active(t, c))
  }

  /** Republished since `s`: a strictly larger revision, and in step. */
  predicate Advanced(s: State, t: State, c: CollectionId) {
    c in s.collections && InStep(t, c) && t.collections[c].revision > s.collections[c].revision
  }

  /**
   * A later intent of the same collection, enqueued in the same transaction, has superseded this one (outbox.py:52-65);
   * a row waits until each dependency is published, so it can then never be sent (outbox.py:209-217).
   */
  predicate Overtaken(log: seq<Intent>, d: Dep) {
    Newest(log, OfCollection(d.c)).Some? && Newest(log, OfCollection(d.c)).value.revision > d.revision
  }
}
