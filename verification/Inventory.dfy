/** Products, carts and reservations (harness/tx.py, harness/schema.py). */
module Inventory {
  import opened Wrappers
  import opened Orders

  type ProductId = nat

  // `order_items` and `inventory_reservations` carry CHECK (quantity > 0).
  type Quantity = n: int | 0 < n witness 1

  datatype Product = Product(onHand: Option<int>, reserved: int, deleted: bool, revision: int)

  datatype Item = Item(product: ProductId, qty: Quantity)

  datatype ReservationState = Held | Consumed | Released | Lapsed

  datatype Reservation = Reservation(order: OrderId, item: Item, state: ReservationState, expiresAt: int)

  // ---- Quantities of a cart and of the reservation table ----

  function QtyOf(items: seq<Item>, p: ProductId): nat {
    if items == [] then 0
    else QtyOf(items[..|items| - 1], p) + var last := items[|items| - 1]; if last.product == p then last.qty else 0
  }

  /** Quantity of product `p` over all rows in state `st`. */
  function QtyIn(rows: seq<Reservation>, p: ProductId, st: ReservationState): nat {
    if rows == [] then 0
    else
      var last := rows[|rows| - 1];
      QtyIn(rows[..|rows| - 1], p, st) + if last.item.product == p && last.state == st then last.item.qty else 0
  }

  /** Quantity of product `p` that order `o` holds. */
  function HeldBy(rows: seq<Reservation>, o: OrderId, p: ProductId): nat {
    if rows == [] then 0
    else
      var last := rows[|rows| - 1];
      HeldBy(rows[..|rows| - 1], o, p)
      + if last.order == o && last.item.product == p && last.state == Held then last.item.qty else 0
  }

  /** Number of held rows of order `o` for product `p`. */
  function HeldRows(rows: seq<Reservation>, o: OrderId, p: ProductId): nat {
    if rows == [] then 0
    else
      var last := rows[|rows| - 1];
      HeldRows(rows[..|rows| - 1], o, p)
      + if last.order == o && last.item.product == p && last.state == Held then 1 else 0
  }

  /** What order `o` reserved, as a cart. */
  function CartOf(rows: seq<Reservation>, o: OrderId): seq<Item> {
    if rows == [] then []
    else
      var last := rows[|rows| - 1];
      var rest := CartOf(rows[..|rows| - 1], o);
      if last.order == o then rest + [last.item] else rest
  }

  // ---- The stock claim ----

  predicate DistinctProducts(items: seq<Item>) {
    forall i, j :: 0 <= i < j < |items| ==> items[i].product != items[j].product
  }

  /** Product `p` is live and its unreserved stock covers `qty`. */
  predicate Covers(products: map<ProductId, Product>, p: ProductId, qty: nat) {
    && p in products
    && !products[p].deleted
    && (products[p].onHand.None? || qty <= products[p].onHand.value - products[p].reserved)
  }

  /** Every product of the cart is live with enough free stock for its total. */
  predicate Claimable(products: map<ProductId, Product>, items: seq<Item>) {
    forall i :: 0 <= i < |items| ==> Covers(products, items[i].product, QtyOf(items, items[i].product))
  }

  function Reserve(products: map<ProductId, Product>, items: seq<Item>): map<ProductId, Product> {
    map p | p in products :: products[p].(reserved := products[p].reserved + QtyOf(items, p))
  }

  function HeldRowsFor(o: OrderId, items: seq<Item>, expiresAt: int): (rows: seq<Reservation>)
  {
    seq(|items|, i requires 0 <= i < |items| => Reservation(o, items[i], Held, expiresAt))
  }

  // ---- Closing the held rows of one order ----

  function Closed(r: Reservation, o: OrderId, to: ReservationState): Reservation {
    if r.order == o && r.state == Held then r.(state := to) else r
  }

  function CloseHeld(rows: seq<Reservation>, o: OrderId, to: ReservationState): (r: seq<Reservation>) {
    seq(|rows|, i requires 0 <= i < |rows| => Closed(rows[i], o, to))
  }

  /** Stock after the held rows of `o` were given back. */
  function GiveBack(products: map<ProductId, Product>, rows: seq<Reservation>, o: OrderId): map<ProductId, Product> {
    map p | p in products :: products[p].(reserved := products[p].reserved - HeldBy(rows, o, p))
  }

  function Minus(stock: Option<int>, qty: int): Option<int> {
    if stock.Some? then Some(stock.value - qty) else None
  }

  /** Stock after the held rows of `o` were sold. */
  function Sell(products: map<ProductId, Product>, rows: seq<Reservation>, o: OrderId): map<ProductId, Product> {
    map p | p in products ::
      Product(Minus(products[p].onHand, HeldBy(rows, o, p)),
              products[p].reserved - HeldBy(rows, o, p),
              products[p].deleted,
              products[p].revision + HeldRows(rows, o, p))
  }

  /** The held rows of `o` take the expiry of the issued invoice. */
  function Realign(rows: seq<Reservation>, o: OrderId, expiresAt: int): seq<Reservation> {
    seq(|rows|, i requires 0 <= i < |rows| =>
      if rows[i].order == o && rows[i].state == Held then rows[i].(expiresAt := expiresAt) else rows[i])
  }

  // ---- Laws of the sums ----

  lemma {:induction false} QtyInAppend(a: seq<Reservation>, b: seq<Reservation>, p: ProductId, st: ReservationState)
    ensures QtyIn(a + b, p, st) == QtyIn(a, p, st) + QtyIn(b, p, st)
  {
    if b == [] {
      assert a + b == a;
    } else {
      QtyInAppend(a, b[..|b| - 1], p, st);
      assert (a + b)[..|a + b| - 1] == a + b[..|b| - 1];
    }
  }

  lemma {:induction false} CartOfAppend(a: seq<Reservation>, b: seq<Reservation>, o: OrderId)
    ensures CartOf(a + b, o) == CartOf(a, o) + CartOf(b, o)
  {
    if b == [] {
      assert a + b == a;
    } else {
      CartOfAppend(a, b[..|b| - 1], o);
      assert (a + b)[..|a + b| - 1] == a + b[..|b| - 1];
    }
  }

  /** New held rows count once per item and belong to their order alone. */
  lemma {:induction false} HeldRowsForSums(o: OrderId, items: seq<Item>, expiresAt: int, p: ProductId, other: OrderId)
    ensures QtyIn(HeldRowsFor(o, items, expiresAt), p, Held) == QtyOf(items, p)
    ensures QtyIn(HeldRowsFor(o, items, expiresAt), p, Consumed) == 0
    ensures CartOf(HeldRowsFor(o, items, expiresAt), other) == if other == o then items else []
  {
    if items != [] {
      var front := items[..|items| - 1];
      HeldRowsForSums(o, front, expiresAt, p, other);
      var rows := HeldRowsFor(o, items, expiresAt);
      assert rows[..|rows| - 1] == HeldRowsFor(o, front, expiresAt);
      assert front + [items[|items| - 1]] == items;
    }
  }

  /** Closing rows moves exactly the held quantity of the order to the target state. */
  lemma {:induction false} CloseHeldSums(rows: seq<Reservation>, o: OrderId, to: ReservationState, p: ProductId, st: ReservationState)
    requires to != Held
    ensures QtyIn(CloseHeld(rows, o, to), p, st)
         == QtyIn(rows, p, st) + (if st == to then HeldBy(rows, o, p) else 0) - (if st == Held then HeldBy(rows, o, p) else 0)
    ensures HeldBy(rows, o, p) <= QtyIn(rows, p, Held)
  {
    if rows != [] {
      var front := rows[..|rows| - 1];
      CloseHeldSums(front, o, to, p, st);
      var after := CloseHeld(rows, o, to);
      assert after[..|after| - 1] == CloseHeld(front, o, to);
    }
  }

  /** Rows that differ only in state and expiry reserve the same carts. */
  lemma {:induction false} SameItemsSameCart(a: seq<Reservation>, b: seq<Reservation>, o: OrderId)
    requires |a| == |b|
    requires forall i :: 0 <= i < |a| ==> a[i].order == b[i].order && a[i].item == b[i].item
    ensures CartOf(a, o) == CartOf(b, o)
  {
    if a != [] {
      SameItemsSameCart(a[..|a| - 1], b[..|b| - 1], o);
    }
  }

  lemma {:induction false} SameStatesSameQty(a: seq<Reservation>, b: seq<Reservation>, p: ProductId, st: ReservationState)
    requires |a| == |b|
    requires forall i :: 0 <= i < |a| ==> a[i].item == b[i].item && a[i].state == b[i].state
    ensures QtyIn(a, p, st) == QtyIn(b, p, st)
  {
    if a != [] {
      SameStatesSameQty(a[..|a| - 1], b[..|b| - 1], p, st);
    }
  }

  /** Closing one order's rows leaves what any other order holds. */
  lemma {:induction false} CloseHeldOthers(rows: seq<Reservation>, o: OrderId, to: ReservationState, other: OrderId, p: ProductId)
    requires to != Held && o != other
    ensures HeldBy(CloseHeld(rows, o, to), other, p) == HeldBy(rows, other, p)
    ensures HeldRows(CloseHeld(rows, o, to), other, p) == HeldRows(rows, other, p)
  {
    if rows != [] {
      CloseHeldOthers(rows[..|rows| - 1], o, to, other, p);
      var after := CloseHeld(rows, o, to);
      assert after[..|after| - 1] == CloseHeld(rows[..|rows| - 1], o, to);
    }
  }

  /** A cart row shows up in the rows of its order, and only there. */
  lemma {:induction false} EmptyCartNoRows(rows: seq<Reservation>, o: OrderId)
    ensures CartOf(rows, o) == [] <==> forall i :: 0 <= i < |rows| ==> rows[i].order != o
  {
    if rows != [] {
      EmptyCartNoRows(rows[..|rows| - 1], o);
      var front := rows[..|rows| - 1];
      if forall i :: 0 <= i < |rows| ==> rows[i].order != o {
        assert forall i :: 0 <= i < |front| ==> front[i] == rows[i];
      } else if rows[|rows| - 1].order != o {
        var i :| 0 <= i < |rows| && rows[i].order == o;
        assert front[i] == rows[i];
      }
    }
  }

  // ---- Independence of cart order ----

  lemma {:induction false} QtyOfSplit(items: seq<Item>, k: nat, p: ProductId)
    requires k < |items|
    ensures QtyOf(items, p)
         == QtyOf(items[..k] + items[k + 1..], p) + if items[k].product == p then items[k].qty else 0
  {
    var front := items[..|items| - 1];
    if k < |items| - 1 {
      QtyOfSplit(front, k, p);
      var cut := items[..k] + items[k + 1..];
      assert cut[..|cut| - 1] == front[..k] + front[k + 1..];
    } else {
      assert items[..k] + items[k + 1..] == front;
    }
  }

  lemma {:induction false} QtyOfPermuted(a: seq<Item>, b: seq<Item>, p: ProductId)
    requires multiset(a) == multiset(b)
    ensures QtyOf(a, p) == QtyOf(b, p)
    decreases |a|
  {
    if a == [] {
      assert |multiset(b)| == 0;
    } else {
      var n := |a| - 1;
      assert a == a[..n] + [a[n]];
      assert a[n] in multiset(b);
      var k :| 0 <= k < |b| && b[k] == a[n];
      assert b == b[..k] + [b[k]] + b[k + 1..];
      assert multiset(a) == multiset(a[..n]) + multiset{a[n]};
      assert multiset(b) == multiset(b[..k] + b[k + 1..]) + multiset{b[k]};
      assert multiset(a[..n]) == multiset(a) - multiset{a[n]};
      assert multiset(b[..k] + b[k + 1..]) == multiset(b) - multiset{b[k]};
      QtyOfPermuted(a[..n], b[..k] + b[k + 1..], p);
      QtyOfSplit(b, k, p);
    }
  }

  /** Whether a cart can be claimed, and the stock after the claim, ignore the cart's order. */
  lemma ClaimIgnoresCartOrder(products: map<ProductId, Product>, a: seq<Item>, b: seq<Item>)
    requires multiset(a) == multiset(b)
    ensures Claimable(products, a) <==> Claimable(products, b)
    ensures Reserve(products, a) == Reserve(products, b)
    ensures DistinctProducts(a) <==> DistinctProducts(b)
  {
    forall p ensures QtyOf(a, p) == QtyOf(b, p) {
      QtyOfPermuted(a, b, p);
    }
    forall x ensures x in a <==> x in b {
      assert x in a <==> x in multiset(a);
      assert x in b <==> x in multiset(b);
    }
    ClaimableByMembership(products, a);
    ClaimableByMembership(products, b);
    DistinctByTotals(a);
    DistinctByTotals(b);
  }

  lemma ClaimableByMembership(products: map<ProductId, Product>, a: seq<Item>)
    ensures Claimable(products, a) <==> forall x :: x in a ==> Covers(products, x.product, QtyOf(a, x.product))
  {
  }

  lemma {:induction false} QtyOfZero(items: seq<Item>, p: ProductId)
    ensures QtyOf(items, p) == 0 <==> forall i :: 0 <= i < |items| ==> items[i].product != p
  {
    if items != [] {
      var front := items[..|items| - 1];
      QtyOfZero(front, p);
      assert forall i :: 0 <= i < |front| ==> front[i] == items[i];
    }
  }

  /** Quantities are positive, so a repeated product shows in the total of each of its items. */
  lemma DistinctByTotals(a: seq<Item>)
    ensures DistinctProducts(a) <==> forall x :: x in a ==> QtyOf(a, x.product) == x.qty
  {
    forall k | 0 <= k < |a|
      ensures QtyOf(a, a[k].product) == a[k].qty
         <==> forall i :: 0 <= i < |a| && i != k ==> a[i].product != a[k].product
    {
      var rest := a[..k] + a[k + 1..];
      QtyOfSplit(a, k, a[k].product);
      QtyOfZero(rest, a[k].product);
      assert forall i :: 0 <= i < |a| && i != k ==> a[i] == rest[if i < k then i else i - 1];
    }
  }

  // ---- The sorted claim, one guarded update at a time ----

  function InsertByProduct(x: Item, items: seq<Item>): (r: seq<Item>)
    ensures multiset(r) == multiset(items) + multiset{x}
  {
    if items == [] then [x]
    else if x.product < items[0].product then [x] + items
    else
      assert items == [items[0]] + items[1..];
      [items[0]] + InsertByProduct(x, items[1..])
  }

  /** `sorted(items, key=product_id)`: locks are taken in this order. */
  function SortByProduct(items: seq<Item>): (r: seq<Item>)
    ensures multiset(r) == multiset(items)
  {
    if items == [] then []
    else
      assert items == items[..|items| - 1] + [items[|items| - 1]];
      InsertByProduct(items[|items| - 1], SortByProduct(items[..|items| - 1]))
  }

  predicate SortedByProduct(items: seq<Item>) {
    forall i, j :: 0 <= i < j < |items| ==> items[i].product <= items[j].product
  }

  lemma {:induction false} InsertKeepsSorted(x: Item, items: seq<Item>)
    requires SortedByProduct(items)
    ensures SortedByProduct(InsertByProduct(x, items))
  {
    if items != [] && items[0].product <= x.product {
      var rest := InsertByProduct(x, items[1..]);
      InsertKeepsSorted(x, items[1..]);
      forall y | y in rest ensures items[0].product <= y.product {
        assert y in multiset(rest);
        assert y in multiset(items[1..]) || y == x;
      }
    }
  }

  lemma {:induction false} SortIsSorted(items: seq<Item>)
    ensures SortedByProduct(SortByProduct(items))
  {
    if items != [] {
      SortIsSorted(items[..|items| - 1]);
      InsertKeepsSorted(items[|items| - 1], SortByProduct(items[..|items| - 1]));
    }
  }

  lemma QtyOfAppend(items: seq<Item>, x: Item, p: ProductId)
    ensures QtyOf(items + [x], p) == QtyOf(items, p) + if x.product == p then x.qty else 0
  {
  }

  /** The conditional UPDATE for one item; None when no row qualifies. */
  function ClaimOne(products: map<ProductId, Product>, x: Item): Option<map<ProductId, Product>> {
    if x.product !in products || products[x.product].deleted then None
    else
      var was := products[x.product];
      if was.onHand.Some? && was.onHand.value - was.reserved < x.qty then None
      else Some(products[x.product := was.(reserved := was.reserved + x.qty)])
  }

  lemma ReserveStep(products: map<ProductId, Product>, items: seq<Item>, x: Item)
    requires x.product in products
    ensures Reserve(products, items + [x])
         == var done := Reserve(products, items);
            done[x.product := done[x.product].(reserved := done[x.product].reserved + x.qty)]
  {
  }

  /** One more guarded update succeeds exactly when the longer cart is claimable, and reserves it. */
  lemma ClaimStep(products: map<ProductId, Product>, items: seq<Item>, x: Item)
    requires Claimable(products, items)
    ensures ClaimOne(Reserve(products, items), x)
         == if Claimable(products, items + [x]) then Some(Reserve(products, items + [x])) else None
  {
    var all := items + [x];
    forall p ensures QtyOf(all, p) == QtyOf(items, p) + if x.product == p then x.qty else 0 {
      QtyOfAppend(items, x, p);
    }
    if Covers(Reserve(products, items), x.product, x.qty) {
      forall i | 0 <= i < |all| ensures Covers(products, all[i].product, QtyOf(all, all[i].product)) {
        if i < |items| {
          assert Covers(products, items[i].product, QtyOf(items, items[i].product));
        }
      }
      ReserveStep(products, items, x);
    } else {
      assert !Covers(products, all[|items|].product, QtyOf(all, x.product));
    }
  }

  lemma {:induction false} QtyOfPrefix(items: seq<Item>, k: nat, p: ProductId)
    requires k <= |items|
    ensures QtyOf(items[..k], p) <= QtyOf(items, p)
  {
    if k < |items| {
      QtyOfPrefix(items[..|items| - 1], k, p);
      assert items[..|items| - 1][..k] == items[..k];
    } else {
      assert items[..k] == items;
    }
  }

  /** A cart with an unclaimable prefix is not claimable. */
  lemma UnclaimablePrefix(products: map<ProductId, Product>, items: seq<Item>, k: nat)
    requires k <= |items| && !Claimable(products, items[..k])
    ensures !Claimable(products, items)
  {
    var i :| 0 <= i < k && !Covers(products, items[..k][i].product, QtyOf(items[..k], items[..k][i].product));
    QtyOfPrefix(items, k, items[i].product);
    assert !Covers(products, items[i].product, QtyOf(items, items[i].product));
  }

  function GiveBackRow(stock: map<ProductId, Product>, r: Reservation, o: OrderId): map<ProductId, Product> {
    if r.order == o && r.state == Held && r.item.product in stock
    then
      var was := stock[r.item.product];
      stock[r.item.product := was.(reserved := was.reserved - r.item.qty)]
    else stock
  }

  lemma GiveBackStep(products: map<ProductId, Product>, rows: seq<Reservation>, r: Reservation, o: OrderId)
    ensures GiveBack(products, rows + [r], o) == GiveBackRow(GiveBack(products, rows, o), r, o)
  {
    assert (rows + [r])[..|rows|] == rows;
  }

  function SellRow(stock: map<ProductId, Product>, r: Reservation, o: OrderId): map<ProductId, Product> {
    if r.order == o && r.state == Held && r.item.product in stock
    then
      var was := stock[r.item.product];
      stock[r.item.product :=
        Product(Minus(was.onHand, r.item.qty), was.reserved - r.item.qty, was.deleted, was.revision + 1)]
    else stock
  }

  lemma SellStep(products: map<ProductId, Product>, rows: seq<Reservation>, r: Reservation, o: OrderId)
    ensures Sell(products, rows + [r], o) == SellRow(Sell(products, rows, o), r, o)
  {
    assert (rows + [r])[..|rows|] == rows;
  }
}
