/**
 * The shopping cart kept by the storefront pages. The product-detail page
 * (public/product-detail.js) and the catalogue page (public/script.js) carry the
 * same cart code; the catalogue page has no add operation. The cart is an array of
 * line items that each handler loads, changes in place and stores back; here it is
 * the field `items` of a `Cart` object. Prices are whole cents.
 */
module Cart {
  import opened Wrappers

  /** A product as the detail page holds it after fetching it. */
  datatype Product = Product(id: int, name: string, price: int, media: Option<string>)

  /** A cart line: the product's fields spread into a new record, plus a quantity. */
  datatype LineItem = LineItem(id: int, name: string, price: int, quantity: int, media: Option<string>)

  /** What the checkout button reports: an empty cart, or a purchase with its total. */
  datatype CheckoutOutcome = EmptyCart | Purchased(total: int)

  function NewLine(p: Product): LineItem {
    LineItem(p.id, p.name, p.price, 1, p.media)
  }

  function Max(a: int, b: int): int {
    if a < b then b else a
  }

  function LineTotal(item: LineItem): int {
    item.price * item.quantity
  }

  /** `i` is the position of the first line whose id is `id`. */
  predicate FirstWithId(items: seq<LineItem>, id: int, i: int) {
    0 <= i < |items| && items[i].id == id && forall j :: 0 <= j < i ==> items[j].id != id
  }

  predicate HasId(items: seq<LineItem>, id: int) {
    exists j :: 0 <= j < |items| && items[j].id == id
  }

  predicate UniqueIds(items: seq<LineItem>) {
    forall i, j :: 0 <= i < j < |items| ==> items[i].id != items[j].id
  }

  /** The invariant the cart operations keep: no repeated id, every quantity at least 1. */
  predicate WellFormed(items: seq<LineItem>) {
    UniqueIds(items) && forall i :: 0 <= i < |items| ==> items[i].quantity >= 1
  }

  /** `cart.find(item => item.id === id)`, as the position it finds. */
  function FindFirst(items: seq<LineItem>, id: int): (r: Option<nat>)
    ensures r.Some? ==> FirstWithId(items, id, r.value)
    ensures r.None? <==> !HasId(items, id)
  {
    if items == [] then None
    else if items[0].id == id then Some(0)
    else match FindFirst(items[1..], id)
      case None => None
      case Some(k) => Some(k + 1)
  }

  /** The cart after adding product `p` once. */
  function Added(items: seq<LineItem>, p: Product): seq<LineItem> {
    match FindFirst(items, p.id)
    case Some(i) => items[i := items[i].(quantity := items[i].quantity + 1)]
    case None => items + [NewLine(p)]
  }

  /** The cart after the quantity box of line `id` was changed to `q`. */
  function WithQuantity(items: seq<LineItem>, id: int, q: int): seq<LineItem> {
    match FindFirst(items, id)
    case Some(i) => items[i := items[i].(quantity := Max(1, q))]
    case None => items
  }

  /** `cart.filter(item => item.id !== id)`. */
  function Removed(items: seq<LineItem>, id: int): seq<LineItem> {
    if items == [] then []
    else (if items[0].id != id then [items[0]] else []) + Removed(items[1..], id)
  }

  /** The running total the cart panel accumulates, line by line. */
  function Sum(items: seq<LineItem>): int {
    if items == [] then 0 else Sum(items[..|items| - 1]) + LineTotal(items[|items| - 1])
  }

  class Cart {
    var items: seq<LineItem>

    /** No cart stored yet: the empty cart. */
    constructor ()
      ensures items == []
    {
      items := [];
    }

    method AddToCart(p: Product)
      modifies this
      ensures items == Added(old(items), p)
    {
      match FindFirst(items, p.id)
      case Some(i) =>
        items := items[i := items[i].(quantity := items[i].quantity + 1)];
      case None =>
        items := items + [NewLine(p)];
    }

    /** Returns whether the cart was saved, which happens only when a line has this id. */
    method UpdateQuantity(id: int, q: int) returns (saved: bool)
      modifies this
      ensures saved <==> HasId(old(items), id)
      ensures items == WithQuantity(old(items), id, q)
      ensures !saved ==> items == old(items)
    {
      match FindFirst(items, id)
      case Some(i) =>
        items := items[i := items[i].(quantity := Max(1, q))];
        saved := true;
      case None =>
        saved := false;
    }

    method RemoveFromCart(id: int)
      modifies this
      ensures items == Removed(old(items), id)
    {
      items := Removed(items, id);
    }

    /** The total shown under the cart, accumulated line by line. */
    method Total() returns (total: int)
      ensures total == Sum(items)
    {
      total := 0;
      for i := 0 to |items|
        invariant total == Sum(items[..i])
      {
        assert items[..i + 1][..i] == items[..i];
        total := total + items[i].price * items[i].quantity;
      }
      assert items[..|items|] == items;
    }

    /** An empty cart is reported and kept; otherwise the purchase is reported and the cart cleared. */
    method Checkout() returns (outcome: CheckoutOutcome)
      modifies this
      ensures old(items) == [] ==> outcome == EmptyCart && items == old(items)
      ensures old(items) != [] ==> outcome == Purchased(Sum(old(items))) && items == []
    {
      if |items| == 0 {
        outcome := EmptyCart;
      } else {
        var total := Total();
        outcome := Purchased(total);
        items := [];
      }
    }
  }

  // ---- Adding -------------------------------------------------------------

  /** A product already in the cart: its first line gains exactly one unit, nothing else moves. */
  lemma AddPresent(items: seq<LineItem>, p: Product, i: int)
    requires FirstWithId(items, p.id, i)
    ensures |Added(items, p)| == |items|
    ensures Added(items, p)[i] == items[i].(quantity := items[i].quantity + 1)
    ensures forall j :: 0 <= j < |items| && j != i ==> Added(items, p)[j] == items[j]
  {
    var r := FindFirst(items, p.id);
    assert r.Some? && r.value == i;
  }

  /** A product not in the cart: one line with quantity 1 is appended after the others. */
  lemma AddAbsent(items: seq<LineItem>, p: Product)
    requires !HasId(items, p.id)
    ensures Added(items, p) == items + [LineItem(p.id, p.name, p.price, 1, p.media)]
  {
  }

  lemma AddKeepsWellFormed(items: seq<LineItem>, p: Product)
    requires WellFormed(items)
    ensures WellFormed(Added(items, p))
    ensures HasId(Added(items, p), p.id)
  {
    var r := Added(items, p);
    match FindFirst(items, p.id)
    case Some(i) =>
      assert r[i].id == p.id;
    case None =>
      assert r[|items|].id == p.id;
  }

  /**
   * Adding a product already in the cart raises the total by the price stored in its
   * line (not the price of the product object passed in, which may have changed).
   */
  lemma AddTotalPresent(items: seq<LineItem>, p: Product, i: int)
    requires FirstWithId(items, p.id, i)
    ensures Sum(Added(items, p)) == Sum(items) + items[i].price
  {
    AddPresent(items, p, i);
    var x := items[i].(quantity := items[i].quantity + 1);
    assert Added(items, p) == items[i := x];
    SumUpdate(items, i, x);
    assert LineTotal(x) - LineTotal(items[i]) == items[i].price * 1 by {
      Difference(items[i].price, items[i].quantity, items[i].quantity + 1);
    }
  }

  /** Adding a new product raises the total by its price. */
  lemma AddTotalAbsent(items: seq<LineItem>, p: Product)
    requires !HasId(items, p.id)
    ensures Sum(Added(items, p)) == Sum(items) + p.price
  {
    SumAppend(items, [NewLine(p)]);
    SumSingle(NewLine(p));
  }

  // ---- Changing a quantity ------------------------------------------------

  /** The first line with the id gets max(1, q), so at least 1; the rest stay. */
  lemma QuantityClamped(items: seq<LineItem>, id: int, q: int, i: int)
    requires FirstWithId(items, id, i)
    ensures |WithQuantity(items, id, q)| == |items|
    ensures WithQuantity(items, id, q)[i] == items[i].(quantity := if q < 1 then 1 else q)
    ensures WithQuantity(items, id, q)[i].quantity >= 1
    ensures forall j :: 0 <= j < |items| && j != i ==> WithQuantity(items, id, q)[j] == items[j]
  {
    var r := FindFirst(items, id);
    assert r.Some? && r.value == i;
  }

  lemma QuantityOfMissingId(items: seq<LineItem>, id: int, q: int)
    requires !HasId(items, id)
    ensures WithQuantity(items, id, q) == items
  {
  }

  lemma QuantityKeepsWellFormed(items: seq<LineItem>, id: int, q: int)
    requires WellFormed(items)
    ensures WellFormed(WithQuantity(items, id, q))
  {
  }

  /** Changing a quantity changes the total by the price times the change. */
  lemma QuantityTotal(items: seq<LineItem>, id: int, q: int, i: int)
    requires FirstWithId(items, id, i)
    ensures Sum(WithQuantity(items, id, q)) == Sum(items) + items[i].price * (Max(1, q) - items[i].quantity)
  {
    var price, before, after := items[i].price, items[i].quantity, Max(1, q);
    var x := items[i].(quantity := after);
    var found := FindFirst(items, id);
    assert found == Some(i);
    assert WithQuantity(items, id, q) == items[i := x];
    SumUpdate(items, i, x);
    assert LineTotal(x) - LineTotal(items[i]) == price * (after - before) by {
      Difference(price, before, after);
    }
  }

  // ---- Removing -----------------------------------------------------------

  /** Exactly the lines whose id differs survive. */
  lemma {:induction false} RemovedMembers(items: seq<LineItem>, id: int)
    ensures |Removed(items, id)| <= |items|
    ensures forall x :: x in Removed(items, id) <==> x in items && x.id != id
  {
    if items != [] {
      RemovedMembers(items[1..], id);
      assert items == [items[0]] + items[1..];
    }
  }

  /** Removing keeps order: it acts on each part of a split cart separately. */
  lemma {:induction false} RemovedAppend(a: seq<LineItem>, b: seq<LineItem>, id: int)
    ensures Removed(a + b, id) == Removed(a, id) + Removed(b, id)
  {
    if a == [] {
      assert a + b == b;
    } else {
      var t := a[1..];
      var head := if a[0].id != id then [a[0]] else [];
      RemovedAppend(t, b, id);
      calc {
        Removed(a + b, id);
      == { assert (a + b)[0] == a[0]; assert (a + b)[1..] == t + b; }
        head + Removed(t + b, id);
      ==
        head + (Removed(t, id) + Removed(b, id));
      == { SeqAssociative(head, Removed(t, id), Removed(b, id)); }
        (head + Removed(t, id)) + Removed(b, id);
      }
    }
  }

  lemma SeqAssociative(u: seq<LineItem>, v: seq<LineItem>, w: seq<LineItem>)
    ensures u + (v + w) == (u + v) + w
  {
  }

  lemma {:induction false} RemovedAbsent(items: seq<LineItem>, id: int)
    requires !HasId(items, id)
    ensures Removed(items, id) == items
  {
    if items != [] {
      assert !HasId(items[1..], id) by {
        forall j | 0 <= j < |items[1..]| ensures items[1..][j].id != id {
          assert items[1..][j] == items[j + 1];
        }
      }
      RemovedAbsent(items[1..], id);
      assert items == [items[0]] + items[1..];
    }
  }

  lemma {:induction false} RemovedIdempotent(items: seq<LineItem>, id: int)
    ensures Removed(Removed(items, id), id) == Removed(items, id)
  {
    RemovedMembers(items, id);
    var r := Removed(items, id);
    assert !HasId(r, id) by {
      forall j | 0 <= j < |r| ensures r[j].id != id {
        assert r[j] in r;
      }
    }
    RemovedAbsent(r, id);
  }

  lemma {:induction false} RemovedKeepsWellFormed(items: seq<LineItem>, id: int)
    requires WellFormed(items)
    ensures WellFormed(Removed(items, id))
  {
    if items != [] {
      var rest := items[1..];
      assert WellFormed(rest);
      RemovedKeepsWellFormed(rest, id);
      RemovedMembers(rest, id);
      var r := Removed(rest, id);
      if items[0].id != id {
        assert Removed(items, id) == [items[0]] + r;
        forall j | 0 <= j < |r| ensures r[j].id != items[0].id {
          assert r[j] in rest;
          var k :| 0 <= k < |rest| && rest[k] == r[j];
          assert rest[k] == items[k + 1];
        }
        ConsWellFormed(items[0], r);
      } else {
        assert Removed(items, id) == [] + r;
      }
    }
  }

  lemma ConsWellFormed(x: LineItem, r: seq<LineItem>)
    requires WellFormed(r) && x.quantity >= 1
    requires forall j :: 0 <= j < |r| ==> r[j].id != x.id
    ensures WellFormed([x] + r)
  {
    var c := [x] + r;
    forall j | 1 <= j < |c| ensures c[j] == r[j - 1] {
    }
  }

  /** In a cart without repeated ids, removing an id takes out exactly its one line. */
  lemma RemovedUnique(items: seq<LineItem>, id: int, i: int)
    requires UniqueIds(items) && FirstWithId(items, id, i)
    ensures Removed(items, id) == items[..i] + items[i + 1..]
  {
    var a, x, b := items[..i], items[i], items[i + 1..];
    assert items == (a + [x]) + b;
    assert !HasId(a, id);
    assert !HasId(b, id) by {
      forall j | 0 <= j < |b| ensures b[j].id != id {
        assert b[j] == items[i + 1 + j];
      }
    }
    RemovedAppend(a + [x], b, id);
    RemovedAppend(a, [x], id);
    RemovedAbsent(a, id);
    RemovedAbsent(b, id);
    assert Removed([x], id) == [] by {
      assert [x][1..] == [];
    }
    calc {
      Removed(items, id);
      Removed(a + [x], id) + Removed(b, id);
      (Removed(a, id) + Removed([x], id)) + b;
      (a + []) + b;
    { assert a + [] == a; }
      a + b;
    }
  }

  /** In a cart without repeated ids, removing a line lowers the total by that line's amount. */
  lemma RemovedTotal(items: seq<LineItem>, id: int, i: int)
    requires UniqueIds(items) && FirstWithId(items, id, i)
    ensures Sum(Removed(items, id)) == Sum(items) - LineTotal(items[i])
  {
    RemovedUnique(items, id, i);
    var a, b := items[..i], items[i + 1..];
    assert items == (a + [items[i]]) + b;
    SumAppend(a, b);
    SumAppend(a + [items[i]], b);
    SumAppend(a, [items[i]]);
    SumSingle(items[i]);
  }

  // ---- Totals -------------------------------------------------------------

  lemma Distribute(p: int, a: int, d: int)
    ensures p * (a + d) == p * a + p * d
  {
  }

  lemma Difference(p: int, a: int, b: int)
    ensures p * b - p * a == p * (b - a)
  {
    Distribute(p, a, b - a);
  }

  lemma SumSingle(x: LineItem)
    ensures Sum([x]) == LineTotal(x)
  {
    assert [x][..0] == [];
  }

  /** The total of a split cart is the sum of the parts' totals. */
  lemma {:induction false} SumAppend(a: seq<LineItem>, b: seq<LineItem>)
    ensures Sum(a + b) == Sum(a) + Sum(b)
  {
    if b == [] {
      assert a + b == a;
    } else {
      SumAppend(a, b[..|b| - 1]);
      assert (a + b)[..|a + b| - 1] == a + b[..|b| - 1];
    }
  }

  /** Replacing one line changes the total by the difference of the two lines' amounts. */
  lemma SumUpdate(items: seq<LineItem>, i: int, x: LineItem)
    requires 0 <= i < |items|
    ensures Sum(items[i := x]) == Sum(items) - LineTotal(items[i]) + LineTotal(x)
  {
    var a, b := items[..i], items[i + 1..];
    assert items == (a + [items[i]]) + b;
    assert items[i := x] == (a + [x]) + b;
    SumAppend(a + [items[i]], b);
    SumAppend(a + [x], b);
    SumAppend(a, [items[i]]);
    SumAppend(a, [x]);
    SumSingle(items[i]);
    SumSingle(x);
  }

  /** A well-formed cart of non-negative prices never totals below zero; the empty cart totals 0. */
  lemma {:induction false} SumNonNegative(items: seq<LineItem>)
    requires WellFormed(items)
    requires forall i :: 0 <= i < |items| ==> items[i].price >= 0
    ensures Sum(items) >= 0
    ensures items == [] ==> Sum(items) == 0
  {
    if items != [] {
      var init := items[..|items| - 1];
      assert WellFormed(init);
      SumNonNegative(init);
      var last := items[|items| - 1];
      assert last.price >= 0 && last.quantity >= 1;
    }
  }
}
