/**
 * Pricing of a cart when an order is placed: every line is priced at the
 * catalog price of its food id, never at anything the client sent, and the
 * order stores the lines' ids and quantities as they came.
 */
module Pricing {
  import opened Responses
  import opened Records

  /**
   * One line of the client's cart. `price` is whatever price the client
   * may have put in the line; pricing never reads it.
   */
  datatype CartLine = CartLine(id: Option<string>, qty: Option<int>, price: Option<int>)

  /** The first food of `catalog` whose id text equals `id` (an absent id matches nothing). */
  function FindFood(catalog: seq<Food>, id: Option<string>): (f: Option<Food>)
    ensures f.Some? ==> f.value in catalog && id == Some(f.value.id)
    ensures f.None? <==> forall j :: 0 <= j < |catalog| ==> id != Some(catalog[j].id)
  {
    if catalog == [] then None
    else if id == Some(catalog[0].id) then Some(catalog[0])
    else
      var f := FindFood(catalog[1..], id);
      assert forall j :: 1 <= j < |catalog| ==> catalog[j] == catalog[1..][j - 1];
      f
  }

  /** When several foods share an id, the one found is the earliest. */
  lemma {:induction false} FindFoodFirst(catalog: seq<Food>, id: Option<string>, k: nat)
    requires k < |catalog| && id == Some(catalog[k].id)
    requires forall j :: 0 <= j < k ==> id != Some(catalog[j].id)
    ensures FindFood(catalog, id) == Some(catalog[k])
  {
    if k > 0 {
      assert id != Some(catalog[0].id);
      FindFoodFirst(catalog[1..], id, k - 1);
    }
  }

  /** A food's price, where a missing price counts as 0. */
  function PriceOrZero(f: Food): int
  {
    if f.price.Some? then f.price.value else 0
  }

  /** No food of `catalog` has the id `id`. */
  predicate Unknown(catalog: seq<Food>, id: Option<string>)
  {
    forall j :: 0 <= j < |catalog| ==> id != Some(catalog[j].id)
  }

  /** `catalog[k]` is the earliest food whose id is `id`. */
  predicate FirstWithId(catalog: seq<Food>, id: Option<string>, k: nat)
  {
    k < |catalog| && id == Some(catalog[k].id) && Unknown(catalog[..k], id)
  }

  /** `f?.price || 0`: the catalog price of `id`, 0 for an unknown id or a missing price. */
  function UnitPrice(catalog: seq<Food>, id: Option<string>): (p: int)
    ensures Unknown(catalog, id) ==> p == 0
    ensures forall k: nat :: FirstWithId(catalog, id, k) ==> p == PriceOrZero(catalog[k])
  {
    var f := FindFood(catalog, id);
    forall k: nat | FirstWithId(catalog, id, k) ensures f == Some(catalog[k]) {
      assert forall j :: 0 <= j < k ==> catalog[j] == catalog[..k][j];
      FindFoodFirst(catalog, id, k);
    }
    if f.Some? then PriceOrZero(f.value) else 0
  }

  /** `qty || 1`: the quantity a line is priced at. Only a missing or zero quantity becomes 1. */
  function Quantity(qty: Option<int>): (n: int)
    ensures n != 0
    ensures n == 1 || qty == Some(n)
    ensures qty.Some? && qty.value != 0 ==> n == qty.value
  {
    if qty.None? || qty.value == 0 then 1 else qty.value
  }

  function LineAmount(catalog: seq<Food>, line: CartLine): (amount: int)
    ensures Unknown(catalog, line.id) ==> amount == 0
  {
    UnitPrice(catalog, line.id) * Quantity(line.qty)
  }

  /** The order total: the sum, over the cart, of catalog price times quantity. */
  function CartTotal(catalog: seq<Food>, lines: seq<CartLine>): (total: int)
    ensures catalog == [] ==> total == 0
  {
    if lines == [] then 0
    else CartTotal(catalog, lines[..|lines| - 1]) + LineAmount(catalog, lines[|lines| - 1])
  }

  /** The order item stored for a cart line: its id and its raw quantity. */
  function Stored(line: CartLine): OrderItem
  {
    OrderItem(line.id, line.qty)
  }

  /** `items.map(i => i.id)`: the ids the catalog is queried for. */
  function LineIds(lines: seq<CartLine>): (ids: seq<Option<string>>)
    ensures |ids| == |lines| && forall i :: 0 <= i < |lines| ==> ids[i] == lines[i].id
  {
    seq(|lines|, i requires 0 <= i < |lines| => lines[i].id)
  }

  /** `Food.find({ _id: { $in: ids } })`: the catalog foods whose id is one of `ids`, in catalog order. */
  function QueriedFoods(catalog: seq<Food>, ids: seq<Option<string>>): (found: seq<Food>)
    ensures forall f :: f in found <==> f in catalog && Some(f.id) in ids
  {
    if catalog == [] then []
    else
      var rest := QueriedFoods(catalog[1..], ids);
      assert forall f :: f in catalog <==> f == catalog[0] || f in catalog[1..];
      (if Some(catalog[0].id) in ids then [catalog[0]] else []) + rest
  }

  /** Looking an id up among the queried foods finds what looking it up in the whole catalog finds. */
  lemma {:induction false} QueriedLookup(catalog: seq<Food>, ids: seq<Option<string>>, id: Option<string>)
    requires id in ids
    ensures FindFood(QueriedFoods(catalog, ids), id) == FindFood(catalog, id)
  {
    if catalog != [] {
      var rest := QueriedFoods(catalog[1..], ids);
      QueriedLookup(catalog[1..], ids, id);
      if Some(catalog[0].id) in ids {
        assert QueriedFoods(catalog, ids) == [catalog[0]] + rest;
        assert ([catalog[0]] + rest)[1..] == rest;
      } else {
        assert QueriedFoods(catalog, ids) == rest;
      }
    }
  }

  /** Every line of the cart is priced the same against the queried foods as against the whole catalog. */
  lemma {:induction false} QueriedTotal(catalog: seq<Food>, ids: seq<Option<string>>, lines: seq<CartLine>)
    requires forall i :: 0 <= i < |lines| ==> lines[i].id in ids
    ensures CartTotal(QueriedFoods(catalog, ids), lines) == CartTotal(catalog, lines)
  {
    if lines != [] {
      var n := |lines| - 1;
      QueriedTotal(catalog, ids, lines[..n]);
      QueriedLookup(catalog, ids, lines[n].id);
    }
  }

  /**
   * The loop of `placeOrder`: accumulates the total while building the
   * stored order items, pricing each line against the queried foods.
   */
  method PriceCart(catalog: seq<Food>, items: seq<CartLine>) returns (total: int, orderItems: seq<OrderItem>)
    ensures total == CartTotal(catalog, items)
    ensures |orderItems| == |items|
    ensures forall i :: 0 <= i < |items| ==> orderItems[i] == OrderItem(items[i].id, items[i].qty)
  {
    var ids := LineIds(items);
    var foods := QueriedFoods(catalog, ids);
    total := 0;
    orderItems := [];
    for i := 0 to |items|
      invariant total == CartTotal(foods, items[..i])
      invariant |orderItems| == i
      invariant forall j :: 0 <= j < i ==> orderItems[j] == Stored(items[j])
    {
      var price := UnitPrice(foods, items[i].id);
      total := total + price * Quantity(items[i].qty);
      orderItems := orderItems + [Stored(items[i])];
      assert items[..i + 1][..i] == items[..i];
    }
    assert items[..|items|] == items;
    QueriedTotal(catalog, ids, items);
  }

  /** The total of two carts placed one after the other is the sum of their totals. */
  lemma {:induction false} CartTotalAppend(catalog: seq<Food>, a: seq<CartLine>, b: seq<CartLine>)
    ensures CartTotal(catalog, a + b) == CartTotal(catalog, a) + CartTotal(catalog, b)
  {
    if b == [] {
      assert a + b == a;
    } else {
      var n := |b| - 1;
      CartTotalAppend(catalog, a, b[..n]);
      assert (a + b)[..|a + b| - 1] == a + b[..n];
      assert (a + b)[|a + b| - 1] == b[n];
    }
  }

  /** The total depends on the lines' ids and quantities only: client prices are never read. */
  lemma {:induction false} ClientPriceIgnored(catalog: seq<Food>, a: seq<CartLine>, b: seq<CartLine>)
    requires |a| == |b|
    requires forall i :: 0 <= i < |a| ==> a[i].id == b[i].id && a[i].qty == b[i].qty
    ensures CartTotal(catalog, a) == CartTotal(catalog, b)
  {
    if a != [] {
      var n := |a| - 1;
      ClientPriceIgnored(catalog, a[..n], b[..n]);
    }
  }

  /** The lines whose id names a catalog food. */
  function KnownLines(catalog: seq<Food>, lines: seq<CartLine>): (known: seq<CartLine>)
    ensures |known| <= |lines|
    ensures forall l :: l in known <==> l in lines && FindFood(catalog, l.id).Some?
  {
    if lines == [] then []
    else
      var n := |lines| - 1;
      assert lines == lines[..n] + [lines[n]];
      assert forall l :: l in lines <==> l in lines[..n] || l == lines[n];
      KnownLines(catalog, lines[..n]) + (if FindFood(catalog, lines[n].id).Some? then [lines[n]] else [])
  }

  /** Lines with an unknown food id contribute nothing: dropping them leaves the total unchanged. */
  lemma {:induction false} UnknownLinesAddNothing(catalog: seq<Food>, lines: seq<CartLine>)
    ensures CartTotal(catalog, KnownLines(catalog, lines)) == CartTotal(catalog, lines)
  {
    if lines != [] {
      var n := |lines| - 1;
      UnknownLinesAddNothing(catalog, lines[..n]);
      var known := KnownLines(catalog, lines[..n]);
      if FindFood(catalog, lines[n].id).Some? {
        CartTotalAppend(catalog, known, [lines[n]]);
        assert [lines[n]][..0] == [];
      } else {
        assert KnownLines(catalog, lines) == known;
        assert LineAmount(catalog, lines[n]) == 0;
      }
    }
  }

  /** Signs of a product, for the two lemmas below. */
  lemma ProductSign(a: int, b: int)
    ensures a >= 0 && b >= 0 ==> a * b >= 0
    ensures a > 0 && b < 0 ==> a * b < 0
  {
  }

  /** With no negative catalog price and no negative quantity, the total is not negative. */
  lemma {:induction false} TotalNonNegative(catalog: seq<Food>, lines: seq<CartLine>)
    requires forall f :: f in catalog ==> PriceOrZero(f) >= 0
    requires forall i :: 0 <= i < |lines| ==> lines[i].qty.None? || lines[i].qty.value >= 0
    ensures CartTotal(catalog, lines) >= 0
  {
    if lines != [] {
      var n := |lines| - 1;
      TotalNonNegative(catalog, lines[..n]);
      var price := UnitPrice(catalog, lines[n].id);
      assert price >= 0 by {
        var f := FindFood(catalog, lines[n].id);
        if f.Some? {
          assert f.value in catalog;
        }
      }
      var qty := Quantity(lines[n].qty);
      assert qty >= 1;
      ProductSign(price, qty);
      assert CartTotal(catalog, lines) == CartTotal(catalog, lines[..n]) + price * qty;
    }
  }

  /** A negative quantity is kept as it is, so it lowers the total. */
  lemma NegativeQuantityLowersTotal(catalog: seq<Food>, line: CartLine)
    requires FindFood(catalog, line.id).Some? && PriceOrZero(FindFood(catalog, line.id).value) > 0
    requires line.qty.Some? && line.qty.value < 0
    ensures CartTotal(catalog, [line]) < 0
  {
    var price := UnitPrice(catalog, line.id);
    assert price > 0;
    ProductSign(price, line.qty.value);
    assert [line][..0] == [];
    assert CartTotal(catalog, [line]) == price * line.qty.value;
  }
}
