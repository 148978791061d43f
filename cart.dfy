/** The cart (`cartItems`): one line per product added, holding a copy of the
    product as it was when first added and the number of units reserved. */
module Cart {
  import opened Options
  import opened Sequences
  import opened Catalog

  /** `{ ...original, quantity }`: the product snapshot and its quantity. */
  datatype CartLine = CartLine(product: Product, quantity: int)

  function LineIds(cart: seq<CartLine>): (ids: seq<string>)
    ensures |ids| == |cart| && forall k :: 0 <= k < |cart| ==> ids[k] == cart[k].product.id
  {
    seq(|cart|, k requires 0 <= k < |cart| => cart[k].product.id)
  }

  /** `cartItems.findIndex(p => p.id === id)` (`None` for -1). */
  function FindLine(cart: seq<CartLine>, id: string): (r: Option<nat>)
    ensures r.None? <==> forall k :: 0 <= k < |cart| ==> cart[k].product.id != id
    ensures r.Some? ==> r.value < |cart| && cart[r.value].product.id == id
    ensures r.Some? ==> forall k :: 0 <= k < r.value ==> cart[k].product.id != id
  {
    var r := FirstIndex(LineIds(cart), id);
    assert r.Some? ==> forall k :: 0 <= k < r.value ==> LineIds(cart)[..r.value][k] == cart[k].product.id;
    r
  }

  /** What is summed over the lines of a cart. */
  datatype Measure =
    | UnitsOf(id: string)  // the units reserved for one product id
    | AllUnits             // all units (the badge `cartCount`)
    | Value                // `price * quantity` (the `cartTotal`)

  function Weight(line: CartLine, m: Measure): int {
    match m
    case UnitsOf(id) => if line.product.id == id then line.quantity else 0
    case AllUnits => line.quantity
    case Value => line.product.price * line.quantity
  }

  /** `cart.reduce((sum, line) => sum + Weight(line, m), 0)`. */
  function Sum(cart: seq<CartLine>, m: Measure): int
    decreases |cart|
  {
    if cart == [] then 0 else Weight(cart[0], m) + Sum(cart[1..], m)
  }

  /** The units of product `id` held in the cart, over all its lines. */
  function Reserved(cart: seq<CartLine>, id: string): int { Sum(cart, UnitsOf(id)) }

  /** `cartCount`: the sum of the line quantities. */
  function Count(cart: seq<CartLine>): int { Sum(cart, AllUnits) }

  /** `cartTotal`: the sum of `price * quantity` over the lines. */
  function Total(cart: seq<CartLine>): int { Sum(cart, Value) }

  /** The cart shape the components keep: at most one line per product id, and
      every line holds at least one unit. */
  predicate Shape(cart: seq<CartLine>) {
    (forall k :: 0 <= k < |cart| ==> cart[k].quantity >= 1) &&
    (forall j, k :: 0 <= j < k < |cart| ==> cart[j].product.id != cart[k].product.id)
  }

  lemma {:induction false} SumConcat(a: seq<CartLine>, b: seq<CartLine>, m: Measure)
    ensures Sum(a + b, m) == Sum(a, m) + Sum(b, m)
    decreases |a|
  {
    if a == [] {
      assert a + b == b;
    } else {
      assert (a + b)[1..] == a[1..] + b;
      SumConcat(a[1..], b, m);
    }
  }

  /** Replacing line `j` changes every sum by the difference of the two lines' weights. */
  lemma SumUpdate(cart: seq<CartLine>, j: nat, line: CartLine, m: Measure)
    requires j < |cart|
    ensures Sum(cart[j := line], m) == Sum(cart, m) - Weight(cart[j], m) + Weight(line, m)
  {
    assert cart == cart[..j] + [cart[j]] + cart[j + 1..];
    assert cart[j := line] == cart[..j] + [line] + cart[j + 1..];
    SumConcat(cart[..j] + [cart[j]], cart[j + 1..], m);
    SumConcat(cart[..j], [cart[j]], m);
    SumConcat(cart[..j] + [line], cart[j + 1..], m);
    SumConcat(cart[..j], [line], m);
  }

  /** Splicing out line `j` takes its weight off every sum. */
  lemma SumRemoveAt(cart: seq<CartLine>, j: nat, m: Measure)
    requires j < |cart|
    ensures Sum(cart[..j] + cart[j + 1..], m) == Sum(cart, m) - Weight(cart[j], m)
  {
    assert cart == cart[..j] + [cart[j]] + cart[j + 1..];
    SumConcat(cart[..j] + [cart[j]], cart[j + 1..], m);
    SumConcat(cart[..j], [cart[j]], m);
    SumConcat(cart[..j], cart[j + 1..], m);
  }

  /** Appending a line adds its weight to every sum. */
  lemma SumAppend(cart: seq<CartLine>, line: CartLine, m: Measure)
    ensures Sum(cart + [line], m) == Sum(cart, m) + Weight(line, m)
  {
    SumConcat(cart, [line], m);
  }

  /** No line for `id`, no units reserved for it. */
  lemma {:induction false} ReservedAbsent(cart: seq<CartLine>, id: string)
    requires forall k :: 0 <= k < |cart| ==> cart[k].product.id != id
    ensures Reserved(cart, id) == 0
    decreases |cart|
  {
    if cart != [] {
      ReservedAbsent(cart[1..], id);
    }
  }

  /** In a well-shaped cart the units reserved for `id` are the quantity of the
      line `findIndex` returns, or 0 when there is none. */
  lemma ReservedIsLineQuantity(cart: seq<CartLine>, id: string)
    requires Shape(cart)
    ensures Reserved(cart, id) == match FindLine(cart, id)
      case None => 0
      case Some(j) => cart[j].quantity
  {
    match FindLine(cart, id)
    case None => ReservedAbsent(cart, id);
    case Some(j) =>
      assert cart == cart[..j] + [cart[j]] + cart[j + 1..];
      SumConcat(cart[..j] + [cart[j]], cart[j + 1..], UnitsOf(id));
      SumConcat(cart[..j], [cart[j]], UnitsOf(id));
      ReservedAbsent(cart[..j], id);
      ReservedAbsent(cart[j + 1..], id);
  }

  /** Every line of a well-shaped cart holds a unit, so the badge count is at least
      the number of lines, and zero only for the empty cart. */
  lemma {:induction false} CountOfShape(cart: seq<CartLine>)
    ensures Shape(cart) ==> Count(cart) >= |cart|
    ensures Shape(cart) ==> (Count(cart) == 0 <==> cart == [])
    decreases |cart|
  {
    if cart != [] && Shape(cart) {
      assert Shape(cart[1..]);
      CountOfShape(cart[1..]);
    }
  }
}
