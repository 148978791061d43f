/** The rule the cart operations of both components share: every unit put in the
    cart is taken from the matching product's stock, and removing a line or
    clearing the cart gives its units back. */
module Reconciliation {
  import opened Options
  import opened Catalog
  import opened Cart

  /** The state the cart operations read and write. */
  datatype Session = Session(catalog: seq<Product>, cart: seq<CartLine>)

  /** Which branch `addToCart` takes: the early return for an unknown id, the
      early return after the out-of-stock warning, or the reservation. */
  datatype AddOutcome = Added | UnknownProduct | OutOfStock

  function AddOutcomeOf(s: Session, id: string): AddOutcome {
    match Find(s.catalog, id)
    case None => UnknownProduct
    case Some(i) => if s.catalog[i].stock <= 0 then OutOfStock else Added
  }

  /** `addToCart`: for a known product with stock left, one more unit in its line
      (a new line holding a copy of the product if there is none) and one unit
      less in stock; otherwise nothing changes. */
  function Add(s: Session, id: string): Session {
    match Find(s.catalog, id)
    case None => s
    case Some(i) =>
      var original := s.catalog[i];
      if original.stock <= 0 then s
      else
        var cart' := match FindLine(s.cart, id)
          case Some(j) => s.cart[j := s.cart[j].(quantity := s.cart[j].quantity + 1)]
          case None => s.cart + [CartLine(original, 1)];
        Session(AdjustAt(s.catalog, i, -1), cart')
  }

  /** `removeFromCart`: the whole line for `id` goes and its quantity goes back to
      the product it came from, if that product is still in the catalog. */
  function Remove(s: Session, id: string): Session {
    match FindLine(s.cart, id)
    case None => s
    case Some(j) =>
      var line := s.cart[j];
      Session(Restocked(s.catalog, line.product.id, line.quantity), s.cart[..j] + s.cart[j + 1..])
  }

  /** The `forEach` of `clearCart`: each line, in order, gives its quantity back. */
  function Restock(c: seq<Product>, cart: seq<CartLine>): seq<Product>
    decreases |cart|
  {
    if cart == [] then c
    else Restock(Restocked(c, cart[0].product.id, cart[0].quantity), cart[1..])
  }

  /** `clearCart`. */
  function Clear(s: Session): Session {
    Session(Restock(s.catalog, s.cart), [])
  }

  /** Units of `id` in stock plus units of `id` in the cart: the conserved quantity. */
  function Level(s: Session, id: string): int {
    StockOf(s.catalog, id) + Reserved(s.cart, id)
  }

  /** The invariant kept by the cart operations: the cart is well shaped, each of
      its lines belongs to a product of the catalog, and no stock is negative. */
  predicate WellFormed(s: Session) {
    Shape(s.cart) &&
    (forall j :: 0 <= j < |s.cart| ==> Find(s.catalog, s.cart[j].product.id).Some?) &&
    (forall k :: 0 <= k < |s.catalog| ==> s.catalog[k].stock >= 0)
  }

  // ---------------------------------------------------------------- addToCart

  /** An unknown id or an exhausted product leaves the session as it was. */
  lemma AddRejected(s: Session, id: string)
    requires AddOutcomeOf(s, id) != Added
    ensures Add(s, id) == s
  {
  }

  /** A successful add takes exactly one unit of `id` out of stock; the stock of
      every other id and every other field of every product stay as they were. */
  lemma AddTakesStock(s: Session, id: string)
    requires AddOutcomeOf(s, id) == Added
    ensures OnlyStockChanged(s.catalog, Add(s, id).catalog)
    ensures forall x ::
      StockOf(Add(s, id).catalog, x) == StockOf(s.catalog, x) - (if x == id then 1 else 0)
  {
    var i := Find(s.catalog, id).value;
    forall x ensures StockOf(Add(s, id).catalog, x) == StockOf(s.catalog, x) - (if x == id then 1 else 0) {
      AdjustAtStock(s.catalog, i, -1, id, x);
    }
  }

  /** A successful add puts exactly one unit of `id` in the cart; the units of
      every other id and the lines of other products stay as they were. */
  lemma AddReservesUnit(s: Session, id: string)
    requires AddOutcomeOf(s, id) == Added
    ensures forall x ::
      Reserved(Add(s, id).cart, x) == Reserved(s.cart, x) + (if x == id then 1 else 0)
    ensures |Add(s, id).cart| >= |s.cart|
    ensures forall k :: 0 <= k < |s.cart| && s.cart[k].product.id != id ==>
      Add(s, id).cart[k] == s.cart[k]
  {
    var i := Find(s.catalog, id).value;
    match FindLine(s.cart, id) {
      case Some(j) =>
        AddToLineReserves(s.cart, j, Add(s, id).cart);
      case None =>
        AppendReserves(s.cart, CartLine(s.catalog[i], 1), Add(s, id).cart);
    }
  }

  /** A successful add keeps the product snapshot of every line already in the
      cart. An existing line for `id` changes only its quantity, by one. Without
      one, a line holding a copy of the catalog product as it was before the
      call, with quantity 1, is pushed at the end. */
  lemma AddSnapshot(s: Session, id: string)
    requires AddOutcomeOf(s, id) == Added
    ensures forall k :: 0 <= k < |s.cart| ==> Add(s, id).cart[k].product == s.cart[k].product
    ensures FindLine(s.cart, id).Some? ==>
      (|Add(s, id).cart| == |s.cart| &&
       Add(s, id).cart[FindLine(s.cart, id).value].quantity ==
       s.cart[FindLine(s.cart, id).value].quantity + 1)
    ensures FindLine(s.cart, id).None? ==>
      (|Add(s, id).cart| == |s.cart| + 1 &&
       Add(s, id).cart[|s.cart|] == CartLine(s.catalog[Find(s.catalog, id).value], 1))
  {
  }

  /** One more unit in line `j` reserves one more unit of that line's id only. */
  lemma AddToLineReserves(cart: seq<CartLine>, j: nat, cart': seq<CartLine>)
    requires j < |cart| && cart' == cart[j := cart[j].(quantity := cart[j].quantity + 1)]
    ensures forall x ::
      Reserved(cart', x) == Reserved(cart, x) + (if x == cart[j].product.id then 1 else 0)
  {
    forall x ensures Reserved(cart', x) == Reserved(cart, x) + (if x == cart[j].product.id then 1 else 0) {
      SumUpdate(cart, j, cart'[j], UnitsOf(x));
    }
  }

  /** A pushed line reserves its units for its own id only. */
  lemma AppendReserves(cart: seq<CartLine>, line: CartLine, cart': seq<CartLine>)
    requires cart' == cart + [line]
    ensures forall x ::
      Reserved(cart', x) == Reserved(cart, x) + (if x == line.product.id then line.quantity else 0)
  {
    forall x ensures Reserved(cart', x) == Reserved(cart, x) + (if x == line.product.id then line.quantity else 0) {
      SumAppend(cart, line, UnitsOf(x));
    }
  }

  /** A successful add raises the badge count by one and the total by the price
      recorded in the line that received the unit. */
  lemma AddTotals(s: Session, id: string)
    requires AddOutcomeOf(s, id) == Added
    ensures FindLine(Add(s, id).cart, id).Some?
    ensures Count(Add(s, id).cart) == Count(s.cart) + 1
    ensures Total(Add(s, id).cart) ==
      Total(s.cart) + Add(s, id).cart[FindLine(Add(s, id).cart, id).value].product.price
  {
    var i := Find(s.catalog, id).value;
    match FindLine(s.cart, id)
    case Some(j) => AddToLineTotals(s.cart, j, id, Add(s, id).cart);
    case None => AppendLineTotals(s.cart, CartLine(s.catalog[i], 1), Add(s, id).cart);
  }

  lemma AddToLineTotals(cart: seq<CartLine>, j: nat, id: string, cart': seq<CartLine>)
    requires FindLine(cart, id) == Some(j)
    requires cart' == cart[j := cart[j].(quantity := cart[j].quantity + 1)]
    ensures FindLine(cart', id) == Some(j) && LineIds(cart') == LineIds(cart)
    ensures Count(cart') == Count(cart) + 1 && Total(cart') == Total(cart) + cart'[j].product.price
  {
    SumUpdate(cart, j, cart'[j], AllUnits);
    SumUpdate(cart, j, cart'[j], Value);
    assert cart'[j].product.price * cart'[j].quantity ==
      cart[j].product.price * cart[j].quantity + cart'[j].product.price;
    assert LineIds(cart') == LineIds(cart);
  }

  lemma AppendLineTotals(cart: seq<CartLine>, line: CartLine, cart': seq<CartLine>)
    requires line.quantity == 1
    requires FindLine(cart, line.product.id).None?
    requires cart' == cart + [line]
    ensures FindLine(cart', line.product.id) == Some(|cart|)
    ensures Count(cart') == Count(cart) + 1
    ensures Total(cart') == Total(cart) + line.product.price
  {
    assert cart'[|cart|] == line;
    assert forall k :: 0 <= k < |cart| ==> cart'[k] == cart[k];
    SumAppend(cart, line, AllUnits);
    SumAppend(cart, line, Value);
  }

  /** `addToCart` keeps stock plus reservation constant for every product id. */
  lemma AddConserves(s: Session, id: string)
    ensures forall x :: Level(Add(s, id), x) == Level(s, x)
  {
    if AddOutcomeOf(s, id) == Added {
      AddTakesStock(s, id);
      AddReservesUnit(s, id);
    }
  }

  lemma AddPreservesWellFormed(s: Session, id: string)
    requires WellFormed(s)
    ensures WellFormed(Add(s, id))
  {
    if AddOutcomeOf(s, id) == Added {
      var i := Find(s.catalog, id).value;
      var r := Add(s, id);
      assert r.catalog == AdjustAt(s.catalog, i, -1);
      match FindLine(s.cart, id) {
        case Some(j) =>
          assert r.cart == s.cart[j := s.cart[j].(quantity := s.cart[j].quantity + 1)];
          ShapeAddToLine(s.cart, j);
        case None =>
          assert r.cart == s.cart + [CartLine(s.catalog[i], 1)];
          ShapeAppend(s.cart, CartLine(s.catalog[i], 1));
      }
      forall j | 0 <= j < |r.cart| ensures Find(r.catalog, r.cart[j].product.id).Some? {
        FindSameIds(s.catalog, r.catalog, r.cart[j].product.id);
      }
    }
  }

  lemma ShapeAddToLine(cart: seq<CartLine>, j: nat)
    requires Shape(cart) && j < |cart|
    ensures Shape(cart[j := cart[j].(quantity := cart[j].quantity + 1)])
  {
    var cart' := cart[j := cart[j].(quantity := cart[j].quantity + 1)];
    assert forall k :: 0 <= k < |cart| ==> cart'[k].product == cart[k].product;
  }

  lemma ShapeAppend(cart: seq<CartLine>, line: CartLine)
    requires Shape(cart) && line.quantity >= 1 && FindLine(cart, line.product.id).None?
    ensures Shape(cart + [line])
  {
    var cart' := cart + [line];
    assert forall k :: 0 <= k < |cart| ==> cart'[k] == cart[k];
  }

  // ----------------------------------------------------------- removeFromCart

  /** Removing an id with no line changes nothing. */
  lemma RemoveAbsent(s: Session, id: string)
    requires FindLine(s.cart, id).None?
    ensures Remove(s, id) == s
  {
  }

  /** Removing a line takes all of its units out of the cart at once, keeps the
      other lines in their order, and gives the units back to the product's stock
      when the product is still in the catalog; when it is not, every stock stays
      as it was. The other ids are untouched. */
  lemma RemoveRestores(s: Session, id: string)
    requires FindLine(s.cart, id).Some?
    ensures var j := FindLine(s.cart, id).value;
      Remove(s, id).cart == s.cart[..j] + s.cart[j + 1..] &&
      Reserved(Remove(s, id).cart, id) == Reserved(s.cart, id) - s.cart[j].quantity &&
      Count(Remove(s, id).cart) == Count(s.cart) - s.cart[j].quantity &&
      StockOf(Remove(s, id).catalog, id) == StockOf(s.catalog, id) +
        (if Find(s.catalog, id).Some? then s.cart[j].quantity else 0)
    ensures Find(s.catalog, id).None? ==> Remove(s, id).catalog == s.catalog
    ensures OnlyStockChanged(s.catalog, Remove(s, id).catalog)
    ensures forall x :: x != id ==>
      StockOf(Remove(s, id).catalog, x) == StockOf(s.catalog, x) &&
      Reserved(Remove(s, id).cart, x) == Reserved(s.cart, x)
  {
    var j := FindLine(s.cart, id).value;
    var line := s.cart[j];
    var r := Remove(s, id);
    SumRemoveAt(s.cart, j, AllUnits);
    forall x ensures StockOf(r.catalog, x) ==
      StockOf(s.catalog, x) + (if x == id && Find(s.catalog, id).Some? then line.quantity else 0)
    {
      RestockedStock(s.catalog, id, line.quantity, x);
    }
    forall x ensures Reserved(r.cart, x) == Reserved(s.cart, x) - Weight(line, UnitsOf(x)) {
      SumRemoveAt(s.cart, j, UnitsOf(x));
    }
  }

  /** In a well-shaped cart nothing of `id` is left after its line is removed. */
  lemma RemoveWholeLine(s: Session, id: string)
    requires Shape(s.cart)
    ensures FindLine(Remove(s, id).cart, id).None?
    ensures Reserved(Remove(s, id).cart, id) == 0
  {
    match FindLine(s.cart, id)
    case None =>
      ReservedAbsent(s.cart, id);
    case Some(j) =>
      var rest := s.cart[..j] + s.cart[j + 1..];
      forall k | 0 <= k < |rest| ensures rest[k].product.id != id {
        if k >= j { assert rest[k] == s.cart[k + 1]; }
      }
      ReservedAbsent(rest, id);
  }

  /** `removeFromCart` keeps stock plus reservation constant for every id, as long
      as the removed line's product is still in the catalog. */
  lemma RemoveConserves(s: Session, id: string)
    requires FindLine(s.cart, id).Some? ==> Find(s.catalog, id).Some?
    ensures forall x :: Level(Remove(s, id), x) == Level(s, x)
  {
    if FindLine(s.cart, id).Some? {
      var j := FindLine(s.cart, id).value;
      RemoveRestores(s, id);
      assert Weight(s.cart[j], UnitsOf(id)) == s.cart[j].quantity;
    }
  }

  lemma RemovePreservesWellFormed(s: Session, id: string)
    requires WellFormed(s)
    ensures WellFormed(Remove(s, id))
  {
    match FindLine(s.cart, id)
    case None =>
    case Some(j) =>
      var r := Remove(s, id);
      var line := s.cart[j];
      ShapeRemoveAt(s.cart, j);
      forall k | 0 <= k < |r.cart| ensures Find(r.catalog, r.cart[k].product.id).Some? {
        FindSameIds(s.catalog, r.catalog, r.cart[k].product.id);
        assert r.cart[k] in s.cart;
      }
      forall k | 0 <= k < |r.catalog| ensures r.catalog[k].stock >= 0 {
        RestockedStock(s.catalog, id, line.quantity, s.catalog[k].id);
      }
  }

  /** Splicing a line out keeps the cart well shaped. */
  lemma ShapeRemoveAt(cart: seq<CartLine>, j: nat)
    requires Shape(cart) && j < |cart|
    ensures Shape(cart[..j] + cart[j + 1..])
  {
    var rest := cart[..j] + cart[j + 1..];
    forall a, b | 0 <= a < b < |rest| ensures rest[a].product.id != rest[b].product.id {
      var a', b' := if a < j then a else a + 1, if b < j then b else b + 1;
      assert rest[a] == cart[a'] && rest[b] == cart[b'];
    }
    forall k | 0 <= k < |rest| ensures rest[k].quantity >= 1 {
      assert rest[k] in cart;
    }
  }

  // ---------------------------------------------------------------- clearCart

  /** Clearing changes nothing about the products but their stock. */
  lemma {:induction false} RestockIds(c: seq<Product>, cart: seq<CartLine>)
    ensures Ids(Restock(c, cart)) == Ids(c)
    ensures OnlyStockChanged(c, Restock(c, cart))
    decreases |cart|
  {
    if cart != [] {
      RestockIds(Restocked(c, cart[0].product.id, cart[0].quantity), cart[1..]);
    }
  }

  /** Clearing gives each product (the first with its id) back exactly the units
      the cart held for that id. */
  lemma {:induction false} RestockAt(c: seq<Product>, cart: seq<CartLine>, k: nat)
    requires k < |c|
    ensures |Restock(c, cart)| == |c|
    ensures Restock(c, cart)[k].stock ==
      c[k].stock + (if Find(c, c[k].id) == Some(k) then Reserved(cart, c[k].id) else 0)
    decreases |cart|
  {
    if cart != [] {
      var line := cart[0];
      var c1 := Restocked(c, line.product.id, line.quantity);
      RestockAt(c1, cart[1..], k);
      RestockIds(c, cart);
      FindSameIds(c, c1, c[k].id);
      assert c1[k].stock == c[k].stock +
        (if Find(c, line.product.id) == Some(k) then line.quantity else 0);
    }
  }

  /** The stock seen for any id after clearing: the old stock plus every unit the
      cart held for it, when the id is in the catalog. */
  lemma ClearRestores(s: Session, x: string)
    ensures StockOf(Clear(s).catalog, x) ==
      StockOf(s.catalog, x) + (if Find(s.catalog, x).Some? then Reserved(s.cart, x) else 0)
    ensures Clear(s).cart == [] && Count(Clear(s).cart) == 0 && Total(Clear(s).cart) == 0
  {
    RestockIds(s.catalog, s.cart);
    FindSameIds(s.catalog, Restock(s.catalog, s.cart), x);
    match Find(s.catalog, x)
    case None =>
    case Some(k) =>
      RestockAt(s.catalog, s.cart, k);
  }

  /** With unique product ids, every product's stock rises by exactly the
      quantity its line held. */
  lemma ClearRestoresEach(s: Session)
    requires UniqueIds(s.catalog)
    ensures OnlyStockChanged(s.catalog, Clear(s).catalog)
    ensures forall k :: 0 <= k < |s.catalog| ==>
      Clear(s).catalog[k].stock == s.catalog[k].stock + Reserved(s.cart, s.catalog[k].id)
  {
    RestockIds(s.catalog, s.cart);
    forall k | 0 <= k < |s.catalog|
      ensures Clear(s).catalog[k].stock == s.catalog[k].stock + Reserved(s.cart, s.catalog[k].id)
    {
      RestockAt(s.catalog, s.cart, k);
      FindUnique(s.catalog, k);
    }
  }

  /** `clearCart` keeps stock plus reservation constant for every id, as long as
      every line's product is still in the catalog. */
  lemma ClearConserves(s: Session)
    requires forall j :: 0 <= j < |s.cart| ==> Find(s.catalog, s.cart[j].product.id).Some?
    ensures forall x :: Level(Clear(s), x) == Level(s, x)
  {
    forall x ensures Level(Clear(s), x) == Level(s, x) {
      ClearRestores(s, x);
      if Find(s.catalog, x).None? {
        ReservedAbsent(s.cart, x);
      }
    }
  }

  lemma ClearPreservesWellFormed(s: Session)
    requires WellFormed(s)
    ensures WellFormed(Clear(s))
  {
    RestockIds(s.catalog, s.cart);
    forall k | 0 <= k < |s.catalog| ensures Clear(s).catalog[k].stock >= 0 {
      RestockAt(s.catalog, s.cart, k);
      ReservedNonNegative(s.cart, s.catalog[k].id);
    }
  }

  lemma {:induction false} ReservedNonNegative(cart: seq<CartLine>, id: string)
    requires forall k :: 0 <= k < |cart| ==> cart[k].quantity >= 1
    ensures Reserved(cart, id) >= 0
    decreases |cart|
  {
    if cart != [] {
      ReservedNonNegative(cart[1..], id);
    }
  }

  // ------------------------------------------------------ sequences of calls

  /** A cart call of either component. */
  datatype CartOp = AddToCart(id: string) | RemoveFromCart(id: string) | ClearCart

  function Apply(s: Session, op: CartOp): Session {
    match op
    case AddToCart(id) => Add(s, id)
    case RemoveFromCart(id) => Remove(s, id)
    case ClearCart => Clear(s)
  }

  function Run(s: Session, ops: seq<CartOp>): Session
    decreases |ops|
  {
    if ops == [] then s else Run(Apply(s, ops[0]), ops[1..])
  }

  /** One cart call from a well-formed session keeps it well formed and keeps
      stock plus reservation constant for every id. */
  lemma ApplyConserves(s: Session, op: CartOp)
    requires WellFormed(s)
    ensures WellFormed(Apply(s, op))
    ensures forall x :: Level(Apply(s, op), x) == Level(s, x)
  {
    match op
    case AddToCart(id) =>
      AddPreservesWellFormed(s, id);
      AddConserves(s, id);
    case RemoveFromCart(id) =>
      RemovePreservesWellFormed(s, id);
      if FindLine(s.cart, id).Some? {
        assert s.cart[FindLine(s.cart, id).value].product.id == id;
      }
      RemoveConserves(s, id);
    case ClearCart =>
      ClearPreservesWellFormed(s);
      ClearConserves(s);
  }

  /** Any sequence of cart calls from a well-formed session keeps it well formed
      and keeps stock plus reservation constant for every id. */
  lemma {:induction false} RunConserves(s: Session, ops: seq<CartOp>)
    requires WellFormed(s)
    ensures WellFormed(Run(s, ops))
    ensures forall x :: Level(Run(s, ops), x) == Level(s, x)
    decreases |ops|
  {
    if ops != [] {
      ApplyConserves(s, ops[0]);
      RunConserves(Apply(s, ops[0]), ops[1..]);
    }
  }

  /** From a freshly loaded catalog and an empty cart, at every point of the
      session the stock of each product plus the units of it in the cart equal the
      stock first loaded. */
  lemma SessionConserves(catalog: seq<Product>, ops: seq<CartOp>)
    requires forall k :: 0 <= k < |catalog| ==> catalog[k].stock >= 0
    ensures WellFormed(Run(Session(catalog, []), ops))
    ensures forall x ::
      Level(Run(Session(catalog, []), ops), x) == StockOf(catalog, x)
  {
    RunConserves(Session(catalog, []), ops);
  }
}
