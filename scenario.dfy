/** A concrete storefront session: a car in stock and a truck sold out. */
module Scenario {
  import opened Options
  import opened Text
  import opened Sequences
  import opened Catalog
  import opened Cart
  import opened Reconciliation
  import opened App

  const Sedan: Product := Product("p1", "Sedan X", "Family car", 2000000, "EUR", 3, "car", [])
  const Truck: Product := Product("p2", "Truck Y", "Work truck", 3500000, "EUR", 0, "truck", [])

  /** The sedan's and the truck's lookups in any catalog that lists them in that order. */
  lemma FindBoth(c: seq<Product>)
    requires |c| == 2 && c[0].id == "p1" && c[1].id == "p2"
    ensures Find(c, "p1") == Some(0) && Find(c, "p2") == Some(1)
  {
    assert "p1"[1] != "p2"[1];
  }

  /** Filtering by the category `car` with a blank search shows the sedan only. */
  lemma ShowCars()
    ensures Shown([Sedan, Truck], "", "car") == [Sedan]
  {
    assert Trim("") == "" && Lower("") == "";
    assert "truck"[0] != "car"[0];
    var keep := StoreMatcher("", "car");
    assert keep(Sedan) && !keep(Truck);
    assert [Sedan, Truck][1..] == [Truck];
    assert Filter([Truck], keep) == [];
  }

  /** The first add of the sedan opens a line of one unit and takes it from stock. */
  lemma AddSedanOnce()
    ensures Add(Session([Sedan, Truck], []), "p1") ==
      Session([Sedan.(stock := 2), Truck], [CartLine(Sedan, 1)])
  {
    FindBoth([Sedan, Truck]);
    assert FindLine([], "p1") == None;
  }

  /** The second add of the sedan raises its line to two units. */
  lemma AddSedanAgain()
    ensures Add(Session([Sedan.(stock := 2), Truck], [CartLine(Sedan, 1)]), "p1") ==
      Session([Sedan.(stock := 1), Truck], [CartLine(Sedan, 2)])
  {
    FindBoth([Sedan.(stock := 2), Truck]);
    assert FindLine([CartLine(Sedan, 1)], "p1") == Some(0);
  }

  /** A cart of one line sums to that line's weight. */
  lemma SumSingle(line: CartLine, m: Measure)
    ensures Sum([line], m) == Weight(line, m)
  {
    assert [line][1..] == [];
  }

  /** After the two adds: one sedan in stock, two in the cart, and the truck refused. */
  lemma TwoSedansInCart()
    ensures var s := Session([Sedan.(stock := 1), Truck], [CartLine(Sedan, 2)]);
      StockOf(s.catalog, "p1") == 1 && Count(s.cart) == 2 && Total(s.cart) == 4000000 &&
      AddOutcomeOf(s, "p2") == OutOfStock && Add(s, "p2") == s && StockOf(s.catalog, "p2") == 0
  {
    FindBoth([Sedan.(stock := 1), Truck]);
    SumSingle(CartLine(Sedan, 2), AllUnits);
    SumSingle(CartLine(Sedan, 2), Value);
  }

  /** Adding the sedan twice leaves one unit in stock and two in the cart; the
      sold-out truck is then refused and keeps its stock of zero. */
  lemma AddSedanTwiceThenTruck()
    ensures var s := Add(Add(Session([Sedan, Truck], []), "p1"), "p1");
      StockOf(s.catalog, "p1") == 1 && Count(s.cart) == 2 && Total(s.cart) == 4000000 &&
      AddOutcomeOf(s, "p2") == OutOfStock && Add(s, "p2") == s && StockOf(s.catalog, "p2") == 0
  {
    AddSedanOnce();
    AddSedanAgain();
    TwoSedansInCart();
  }
}
