/** The product catalog (`produitsData` in the admin component, `produits` in the
    storefront): a list of product records whose `stock` fields the cart updates. */
module Catalog {
  import opened Options
  import opened Sequences

  /** A product as loaded from the data source. Prices are integral (cents). */
  datatype Product = Product(
    id: string,
    name: string,
    description: string,
    price: int,
    currency: string,
    stock: int,
    category: string,
    images: seq<string>)

  function Ids(c: seq<Product>): (ids: seq<string>)
    ensures |ids| == |c| && forall k :: 0 <= k < |c| ==> ids[k] == c[k].id
  {
    seq(|c|, k requires 0 <= k < |c| => c[k].id)
  }

  /** `c.find(p => p.id === id)`, as the index of the product it returns. */
  function Find(c: seq<Product>, id: string): (r: Option<nat>)
    ensures r.None? <==> forall k :: 0 <= k < |c| ==> c[k].id != id
    ensures r.Some? ==> r.value < |c| && c[r.value].id == id
    ensures r.Some? ==> forall k :: 0 <= k < r.value ==> c[k].id != id
  {
    var r := FirstIndex(Ids(c), id);
    assert r.Some? ==> forall k :: 0 <= k < r.value ==> Ids(c)[..r.value][k] == c[k].id;
    r
  }

  /** No two products share an id. */
  predicate UniqueIds(c: seq<Product>) {
    forall j, k :: 0 <= j < k < |c| ==> c[j].id != c[k].id
  }

  /** The available stock of the product that `Find` returns, 0 for an unknown id. */
  function StockOf(c: seq<Product>, id: string): int {
    match Find(c, id)
    case None => 0
    case Some(i) => c[i].stock
  }

  /** `c` and `c'` hold the same products in the same places, up to their stock. */
  predicate OnlyStockChanged(c: seq<Product>, c': seq<Product>) {
    |c'| == |c| && forall k :: 0 <= k < |c| ==> c'[k] == c[k].(stock := c'[k].stock)
  }

  /** `c[i].stock += delta` on the product at index `i`: that product's stock
      moves by `delta`, every other product is as it was. */
  function AdjustAt(c: seq<Product>, i: nat, delta: int): (c': seq<Product>)
    requires i < |c|
    ensures OnlyStockChanged(c, c')
    ensures Ids(c') == Ids(c)
    ensures c'[i].stock == c[i].stock + delta
    ensures forall k :: 0 <= k < |c| && k != i ==> c'[k] == c[k]
  {
    c[i := c[i].(stock := c[i].stock + delta)]
  }

  /** `original.stock += q` where `original = c.find(p => p.id === id)`, if found. */
  function Restocked(c: seq<Product>, id: string, q: int): (c': seq<Product>)
    ensures OnlyStockChanged(c, c')
    ensures Ids(c') == Ids(c)
  {
    match Find(c, id)
    case None => c
    case Some(i) => AdjustAt(c, i, q)
  }

  /** With unique ids, `Find` of a product's id is that product's index. */
  lemma FindUnique(c: seq<Product>, k: nat)
    requires UniqueIds(c) && k < |c|
    ensures Find(c, c[k].id) == Some(k)
  {
  }

  /** Lookups see the same indices in catalogs with the same ids. */
  lemma FindSameIds(c: seq<Product>, c': seq<Product>, id: string)
    requires Ids(c') == Ids(c)
    ensures Find(c', id) == Find(c, id)
  {
  }

  /** Adjusting the product that `Find(c, id)` returns changes the stock seen for
      `id` by `delta` and the stock seen for every other id not at all. */
  lemma AdjustAtStock(c: seq<Product>, i: nat, delta: int, id: string, x: string)
    requires Find(c, id) == Some(i)
    ensures StockOf(AdjustAt(c, i, delta), x) == StockOf(c, x) + (if x == id then delta else 0)
  {
    FindSameIds(c, AdjustAt(c, i, delta), x);
  }

  /** `Restocked` raises the stock seen for `id` by `q` when `id` is in the catalog,
      and leaves every stock unchanged otherwise. */
  lemma RestockedStock(c: seq<Product>, id: string, q: int, x: string)
    ensures StockOf(Restocked(c, id, q), x) ==
      StockOf(c, x) + (if x == id && Find(c, id).Some? then q else 0)
  {
    match Find(c, id)
    case None =>
    case Some(i) => AdjustAtStock(c, i, q, id, x);
  }

  /** `c.filter(p => p.id !== id)`, as done after a product is deleted: every
      product with that id goes, the others stay, as often as before and in
      their order. */
  function WithoutId(c: seq<Product>, id: string): (r: seq<Product>)
    ensures forall p :: p in r <==> p in c && p.id != id
    ensures IsSubsequence(r, c)
    ensures Find(r, id).None?
    ensures forall p :: multiset(r)[p] == if p.id != id then multiset(c)[p] else 0
  {
    FilterMultiset(c, (p: Product) => p.id != id);
    Filter(c, (p: Product) => p.id != id)
  }
}
