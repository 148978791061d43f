/** The storefront component (`AppComponent`): the product list filtered by a
    search box and a category selector, and a cart whose operations move units
    to and from the catalog's stock exactly as the admin component's do. */
module App {
  import opened Text
  import opened Sequences
  import opened Catalog
  import opened Cart
  import opened Reconciliation

  /** The storefront match: an empty (already trimmed and lower-cased) term
      matches every product, any other must occur in the lower-cased name or
      description; an empty category matches every product, any other must equal
      the product's category exactly. */
  predicate StoreMatches(p: Product, term: string, category: string) {
    (term == [] || Contains(Lower(p.name), term) || Contains(Lower(p.description), term)) &&
    (category == [] || p.category == category)
  }

  /** The callback `p => matchText && matchCategory`. */
  function StoreMatcher(term: string, category: string): Product -> bool {
    (p: Product) => StoreMatches(p, term, category)
  }

  /** The list `filterProduits` shows: the term is trimmed, then lower-cased. */
  function Shown(ps: seq<Product>, searchTerm: string, category: string): seq<Product> {
    Filter(ps, StoreMatcher(Lower(Trim(searchTerm)), category))
  }

  /** `Shown` keeps exactly the matching products, as often as they occur and in
      their order; with a blank search and no category it keeps them all; a
      chosen category is matched exactly. */
  lemma ShownSpec(ps: seq<Product>, searchTerm: string, category: string)
    ensures forall p :: p in Shown(ps, searchTerm, category) <==>
      p in ps && StoreMatches(p, Lower(Trim(searchTerm)), category)
    ensures forall p ::
      multiset(Shown(ps, searchTerm, category))[p] ==
      if StoreMatches(p, Lower(Trim(searchTerm)), category) then multiset(ps)[p] else 0
    ensures IsSubsequence(Shown(ps, searchTerm, category), ps)
    ensures category != [] ==> forall p :: p in Shown(ps, searchTerm, category) ==> p.category == category
    ensures AllSpace(searchTerm) && category == [] ==> Shown(ps, searchTerm, category) == ps
  {
    TrimEmptyIff(searchTerm);
    FilterMultiset(ps, StoreMatcher(Lower(Trim(searchTerm)), category));
    if AllSpace(searchTerm) && category == [] {
      FilterAll(ps, StoreMatcher(Lower(Trim(searchTerm)), category));
    }
  }

  /** White space around the search term makes no difference to the storefront. */
  lemma ShownIgnoresSurroundingSpace(ps: seq<Product>, searchTerm: string, category: string)
    ensures Shown(ps, searchTerm, category) == Shown(ps, Trim(searchTerm), category)
  {
    TrimIdempotent(searchTerm);
  }

  class AppComponent {
    var produits: seq<Product>
    var filteredProduits: seq<Product>
    var searchTerm: string
    var selectedCategory: string
    var cartItems: seq<CartLine>
    var cartTotal: int

    /** The cart total is up to date. */
    ghost predicate Valid()
      reads this
    {
      cartTotal == Total(cartItems)
    }

    /** The displayed list agrees with the catalog, the search term and the category. */
    ghost predicate ViewCurrent()
      reads this
    {
      filteredProduits == Shown(produits, searchTerm, selectedCategory)
    }

    ghost function CartSession(): Session
      reads this
    {
      Session(produits, cartItems)
    }

    /** The search term and the category are as before. */
    twostate predicate KeepsFilters()
      reads this
    {
      searchTerm == old(searchTerm) && selectedCategory == old(selectedCategory)
    }

    constructor ()
      ensures Valid() && ViewCurrent()
      ensures produits == [] && cartItems == [] && searchTerm == "" && selectedCategory == ""
    {
      produits := [];
      filteredProduits := [];
      searchTerm := "";
      selectedCategory := "";
      cartItems := [];
      cartTotal := 0;
    }

    /** The effect of a successful `getAllProduits` in `ngOnInit`: the catalog is
        replaced and the whole of it is shown, without filtering, which agrees
        with the filter as long as the search is blank and no category is set. */
    method LoadProduits(res: seq<Product>)
      requires Valid()
      modifies this
      ensures Valid()
      ensures produits == res && filteredProduits == res
      ensures cartItems == old(cartItems) && KeepsFilters()
      ensures AllSpace(searchTerm) && selectedCategory == [] ==> ViewCurrent()
    {
      produits := res;
      filteredProduits := res;
      ShownSpec(res, searchTerm, selectedCategory);
    }

    /** The two-way binding of the search box. */
    method SetSearchTerm(term: string)
      requires Valid()
      modifies this
      ensures Valid()
      ensures searchTerm == term && selectedCategory == old(selectedCategory)
      ensures CartSession() == old(CartSession()) && filteredProduits == old(filteredProduits)
    {
      searchTerm := term;
    }

    /** The two-way binding of the category selector. */
    method SetCategory(category: string)
      requires Valid()
      modifies this
      ensures Valid()
      ensures selectedCategory == category && searchTerm == old(searchTerm)
      ensures CartSession() == old(CartSession()) && filteredProduits == old(filteredProduits)
    {
      selectedCategory := category;
    }

    /** `filterProduits`: the displayed list is re-derived; nothing else changes. */
    method FilterProduits()
      modifies this
      ensures ViewCurrent()
      ensures CartSession() == old(CartSession()) && cartTotal == old(cartTotal)
      ensures KeepsFilters()
    {
      var term := Lower(Trim(searchTerm));
      var category := selectedCategory;
      filteredProduits := Filter(produits, StoreMatcher(term, category));
    }

    /** The `cartCount` getter: the number of units in the cart, which for a cart
        of one line per product with positive quantities is at least the number
        of lines and zero only for the empty cart. */
    function CartCount(): (n: int)
      reads this
      ensures n == Count(cartItems)
      ensures Shape(cartItems) ==> n >= |cartItems| && (n == 0 <==> cartItems == [])
    {
      CountOfShape(cartItems);
      Sum(cartItems, AllUnits)
    }

    /** `addToCart`: the state afterwards is `Add` of the state before. After a
        reservation the total and the list are refreshed; after either early
        return nothing has changed. */
    method AddToCart(produit: Product) returns (outcome: AddOutcome)
      requires Valid()
      modifies this
      ensures Valid()
      ensures outcome == AddOutcomeOf(old(CartSession()), produit.id)
      ensures CartSession() == Add(old(CartSession()), produit.id)
      ensures outcome == Added ==> ViewCurrent() && KeepsFilters()
      ensures outcome != Added ==> unchanged(this)
    {
      ghost var s0 := CartSession();
      var found := Find(produits, produit.id);
      if found.None? {
        return UnknownProduct;
      }
      var i := found.value;
      var original := produits[i];
      if original.stock <= 0 {
        return OutOfStock;
      }
      var exist := FindLine(cartItems, produit.id);
      if exist.Some? {
        var j := exist.value;
        cartItems := cartItems[j := cartItems[j].(quantity := cartItems[j].quantity + 1)];
      } else {
        cartItems := cartItems + [CartLine(original, 1)];
      }
      assert cartItems == Add(s0, produit.id).cart;
      produits := AdjustAt(produits, i, -1);
      assert CartSession() == Add(s0, produit.id);
      UpdateCartTotal();
      FilterProduits();
      outcome := Added;
    }

    /** `removeFromCart(item)`: the line with the item's id goes and the state
        afterwards is `Remove` of the state before; an id with no line changes
        nothing. */
    method RemoveFromCart(item: CartLine)
      requires Valid()
      modifies this
      ensures Valid()
      ensures CartSession() == Remove(old(CartSession()), item.product.id)
      ensures old(FindLine(cartItems, item.product.id)).Some? ==> ViewCurrent() && KeepsFilters()
      ensures old(FindLine(cartItems, item.product.id)).None? ==> unchanged(this)
    {
      ghost var s0 := CartSession();
      var index := FindLine(cartItems, item.product.id);
      if index.Some? {
        var cartItem := cartItems[index.value];
        var original := Find(produits, cartItem.product.id);
        if original.Some? {
          produits := AdjustAt(produits, original.value, cartItem.quantity);
        }
        cartItems := cartItems[..index.value] + cartItems[index.value + 1..];
        assert CartSession() == Remove(s0, item.product.id);
        UpdateCartTotal();
        FilterProduits();
      }
    }

    /** `clearCart`: every line gives its quantity back, in order, then the cart
        is emptied; the state afterwards is `Clear` of the state before. */
    method ClearCart()
      requires Valid()
      modifies this
      ensures Valid() && ViewCurrent() && KeepsFilters()
      ensures CartSession() == Clear(old(CartSession()))
      ensures cartItems == [] && cartTotal == 0
    {
      ghost var s0 := CartSession();
      ReturnStock();
      cartItems := [];
      assert CartSession() == Clear(s0);
      UpdateCartTotal();
      FilterProduits();
    }

    /** The `forEach` of `clearCart`: each line in turn gives its quantity back
        to the product it came from, if that product is still in the catalog. */
    method ReturnStock()
      modifies this`produits
      ensures produits == Restock(old(produits), cartItems)
    {
      var k := 0;
      while k < |cartItems|
        invariant 0 <= k <= |cartItems|
        invariant Restock(produits, cartItems[k..]) == Restock(old(produits), cartItems)
      {
        var item := cartItems[k];
        produits := Restocked(produits, item.product.id, item.quantity);
        assert cartItems[k..] == [item] + cartItems[k + 1..];
        k := k + 1;
      }
    }

    /** `updateCartTotal`: `(item.price || 0) * item.quantity` summed over the
        lines; for an integral price `price || 0` is the price itself. */
    method UpdateCartTotal()
      modifies this
      ensures cartTotal == Total(cartItems)
      ensures CartSession() == old(CartSession()) && KeepsFilters()
      ensures filteredProduits == old(filteredProduits)
    {
      cartTotal := Total(cartItems);
    }
  }
}
