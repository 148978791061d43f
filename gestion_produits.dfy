/** The admin component (`GestionProduitsComponent`): a paginated, searchable
    product table, a cart whose operations move units to and from the
    catalog's stock, and the image fields of the product form. */
module GestionProduits {
  import opened Options
  import opened Text
  import opened Sequences
  import opened Paging
  import opened Catalog
  import opened Cart
  import opened Reconciliation
  import opened ImagePaths

  /** The admin match: the already lower-cased `term` occurs in the lower-cased
      name, description or category. */
  predicate Matches(p: Product, term: string) {
    Contains(Lower(p.name), term) || Contains(Lower(p.description), term) ||
    Contains(Lower(p.category), term)
  }

  /** The callback `p => p.name?.toLowerCase().includes(term) || ...`. */
  function Matcher(term: string): Product -> bool {
    (p: Product) => Matches(p, term)
  }

  /** The filtered list of `applyFilterAndPagination`: a term that trims to
      nothing keeps every product, any other term is lower-cased (not trimmed)
      and matched. */
  function Filtered(ps: seq<Product>, searchTerm: string): seq<Product> {
    if Trim(searchTerm) != [] then Filter(ps, Matcher(Lower(searchTerm))) else ps
  }

  /** An all-white-space term keeps every product; any other term keeps exactly
      the products matching it, as often as they occur and in their order, so
      the match count is the number of matching products. */
  lemma FilteredSpec(ps: seq<Product>, searchTerm: string)
    ensures AllSpace(searchTerm) ==> Filtered(ps, searchTerm) == ps
    ensures !AllSpace(searchTerm) ==>
      forall p :: p in Filtered(ps, searchTerm) <==> p in ps && Matches(p, Lower(searchTerm))
    ensures !AllSpace(searchTerm) ==>
      forall p ::
        multiset(Filtered(ps, searchTerm))[p] ==
        if Matches(p, Lower(searchTerm)) then multiset(ps)[p] else 0
    ensures !AllSpace(searchTerm) ==>
      |Filtered(ps, searchTerm)| == CountWhere(ps, Matcher(Lower(searchTerm)))
    ensures IsSubsequence(Filtered(ps, searchTerm), ps)
  {
    TrimEmptyIff(searchTerm);
    SubsequenceRefl(ps);
    FilterMultiset(ps, Matcher(Lower(searchTerm)));
    FilterLength(ps, Matcher(Lower(searchTerm)));
  }

  class GestionProduitsComponent {
    var produitsData: seq<Product>
    var paginatedProduits: seq<Product>
    var currentPage: int
    const itemsPerPage: int := 7
    var totalFilteredItems: nat
    var searchTerm: string
    var isEditing: bool
    var selectedProduit: Option<Product>
    /** The value of the form's `images` control. */
    var imagesField: string
    var imagePreview: string
    var imageFileName: string
    var cartItems: seq<CartLine>
    var cartTotal: int

    /** What every method keeps: pages count from 1, and the cart total is up to date. */
    ghost predicate Valid()
      reads this
    {
      currentPage >= 1 && cartTotal == Total(cartItems)
    }

    /** The displayed page and the match count agree with the catalog, the
        search term and the page number. */
    ghost predicate ViewCurrent()
      reads this
    {
      totalFilteredItems == |Filtered(produitsData, searchTerm)| &&
      paginatedProduits == Page(Filtered(produitsData, searchTerm), currentPage, itemsPerPage)
    }

    ghost function CartSession(): Session
      reads this
    {
      Session(produitsData, cartItems)
    }

    /** The edit form (editing flag, product under edit, image control, preview
        and file name) is as before. */
    twostate predicate KeepsForm()
      reads this
    {
      isEditing == old(isEditing) && selectedProduit == old(selectedProduit) &&
      imagesField == old(imagesField) && imagePreview == old(imagePreview) &&
      imageFileName == old(imageFileName)
    }

    /** The search term, the page number and the form are as before. */
    twostate predicate KeepsSearchAndForm()
      reads this
    {
      searchTerm == old(searchTerm) && currentPage == old(currentPage) && KeepsForm()
    }

    constructor ()
      ensures Valid() && ViewCurrent()
      ensures produitsData == [] && cartItems == [] && currentPage == 1 && searchTerm == ""
      ensures !isEditing && selectedProduit == None
      ensures imagesField == "" && imagePreview == "" && imageFileName == ""
    {
      produitsData := [];
      paginatedProduits := [];
      currentPage := 1;
      totalFilteredItems := 0;
      searchTerm := "";
      isEditing := false;
      selectedProduit := None;
      imagesField := "";
      imagePreview := "";
      imageFileName := "";
      cartItems := [];
      cartTotal := 0;
    }

    // ------------------------------------------------ filter and pagination

    /** The effect of a successful `getAllProduits`: the catalog is replaced and
        the view re-derived. */
    method LoadProduits(res: seq<Product>)
      requires Valid()
      modifies this
      ensures Valid() && ViewCurrent()
      ensures produitsData == res && cartItems == old(cartItems)
      ensures KeepsSearchAndForm()
    {
      produitsData := res;
      ApplyFilterAndPagination();
    }

    /** The two-way binding of the search box. */
    method SetSearchTerm(term: string)
      requires Valid()
      modifies this
      ensures Valid()
      ensures searchTerm == term
      ensures CartSession() == old(CartSession()) && currentPage == old(currentPage)
      ensures paginatedProduits == old(paginatedProduits) && totalFilteredItems == old(totalFilteredItems)
      ensures KeepsForm()
    {
      searchTerm := term;
    }

    /** `filterProduits`: back to the first page, view re-derived. */
    method FilterProduits()
      requires Valid()
      modifies this
      ensures Valid() && ViewCurrent()
      ensures currentPage == 1
      ensures CartSession() == old(CartSession()) && cartTotal == old(cartTotal)
      ensures searchTerm == old(searchTerm) && KeepsForm()
    {
      currentPage := 1;
      ApplyFilterAndPagination();
    }

    /** `applyFilterAndPagination`: the match count and the current page of the
        filtered list; no stock and no cart line changes. */
    method ApplyFilterAndPagination()
      modifies this
      ensures ViewCurrent()
      ensures CartSession() == old(CartSession()) && cartTotal == old(cartTotal)
      ensures KeepsSearchAndForm()
    {
      var filtered := produitsData;
      if Trim(searchTerm) != [] {
        var term := Lower(searchTerm);
        filtered := Filter(filtered, Matcher(term));
      }
      totalFilteredItems := |filtered|;
      var startIndex := (currentPage - 1) * itemsPerPage;
      paginatedProduits := JsSlice(filtered, startIndex, startIndex + itemsPerPage);
    }

    /** `prevPage`: one page back, never below page 1. */
    method PrevPage()
      requires Valid()
      modifies this
      ensures Valid()
      ensures currentPage == if old(currentPage) > 1 then old(currentPage) - 1 else old(currentPage)
      ensures old(currentPage) > 1 ==> ViewCurrent()
      ensures old(currentPage) <= 1 ==> unchanged(this)
      ensures CartSession() == old(CartSession()) && searchTerm == old(searchTerm)
      ensures cartTotal == old(cartTotal) && KeepsForm()
    {
      if currentPage > 1 {
        currentPage := currentPage - 1;
        ApplyFilterAndPagination();
      }
    }

    /** `nextPage`: one page on, only while items remain past the current page,
        so the new page starts inside the filtered list. */
    method NextPage()
      requires Valid()
      modifies this
      ensures Valid()
      ensures old(CanGoNext()) ==> currentPage == old(currentPage) + 1 && ViewCurrent()
      ensures old(CanGoNext()) ==> (currentPage - 1) * itemsPerPage < old(totalFilteredItems)
      ensures old(CanGoNext()) && old(ViewCurrent()) ==> paginatedProduits != []
      ensures !old(CanGoNext()) ==> unchanged(this)
      ensures CartSession() == old(CartSession()) && searchTerm == old(searchTerm)
      ensures cartTotal == old(cartTotal) && KeepsForm()
    {
      if CanGoNext() {
        PageSpec(Filtered(produitsData, searchTerm), currentPage + 1, itemsPerPage);
        currentPage := currentPage + 1;
        ApplyFilterAndPagination();
      }
    }

    /** `canGoNext()`: holds exactly when the current page is before the last one. */
    function CanGoNext(): (b: bool)
      reads this
      ensures b <==> currentPage < TotalPages()
    {
      CanGoNextIff(currentPage, itemsPerPage, totalFilteredItems);
      currentPage * itemsPerPage < totalFilteredItems
    }

    /** `totalPages`: the fewest pages of `itemsPerPage` that hold every match. */
    function TotalPages(): (n: nat)
      reads this
      ensures (n - 1) * itemsPerPage < totalFilteredItems <= n * itemsPerPage
    {
      CeilDiv(totalFilteredItems, itemsPerPage)
    }

    // --------------------------------------------------- edit form and images

    /** The image part of `onEdit`: the form and the preview show the product's
        first image, and the file name its last path segment. */
    method OnEdit(produit: Product)
      requires Valid()
      modifies this
      ensures Valid()
      ensures isEditing && selectedProduit == Some(produit)
      ensures imagesField == FirstImage(produit.images) && imagePreview == FirstImage(produit.images)
      ensures imageFileName == FileName(FirstImage(produit.images))
      ensures CartSession() == old(CartSession()) && searchTerm == old(searchTerm)
      ensures currentPage == old(currentPage) && paginatedProduits == old(paginatedProduits)
      ensures totalFilteredItems == old(totalFilteredItems) && cartTotal == old(cartTotal)
    {
      var image := FirstImage(produit.images);
      var name := FileName(image);
      isEditing := true;
      selectedProduit := Some(produit);
      imagesField := image;
      imagePreview := image;
      imageFileName := name;
    }

    /** The user typing in the `images` control. */
    method SetImagesField(value: string)
      requires Valid()
      modifies this
      ensures Valid()
      ensures imagesField == value
      ensures CartSession() == old(CartSession()) && searchTerm == old(searchTerm)
      ensures currentPage == old(currentPage) && paginatedProduits == old(paginatedProduits)
      ensures imagePreview == old(imagePreview) && imageFileName == old(imageFileName)
      ensures isEditing == old(isEditing) && selectedProduit == old(selectedProduit)
      ensures totalFilteredItems == old(totalFilteredItems) && cartTotal == old(cartTotal)
    {
      imagesField := value;
    }

    /** `onImageUrlChanged`: the control, the preview and the file name follow the
        normalised path. */
    method OnImageUrlChanged()
      requires Valid()
      modifies this
      ensures Valid()
      ensures imagesField == NormalisedImagePath(old(imagesField))
      ensures imagePreview == imagesField && imageFileName == FileName(imagesField)
      ensures CartSession() == old(CartSession()) && searchTerm == old(searchTerm)
      ensures currentPage == old(currentPage) && paginatedProduits == old(paginatedProduits)
      ensures isEditing == old(isEditing) && selectedProduit == old(selectedProduit)
      ensures totalFilteredItems == old(totalFilteredItems) && cartTotal == old(cartTotal)
    {
      var path := NormalisedImagePath(imagesField);
      imagePreview := path;
      imageFileName := FileName(path);
      imagesField := path;
    }

    /** The effect of `deleteProduit` once confirmed and acknowledged: every
        product with that id leaves the catalog, the cart is untouched, and the
        view is re-derived. */
    method DeleteProduit(produit: Product)
      requires Valid()
      modifies this
      ensures Valid() && ViewCurrent()
      ensures produitsData == WithoutId(old(produitsData), produit.id)
      ensures cartItems == old(cartItems)
      ensures KeepsSearchAndForm()
    {
      produitsData := WithoutId(produitsData, produit.id);
      ApplyFilterAndPagination();
    }

    // ------------------------------------------------------------------ cart

    /** `addToCart`: the state afterwards is `Add` of the state before. After a
        reservation the view and the total are refreshed; after either early
        return nothing has changed. */
    method AddToCart(produit: Product) returns (outcome: AddOutcome)
      requires Valid()
      modifies this
      ensures Valid()
      ensures outcome == AddOutcomeOf(old(CartSession()), produit.id)
      ensures CartSession() == Add(old(CartSession()), produit.id)
      ensures outcome == Added ==> ViewCurrent() && KeepsSearchAndForm()
      ensures outcome != Added ==> unchanged(this)
    {
      ghost var s0 := CartSession();
      var found := Find(produitsData, produit.id);
      if found.None? {
        return UnknownProduct;
      }
      var i := found.value;
      var original := produitsData[i];
      if original.stock <= 0 {
        return OutOfStock;
      }
      var existInCart := FindLine(cartItems, produit.id);
      if existInCart.Some? {
        var j := existInCart.value;
        cartItems := cartItems[j := cartItems[j].(quantity := cartItems[j].quantity + 1)];
      } else {
        cartItems := cartItems + [CartLine(original, 1)];
      }
      assert cartItems == Add(s0, produit.id).cart;
      produitsData := AdjustAt(produitsData, i, -1);
      assert CartSession() == Add(s0, produit.id);
      ApplyFilterAndPagination();
      UpdateCartTotal();
      outcome := Added;
    }

    /** `removeFromCart(id)`: the state afterwards is `Remove` of the state before;
        an id with no line changes nothing. */
    method RemoveFromCart(id: string)
      requires Valid()
      modifies this
      ensures Valid()
      ensures CartSession() == Remove(old(CartSession()), id)
      ensures old(FindLine(cartItems, id)).Some? ==> ViewCurrent() && KeepsSearchAndForm()
      ensures old(FindLine(cartItems, id)).None? ==> unchanged(this)
    {
      ghost var s0 := CartSession();
      var index := FindLine(cartItems, id);
      if index.Some? {
        var produitPanier := cartItems[index.value];
        var original := Find(produitsData, produitPanier.product.id);
        if original.Some? {
          var i := original.value;
          produitsData := AdjustAt(produitsData, i, produitPanier.quantity);
        }
        cartItems := cartItems[..index.value] + cartItems[index.value + 1..];
        assert CartSession() == Remove(s0, id);
        ApplyFilterAndPagination();
        UpdateCartTotal();
      }
    }

    /** `clearCart`: every line gives its quantity back, in order, then the cart
        is emptied; the state afterwards is `Clear` of the state before. */
    method ClearCart()
      requires Valid()
      modifies this
      ensures Valid() && ViewCurrent() && KeepsSearchAndForm()
      ensures CartSession() == Clear(old(CartSession()))
      ensures cartItems == [] && cartTotal == 0
    {
      ghost var s0 := CartSession();
      ReturnStock();
      cartItems := [];
      assert CartSession() == Clear(s0);
      ApplyFilterAndPagination();
      UpdateCartTotal();
    }

    /** The `forEach` of `clearCart`: each line in turn gives its quantity back
        to the product it came from, if that product is still in the catalog. */
    method ReturnStock()
      modifies this`produitsData
      ensures produitsData == Restock(old(produitsData), cartItems)
    {
      var k := 0;
      while k < |cartItems|
        invariant 0 <= k <= |cartItems|
        invariant Restock(produitsData, cartItems[k..]) == Restock(old(produitsData), cartItems)
      {
        var item := cartItems[k];
        produitsData := Restocked(produitsData, item.product.id, item.quantity);
        assert cartItems[k..] == [item] + cartItems[k + 1..];
        k := k + 1;
      }
    }

    /** `updateCartTotal`. */
    method UpdateCartTotal()
      modifies this
      ensures cartTotal == Total(cartItems)
      ensures CartSession() == old(CartSession()) && KeepsSearchAndForm()
      ensures paginatedProduits == old(paginatedProduits) && totalFilteredItems == old(totalFilteredItems)
      ensures old(ViewCurrent()) ==> ViewCurrent()
    {
      cartTotal := Total(cartItems);
    }
  }
}
