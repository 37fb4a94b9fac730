/** The storefront product grid of src/pages/PublicProducts.jsx: which
    products are visible, the category buttons, and the category filter. */
module PublicProducts {
  import opened Wrappers
  import opened Seqs
  import opened Text
  import opened JsValues
  import opened Catalog

  /** A product is hidden only when `isActive` is exactly `false`. */
  predicate IsVisible(p: Product) {
    p.isActive != Some(false)
  }

  /** `visible`. */
  function Visible(products: seq<Product>): (r: seq<Product>)
    ensures IsSubsequence(r, products)
    ensures forall p :: p in r <==> p in products && IsVisible(p)
    ensures forall p :: p in products && p.isActive.None? ==> p in r
  {
    FilterSubsequence(products, IsVisible);
    FilterMembership(products, IsVisible);
    Filter(products, IsVisible)
  }

  lemma VisibleCategoryFromCatalog(products: seq<Product>, c: string, i: nat)
    requires i < |products| && IsVisible(products[i]) && HasCategory(products[i], c)
    ensures exists j | 0 <= j < |Visible(products)| :: HasCategory(Visible(products)[j], c)
  {
    var visible := Visible(products);
    var p := products[i];
    assert p in visible;
    var j :| 0 <= j < |visible| && visible[j] == p;
  }

  lemma CatalogCategoryFromVisible(products: seq<Product>, c: string, j: nat)
    requires j < |Visible(products)| && HasCategory(Visible(products)[j], c)
    ensures exists i | 0 <= i < |products| :: IsVisible(products[i]) && HasCategory(products[i], c)
  {
    var p := Visible(products)[j];
    assert p in products && IsVisible(p);
    var i :| 0 <= i < |products| && products[i] == p;
  }

  /** A category occurs among the visible products exactly when some
      product in the catalog is visible and has it. */
  lemma VisibleCategory(products: seq<Product>, c: string)
    ensures (exists j | 0 <= j < |Visible(products)| :: HasCategory(Visible(products)[j], c)) <==>
            (exists i | 0 <= i < |products| :: IsVisible(products[i]) && HasCategory(products[i], c))
  {
    if exists j | 0 <= j < |Visible(products)| :: HasCategory(Visible(products)[j], c) {
      var j :| 0 <= j < |Visible(products)| && HasCategory(Visible(products)[j], c);
      CatalogCategoryFromVisible(products, c, j);
    }
    if exists i | 0 <= i < |products| :: IsVisible(products[i]) && HasCategory(products[i], c) {
      var i :| 0 <= i < |products| && IsVisible(products[i]) && HasCategory(products[i], c);
      VisibleCategoryFromCatalog(products, c, i);
    }
  }

  /** `categories`: the category buttons, built from the visible products
      only. */
  method VisibleCategories(products: seq<Product>) returns (cats: seq<string>)
    ensures Distinct(cats) && Sorted(cats, Ascending())
    ensures forall c :: c in cats <==>
      exists i | 0 <= i < |products| :: IsVisible(products[i]) && HasCategory(products[i], c)
  {
    var visible := Visible(products);
    cats := Categories(visible);
    forall c
      ensures c in cats <==>
        exists i | 0 <= i < |products| :: IsVisible(products[i]) && HasCategory(products[i], c)
    {
      VisibleCategory(products, c);
    }
  }

  /** `filtered`: everything visible for "ALL", else the visible products
      whose trimmed category is exactly the selection (letter case counts). */
  function FilteredByCategory(visible: seq<Product>, active: string): (r: seq<Product>)
    ensures active == "ALL" ==> r == visible
    ensures active != "ALL" ==> IsSubsequence(r, visible)
    ensures active != "ALL" ==> forall p :: p in r <==> p in visible && Trim(p.category) == active
  {
    if active == "ALL" then visible
    else
      var inCategory := (p: Product) => Trim(p.category) == active;
      FilterSubsequence(visible, inCategory);
      FilterMembership(visible, inCategory);
      Filter(visible, inCategory)
  }

  /** Every category button other than "ALL" shows at least one product. */
  lemma CategoryButtonShowsProducts(products: seq<Product>, c: string)
    requires c != "ALL"
    requires exists i | 0 <= i < |products| :: IsVisible(products[i]) && HasCategory(products[i], c)
    ensures |FilteredByCategory(Visible(products), c)| > 0
  {
    var i :| 0 <= i < |products| && IsVisible(products[i]) && HasCategory(products[i], c);
    assert products[i] in Visible(products);
    assert products[i] in FilteredByCategory(Visible(products), c);
  }

  /** The card a product is drawn with: `isSoldOut` made boolean. */
  function CardOf(p: Product): (r: Product)
    ensures r.isSoldOut.Some? && r.isSoldOut.value == Truthy(p.isSoldOut)
    ensures r.(isSoldOut := p.isSoldOut) == p
  {
    p.(isSoldOut := Some(Truthy(p.isSoldOut)))
  }

  /** Sold-out products stay in the grid: neither filter looks at the flag. */
  lemma SoldOutStaysListed(products: seq<Product>, active: string, p: Product)
    requires p in products && IsVisible(p) && (active == "ALL" || Trim(p.category) == active)
    ensures p in FilteredByCategory(Visible(products), active)
    ensures p.(isSoldOut := Some(true)) in
            FilteredByCategory(Visible(products + [p.(isSoldOut := Some(true))]), active)
  {
    var q := p.(isSoldOut := Some(true));
    assert q in products + [q];
  }
}
