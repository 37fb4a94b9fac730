/** Catalog records shared by the storefront and the staff pages. */
module Catalog {
  import opened Wrappers
  import opened Seqs
  import opened JsValues
  import opened Text

  /** A product as held in memory. `isActive` and `isSoldOut` may be absent
      on stored records, which is why they are optional. */
  datatype Product = Product(
    id: string, name: string, description: string,
    price: real, costToMake: real, category: string,
    isActive: Option<bool>, isSoldOut: Option<bool>,
    imageUrl: string, madeWith: seq<string>)

  /** `products.find((x) => x.id === id)`. */
  function FindProduct(products: seq<Product>, id: string): (r: Option<Product>)
    ensures r.None? <==> forall i :: 0 <= i < |products| ==> products[i].id != id
    ensures r.Some? ==> r.value.id == id
    ensures r.Some? ==> exists i :: 0 <= i < |products| && products[i] == r.value &&
                                    forall j :: 0 <= j < i ==> products[j].id != id
  {
    Find(products, (x: Product) => x.id == id)
  }

  /** `p && p.isActive && !p.isSoldOut`: the product can be put in the cart. */
  predicate Purchasable(p: Option<Product>) {
    p.Some? && Truthy(p.value.isActive) && !Truthy(p.value.isSoldOut)
  }

  /** `p && p.isActive`: the product still shows up as a cart line. */
  predicate Listed(p: Option<Product>) {
    p.Some? && Truthy(p.value.isActive)
  }

  lemma PurchasableIsListed(p: Option<Product>)
    requires Purchasable(p)
    ensures Listed(p)
  {
  }

  // ---------------------------------------------------------------------
  // Category lists

  /** The product contributes the category `c`: its category is non-empty
      after trimming, and `c` is the trimmed text. */
  predicate HasCategory(p: Product, c: string) {
    p.category != "" && Trim(p.category) != "" && Trim(p.category) == c
  }

  /** The ascending string order standing in for `sort()` and `localeCompare`. */
  function Ascending(): (string, string) -> bool {
    (a: string, b: string) => LexLe(a, b)
  }

  lemma AscendingIsTotalPreorder()
    ensures TotalPreorder(Ascending())
  {
    var le := Ascending();
    forall a: string, b: string
      ensures le(a, b) || le(b, a)
    {
      LexLeTotal(a, b);
    }
    forall a: string, b: string, c: string | le(a, b) && le(b, c)
      ensures le(a, c)
    {
      LexLeTransitive(a, b, c);
    }
  }

  /** `seen` holds exactly the categories of the first `i` products. */
  ghost predicate SeenExactly(products: seq<Product>, i: nat, seen: seq<string>)
    requires i <= |products|
  {
    forall c :: c in seen <==> exists j | 0 <= j < i :: HasCategory(products[j], c)
  }

  lemma SeenStep(products: seq<Product>, i: nat, seen: seq<string>, next: seq<string>)
    requires i < |products| && SeenExactly(products, i, seen)
    requires HasCategory(products[i], Trim(products[i].category)) ==> forall c :: c in next <==> c in seen || c == Trim(products[i].category)
    requires !HasCategory(products[i], Trim(products[i].category)) ==> next == seen
    ensures SeenExactly(products, i + 1, next)
  {
    var t := Trim(products[i].category);
    forall c
      ensures c in next <==> exists j | 0 <= j < i + 1 :: HasCategory(products[j], c)
    {
      if c in next {
        if c in seen {
          var j :| 0 <= j < i && HasCategory(products[j], c);
        } else {
          assert HasCategory(products[i], c);
        }
      }
      if exists j | 0 <= j < i + 1 :: HasCategory(products[j], c) {
        var j :| 0 <= j < i + 1 && HasCategory(products[j], c);
        if j < i {
          assert c in seen;
        } else {
          assert c == t && HasCategory(products[i], t);
        }
      }
    }
  }

  /** The `forEach` that fills the `Set` of trimmed non-empty categories,
      in first-seen order. */
  method CollectCategories(products: seq<Product>) returns (seen: seq<string>)
    ensures Distinct(seen) && SeenExactly(products, |products|, seen)
  {
    seen := [];
    var i := 0;
    while i < |products|
      invariant 0 <= i <= |products|
      invariant Distinct(seen)
      invariant SeenExactly(products, i, seen)
    {
      var p := products[i];
      var next := seen;
      if p.category != "" && Trim(p.category) != "" {
        var t := Trim(p.category);
        if t !in seen {
          next := seen + [t];
          AppendKeepsDistinct(seen, t);
        }
      }
      SeenStep(products, i, seen, next);
      seen := next;
      i := i + 1;
    }
  }

  /** `categories`: the collected categories, sorted. */
  method Categories(products: seq<Product>) returns (cats: seq<string>)
    ensures Distinct(cats) && Sorted(cats, Ascending())
    ensures forall c :: c in cats <==> exists i | 0 <= i < |products| :: HasCategory(products[i], c)
    ensures forall k | 0 <= k < |cats| :: cats[k] != "" && IsTrimmed(cats[k])
  {
    var seen := CollectCategories(products);
    cats := SortBy(seen, Ascending());
    SortKeepsDistinct(seen, Ascending());
    AscendingIsTotalPreorder();
    SortBySorted(seen, Ascending());
    forall c
      ensures c in cats <==> c in seen
    {
      SortByMembers(seen, Ascending(), c);
    }
    forall k | 0 <= k < |cats|
      ensures cats[k] != "" && IsTrimmed(cats[k])
    {
      assert cats[k] in seen;
    }
  }
}
