/** The shopping cart held by the storefront (src/App.jsx): the stored
    entries, the operations that rewrite them, the lines derived from them,
    and the shop-open and closed-popup handling over the key/value store. */
module CartStore {
  import opened Wrappers
  import opened Seqs
  import opened JsValues
  import opened Catalog
  import opened Storage

  datatype CartEntry = CartEntry(productId: string, qty: real)

  datatype CartLine = CartLine(
    productId: string, name: string, price: real, imageUrl: string,
    qty: real, lineTotal: real)

  const RemovedNotice: string := "Some items were removed because they are unavailable."

  predicate UniqueIds(cart: seq<CartEntry>) {
    forall i, j :: 0 <= i < j < |cart| ==> cart[i].productId != cart[j].productId
  }

  predicate PositiveQty(cart: seq<CartEntry>) {
    forall i :: 0 <= i < |cart| ==> cart[i].qty > 0.0
  }

  /** What every operation keeps: one entry per product, each with a positive quantity. */
  predicate ValidCart(cart: seq<CartEntry>) {
    UniqueIds(cart) && PositiveQty(cart)
  }

  predicate HasEntry(cart: seq<CartEntry>, id: string) {
    exists i :: 0 <= i < |cart| && cart[i].productId == id
  }

  predicate Available(products: seq<Product>, c: CartEntry) {
    Purchasable(FindProduct(products, c.productId))
  }

  // ---------------------------------------------------------------------
  // Pruning when the catalog changes

  /** The entries whose product still exists, is active and is not sold out, in cart order. */
  function Prune(products: seq<Product>, cart: seq<CartEntry>): (r: seq<CartEntry>)
    ensures forall i :: 0 <= i < |r| ==> r[i] in cart && Available(products, r[i])
    ensures forall i :: 0 <= i < |cart| && Available(products, cart[i]) ==> cart[i] in r
    ensures IsSubsequence(r, cart)
  {
    var available := (c: CartEntry) => Available(products, c);
    FilterSubsequence(cart, available);
    FilterMembership(cart, available);
    Filter(cart, available)
  }

  /** Pruning keeps an available entry as many times as the cart holds it,
      and an unavailable one not at all. */
  lemma PruneMultiplicity(products: seq<Product>, cart: seq<CartEntry>, e: CartEntry)
    ensures multiset(Prune(products, cart))[e] == if Available(products, e) then multiset(cart)[e] else 0
  {
    FilterMultiplicity(cart, (c: CartEntry) => Available(products, c), e);
  }

  /** The notice after pruning: set when some entry was dropped, otherwise kept. */
  function PruneNotice(products: seq<Product>, cart: seq<CartEntry>, notice: string): string {
    if |Prune(products, cart)| != |cart| then RemovedNotice else notice
  }

  /** The notice is posted exactly when some entry has become unavailable. */
  lemma PruneNoticeIff(products: seq<Product>, cart: seq<CartEntry>, notice: string)
    requires notice != RemovedNotice
    ensures PruneNotice(products, cart, notice) == RemovedNotice <==>
            exists i :: 0 <= i < |cart| && !Available(products, cart[i])
  {
    FilterKeepsAll(cart, (c: CartEntry) => Available(products, c));
  }

  /** A second prune against the same catalog drops nothing, so it posts no notice. */
  lemma PruneIdempotent(products: seq<Product>, cart: seq<CartEntry>)
    ensures Prune(products, Prune(products, cart)) == Prune(products, cart)
    ensures PruneNotice(products, Prune(products, cart), "") == ""
  {
    FilterIdempotent(cart, (c: CartEntry) => Available(products, c));
  }

  lemma ValidCartTail(cart: seq<CartEntry>)
    requires cart != [] && ValidCart(cart)
    ensures ValidCart(cart[1..])
    ensures forall i :: 0 <= i < |cart[1..]| ==> cart[1..][i].productId != cart[0].productId
  {
    assert forall i :: 0 <= i < |cart[1..]| ==> cart[1..][i] == cart[i + 1];
  }

  lemma ValidCartCons(x: CartEntry, cart: seq<CartEntry>)
    requires ValidCart(cart) && x.qty > 0.0
    requires forall i :: 0 <= i < |cart| ==> cart[i].productId != x.productId
    ensures ValidCart([x] + cart)
  {
    assert forall i :: 0 < i < |[x] + cart| ==> ([x] + cart)[i] == cart[i - 1];
  }

  /** Filtering cannot bring in an id the cart does not hold. */
  lemma FilterAvoidsId(cart: seq<CartEntry>, p: CartEntry -> bool, id: string)
    requires forall i :: 0 <= i < |cart| ==> cart[i].productId != id
    ensures forall i :: 0 <= i < |Filter(cart, p)| ==> Filter(cart, p)[i].productId != id
  {
    var f := Filter(cart, p);
    forall i | 0 <= i < |f|
      ensures f[i].productId != id
    {
      FilterMembers(cart, p, f[i]);
    }
  }

  /** Any filter of a valid cart is a valid cart. */
  lemma {:induction false} FilterKeepsValid(cart: seq<CartEntry>, p: CartEntry -> bool)
    requires ValidCart(cart)
    ensures ValidCart(Filter(cart, p))
    decreases |cart|
  {
    if cart != [] {
      var rest := cart[1..];
      ValidCartTail(cart);
      FilterKeepsValid(rest, p);
      if p(cart[0]) {
        FilterAvoidsId(rest, p, cart[0].productId);
        ValidCartCons(cart[0], Filter(rest, p));
      }
    }
  }

  lemma PrunePreservesValid(products: seq<Product>, cart: seq<CartEntry>)
    requires ValidCart(cart)
    ensures ValidCart(Prune(products, cart))
  {
    FilterKeepsValid(cart, (c: CartEntry) => Available(products, c));
  }

  // ---------------------------------------------------------------------
  // Add, update, remove

  function Increment(cart: seq<CartEntry>, id: string): (r: seq<CartEntry>)
    ensures |r| == |cart|
    ensures forall i :: 0 <= i < |r| ==> r[i].productId == cart[i].productId
    ensures forall i :: 0 <= i < |r| ==>
      r[i].qty == (if cart[i].productId == id then cart[i].qty + 1.0 else cart[i].qty)
  {
    Map(cart, (x: CartEntry) => if x.productId == id then x.(qty := x.qty + 1.0) else x)
  }

  /** Adding a product: nothing happens when it is missing, inactive or sold
      out; an existing entry gains one unit; otherwise a unit entry is appended. */
  function AddToCart(products: seq<Product>, cart: seq<CartEntry>, id: string): (r: seq<CartEntry>)
    ensures !Purchasable(FindProduct(products, id)) ==> r == cart
    ensures Purchasable(FindProduct(products, id)) && HasEntry(cart, id) ==> r == Increment(cart, id)
    ensures Purchasable(FindProduct(products, id)) && !HasEntry(cart, id) ==>
      |r| == |cart| + 1 && r[..|cart|] == cart && r[|cart|] == CartEntry(id, 1.0)
  {
    if !Purchasable(FindProduct(products, id)) then cart
    else if Find(cart, (x: CartEntry) => x.productId == id).Some? then Increment(cart, id)
    else cart + [CartEntry(id, 1.0)]
  }

  lemma AddPreservesValid(products: seq<Product>, cart: seq<CartEntry>, id: string)
    requires ValidCart(cart)
    ensures ValidCart(AddToCart(products, cart, id))
  {
    if Purchasable(FindProduct(products, id)) {
      if HasEntry(cart, id) {
        var r := Increment(cart, id);
        assert forall i :: 0 <= i < |r| ==> r[i].qty >= cart[i].qty;
      } else {
        AppendNewKeepsValid(cart, CartEntry(id, 1.0));
      }
    }
  }

  /** A positive entry for a product not yet in the cart keeps it valid. */
  lemma AppendNewKeepsValid(cart: seq<CartEntry>, e: CartEntry)
    requires ValidCart(cart) && !HasEntry(cart, e.productId) && e.qty > 0.0
    ensures ValidCart(cart + [e])
  {
    var r := cart + [e];
    forall i, j | 0 <= i < j < |r|
      ensures r[i].productId != r[j].productId
    {
      assert r[i] == cart[i];
      if j < |cart| {
        assert r[j] == cart[j];
      }
    }
    assert forall i :: 0 <= i < |r| ==> r[i].qty > 0.0 by {
      assert forall i :: 0 <= i < |cart| ==> r[i] == cart[i];
    }
  }

  /** Quantities added through `AddToCart` start at one and only grow. */
  lemma AddKeepsAtLeastOne(products: seq<Product>, cart: seq<CartEntry>, id: string)
    requires forall i :: 0 <= i < |cart| ==> cart[i].qty >= 1.0
    ensures var r := AddToCart(products, cart, id);
      forall i :: 0 <= i < |r| ==> r[i].qty >= 1.0
  {
  }

  /** `Number.isFinite(qty) ? qty : 0` */
  function SafeQty(qty: JsNum): real {
    match qty
    case Finite(v) => v
    case NaN => 0.0
  }

  function SetQty(cart: seq<CartEntry>, id: string, q: real): (r: seq<CartEntry>)
    ensures |r| == |cart|
    ensures forall i :: 0 <= i < |r| ==> r[i].productId == cart[i].productId
    ensures forall i :: 0 <= i < |r| ==> r[i].qty == (if cart[i].productId == id then q else cart[i].qty)
  {
    Map(cart, (x: CartEntry) => if x.productId == id then x.(qty := q) else x)
  }

  /** Setting a quantity: for an unavailable product its entry is removed;
      otherwise its quantity is set (non-finite means 0) and every entry
      without a positive quantity is dropped. */
  function UpdateQty(products: seq<Product>, cart: seq<CartEntry>, id: string, qty: JsNum): (r: seq<CartEntry>)
    ensures !Purchasable(FindProduct(products, id)) ==> r == RemoveItem(cart, id)
    ensures Purchasable(FindProduct(products, id)) ==> PositiveQty(r)
  {
    if !Purchasable(FindProduct(products, id)) then RemoveItem(cart, id)
    else Filter(SetQty(cart, id, SafeQty(qty)), (x: CartEntry) => x.qty > 0.0)
  }

  /** After a positive update the product's entry carries exactly that quantity. */
  lemma UpdateQtySets(products: seq<Product>, cart: seq<CartEntry>, id: string, qty: JsNum)
    requires Purchasable(FindProduct(products, id)) && HasEntry(cart, id) && SafeQty(qty) > 0.0
    ensures HasEntry(UpdateQty(products, cart, id, qty), id)
    ensures forall x :: x in UpdateQty(products, cart, id, qty) && x.productId == id ==> x.qty == SafeQty(qty)
  {
    var s := SetQty(cart, id, SafeQty(qty));
    var positive := (x: CartEntry) => x.qty > 0.0;
    var r := Filter(s, positive);
    assert r == UpdateQty(products, cart, id, qty);
    var i :| 0 <= i < |cart| && cart[i].productId == id;
    FilterMembers(s, positive, s[i]);
    var k :| 0 <= k < |r| && r[k] == s[i];
    forall x | x in r && x.productId == id
      ensures x.qty == SafeQty(qty)
    {
      FilterMembers(s, positive, x);
      var j :| 0 <= j < |s| && s[j] == x;
    }
  }

  /** A quantity of zero, a negative or a non-finite one removes the entry. */
  lemma UpdateQtyNonPositiveRemoves(products: seq<Product>, cart: seq<CartEntry>, id: string, qty: JsNum)
    requires SafeQty(qty) <= 0.0
    ensures !HasEntry(UpdateQty(products, cart, id, qty), id)
  {
    var r := UpdateQty(products, cart, id, qty);
    if Purchasable(FindProduct(products, id)) {
      var s := SetQty(cart, id, SafeQty(qty));
      forall i | 0 <= i < |r| ensures r[i].productId != id {
        FilterMembers(s, (x: CartEntry) => x.qty > 0.0, r[i]);
        var j :| 0 <= j < |s| && s[j] == r[i];
      }
    }
  }

  /** The other products' entries are untouched by an update. */
  lemma UpdateQtyKeepsOthers(products: seq<Product>, cart: seq<CartEntry>, id: string, qty: JsNum, i: nat)
    requires i < |cart| && cart[i].productId != id && cart[i].qty > 0.0
    ensures cart[i] in UpdateQty(products, cart, id, qty)
  {
    if Purchasable(FindProduct(products, id)) {
      var s := SetQty(cart, id, SafeQty(qty));
      assert s[i] == cart[i];
      FilterMembers(s, (x: CartEntry) => x.qty > 0.0, cart[i]);
    }
  }

  /** An update only rewrites and drops entries: the result keeps the
      cart's order, holds no entry the cart did not have apart from the new
      quantity on the updated product, and never creates an entry. */
  lemma UpdateQtyAddsNothing(products: seq<Product>, cart: seq<CartEntry>, id: string, qty: JsNum)
    ensures Purchasable(FindProduct(products, id)) ==>
              IsSubsequence(UpdateQty(products, cart, id, qty), SetQty(cart, id, SafeQty(qty)))
    ensures !Purchasable(FindProduct(products, id)) ==> IsSubsequence(UpdateQty(products, cart, id, qty), cart)
    ensures forall x :: x in UpdateQty(products, cart, id, qty) && x.productId != id ==> x in cart
    ensures !HasEntry(cart, id) ==> !HasEntry(UpdateQty(products, cart, id, qty), id)
  {
    if Purchasable(FindProduct(products, id)) {
      var s := SetQty(cart, id, SafeQty(qty));
      var positive := (x: CartEntry) => x.qty > 0.0;
      assert UpdateQty(products, cart, id, qty) == Filter(s, positive);
      FilterSubsequence(s, positive);
      forall x | x in Filter(s, positive)
        ensures x in s
      {
        FilterMembers(s, positive, x);
      }
      SetQtyEntries(cart, id, SafeQty(qty), Filter(s, positive));
    }
  }

  /** Entries drawn from `SetQty(cart, id, q)` are the cart's own, except for
      the updated product's; an absent id is not created. */
  lemma SetQtyEntries(cart: seq<CartEntry>, id: string, q: real, r: seq<CartEntry>)
    requires forall x :: x in r ==> x in SetQty(cart, id, q)
    ensures forall x :: x in r && x.productId != id ==> x in cart
    ensures !HasEntry(cart, id) ==> !HasEntry(r, id)
  {
    var s := SetQty(cart, id, q);
    forall x | x in r && x.productId != id
      ensures x in cart
    {
      var j :| 0 <= j < |s| && s[j] == x;
      assert s[j] == cart[j];
    }
    if !HasEntry(cart, id) {
      forall i | 0 <= i < |r|
        ensures r[i].productId != id
      {
        assert r[i] in s;
        var j :| 0 <= j < |s| && s[j] == r[i];
        assert s[j].productId == cart[j].productId;
      }
    }
  }

  lemma UpdateQtyPreservesValid(products: seq<Product>, cart: seq<CartEntry>, id: string, qty: JsNum)
    requires ValidCart(cart)
    ensures ValidCart(UpdateQty(products, cart, id, qty))
  {
    if Purchasable(FindProduct(products, id)) {
      var s := SetQty(cart, id, SafeQty(qty));
      assert UniqueIds(s);
      var f := Filter(s, (x: CartEntry) => x.qty > 0.0);
      FilterUniqueIds(s, (x: CartEntry) => x.qty > 0.0);
    } else {
      FilterKeepsValid(cart, (x: CartEntry) => x.productId != id);
    }
  }

  /** Filtering keeps the ids distinct. */
  lemma {:induction false} FilterUniqueIds(cart: seq<CartEntry>, p: CartEntry -> bool)
    requires UniqueIds(cart)
    ensures UniqueIds(Filter(cart, p))
    decreases |cart|
  {
    if cart != [] {
      var rest := cart[1..];
      assert UniqueIds(rest) by {
        assert forall i :: 0 <= i < |rest| ==> rest[i] == cart[i + 1];
      }
      FilterUniqueIds(rest, p);
      var f := Filter(rest, p);
      forall i | 0 <= i < |f|
        ensures f[i].productId != cart[0].productId
      {
        FilterMembers(rest, p, f[i]);
        var j :| 0 <= j < |rest| && rest[j] == f[i];
        assert cart[j + 1] == f[i];
      }
    }
  }

  /** Removing a product drops its entries and keeps the others in order. */
  function RemoveItem(cart: seq<CartEntry>, id: string): (r: seq<CartEntry>)
    ensures forall i :: 0 <= i < |r| ==> r[i].productId != id && r[i] in cart
    ensures forall i :: 0 <= i < |cart| && cart[i].productId != id ==> cart[i] in r
    ensures IsSubsequence(r, cart)
  {
    var kept := (x: CartEntry) => x.productId != id;
    FilterSubsequence(cart, kept);
    FilterMembership(cart, kept);
    Filter(cart, kept)
  }

  /** What `RemoveItem` drops is exactly the product's entries. */
  lemma RemoveItemExact(cart: seq<CartEntry>, id: string)
    ensures multiset(RemoveItem(cart, id)) + multiset(Filter(cart, (x: CartEntry) => x.productId == id)) == multiset(cart)
  {
    FilterPartition(cart, (x: CartEntry) => x.productId != id, (x: CartEntry) => x.productId == id);
  }

  // ---------------------------------------------------------------------
  // Derived lines, count and subtotal

  /** The cart line for an entry, when its product exists and is active. */
  function LineOf(products: seq<Product>, c: CartEntry): (r: Option<CartLine>)
    ensures r.Some? <==> Listed(FindProduct(products, c.productId))
    ensures r.Some? ==>
      var p := FindProduct(products, c.productId).value;
      r.value == CartLine(c.productId, p.name, p.price, p.imageUrl, c.qty, p.price * c.qty)
  {
    match FindProduct(products, c.productId)
    case None => None
    case Some(p) =>
      if !Truthy(p.isActive) then None
      else Some(CartLine(c.productId, p.name, p.price, p.imageUrl, c.qty, p.price * c.qty))
  }

  function CartLines(products: seq<Product>, cart: seq<CartEntry>): seq<CartLine> {
    Somes(Map(cart, (c: CartEntry) => LineOf(products, c)))
  }

  predicate IsListed(products: seq<Product>, c: CartEntry) {
    Listed(FindProduct(products, c.productId))
  }

  function ListedEntries(products: seq<Product>, cart: seq<CartEntry>): seq<CartEntry> {
    Filter(cart, (c: CartEntry) => IsListed(products, c))
  }

  lemma ListedEntriesUnfold(products: seq<Product>, cart: seq<CartEntry>)
    requires cart != []
    ensures ListedEntries(products, cart) ==
      (if IsListed(products, cart[0]) then [cart[0]] else []) + ListedEntries(products, cart[1..])
  {
  }

  lemma CartLinesUnfold(products: seq<Product>, cart: seq<CartEntry>)
    requires cart != []
    ensures CartLines(products, cart) ==
      (match LineOf(products, cart[0]) case Some(l) => [l] case None => []) + CartLines(products, cart[1..])
  {
    var f := (c: CartEntry) => LineOf(products, c);
    var m := Map(cart, f);
    assert m[0] == LineOf(products, cart[0]);
    assert m[1..] == Map(cart[1..], f);
  }

  /** One line per entry whose product exists and is active, in cart order,
      carrying the live name and price. */
  lemma {:induction false} CartLinesOfListed(products: seq<Product>, cart: seq<CartEntry>)
    ensures var lines := CartLines(products, cart);
      var kept := ListedEntries(products, cart);
      |lines| == |kept| && forall i :: 0 <= i < |kept| ==> LineOf(products, kept[i]) == Some(lines[i])
    decreases |cart|
  {
    if cart != [] {
      CartLinesOfListed(products, cart[1..]);
      CartLinesUnfold(products, cart);
      ListedEntriesUnfold(products, cart);
    }
  }

  function CartCount(lines: seq<CartLine>): real {
    SumBy(lines, (l: CartLine) => l.qty)
  }

  function Subtotal(lines: seq<CartLine>): real {
    SumBy(lines, (l: CartLine) => l.lineTotal)
  }

  /** The count is the total quantity of the listed entries. */
  lemma {:induction false} CartCountOfListed(products: seq<Product>, cart: seq<CartEntry>)
    ensures CartCount(CartLines(products, cart)) == SumBy(ListedEntries(products, cart), (c: CartEntry) => c.qty)
    decreases |cart|
  {
    if cart != [] {
      var rest := CartLines(products, cart[1..]);
      var kept := ListedEntries(products, cart[1..]);
      CartCountOfListed(products, cart[1..]);
      CartLinesUnfold(products, cart);
      ListedEntriesUnfold(products, cart);
      match LineOf(products, cart[0])
      case Some(l) =>
        SumByAppend([l], rest, (l: CartLine) => l.qty);
        SumByAppend([cart[0]], kept, (c: CartEntry) => c.qty);
      case None =>
        assert [] + rest == rest;
        assert [] + kept == kept;
    }
  }

  /** Sold-out products are pruned from the stored cart but still produce a
      line for an entry that has not been pruned yet. */
  lemma SoldOutStillListed(products: seq<Product>, cart: seq<CartEntry>, i: nat)
    requires i < |cart|
    requires var p := FindProduct(products, cart[i].productId);
      p.Some? && Truthy(p.value.isActive) && Truthy(p.value.isSoldOut)
    ensures exists k :: 0 <= k < |CartLines(products, cart)| && CartLines(products, cart)[k].productId == cart[i].productId
    ensures cart[i] !in Prune(products, cart)
  {
    CartLinesOfListed(products, cart);
    var kept := ListedEntries(products, cart);
    FilterMembers(cart, (c: CartEntry) => IsListed(products, c), cart[i]);
    assert cart[i] in kept;
    var k :| 0 <= k < |kept| && kept[k] == cart[i];
    assert CartLines(products, cart)[k].productId == cart[i].productId;
  }

  /** The live price of an entry's product; 0 when the product is gone. */
  function LivePrice(products: seq<Product>, c: CartEntry): real {
    match FindProduct(products, c.productId)
    case Some(p) => p.price
    case None => 0.0
  }

  /** The subtotal is the sum of live price times quantity over the listed entries. */
  lemma {:induction false} SubtotalOfListed(products: seq<Product>, cart: seq<CartEntry>)
    ensures Subtotal(CartLines(products, cart)) ==
            SumBy(ListedEntries(products, cart), (c: CartEntry) => LivePrice(products, c) * c.qty)
    decreases |cart|
  {
    if cart != [] {
      var rest := CartLines(products, cart[1..]);
      var kept := ListedEntries(products, cart[1..]);
      SubtotalOfListed(products, cart[1..]);
      CartLinesUnfold(products, cart);
      ListedEntriesUnfold(products, cart);
      match LineOf(products, cart[0])
      case Some(l) =>
        SumByAppend([l], rest, (l: CartLine) => l.lineTotal);
        SumByAppend([cart[0]], kept, (c: CartEntry) => LivePrice(products, c) * c.qty);
      case None =>
        assert [] + rest == rest;
        assert [] + kept == kept;
    }
  }

  /** Incrementing the one entry of a listed product raises the listed quantity by one. */
  /** The matching entry is the first one: only it changes, and it is listed. */
  lemma IncrementHeadAddsOne(products: seq<Product>, cart: seq<CartEntry>, id: string)
    requires UniqueIds(cart) && cart != [] && cart[0].productId == id && Listed(FindProduct(products, id))
    ensures SumBy(ListedEntries(products, Increment(cart, id)), (c: CartEntry) => c.qty) ==
            SumBy(ListedEntries(products, cart), (c: CartEntry) => c.qty) + 1.0
  {
    var q := (c: CartEntry) => c.qty;
    var inc := Increment(cart, id);
    var rest := cart[1..];
    assert inc[1..] == Increment(rest, id);
    assert !HasEntry(rest, id) by {
      forall i | 0 <= i < |rest| ensures rest[i].productId != id {
        assert rest[i] == cart[i + 1];
      }
    }
    assert Increment(rest, id) == rest;
    ListedEntriesUnfold(products, cart);
    ListedEntriesUnfold(products, inc);
    SumByAppend([inc[0]], ListedEntries(products, rest), q);
    SumByAppend([cart[0]], ListedEntries(products, rest), q);
  }

  /** The first entry does not match: it contributes the same to both sums. */
  lemma IncrementTailStep(products: seq<Product>, cart: seq<CartEntry>, id: string)
    requires cart != [] && cart[0].productId != id
    requires SumBy(ListedEntries(products, Increment(cart[1..], id)), (c: CartEntry) => c.qty) ==
             SumBy(ListedEntries(products, cart[1..]), (c: CartEntry) => c.qty) + 1.0
    ensures SumBy(ListedEntries(products, Increment(cart, id)), (c: CartEntry) => c.qty) ==
            SumBy(ListedEntries(products, cart), (c: CartEntry) => c.qty) + 1.0
  {
    var q := (c: CartEntry) => c.qty;
    var inc := Increment(cart, id);
    var rest := cart[1..];
    assert inc[1..] == Increment(rest, id);
    assert inc[0] == cart[0];
    ListedEntriesUnfold(products, cart);
    ListedEntriesUnfold(products, inc);
    if IsListed(products, cart[0]) {
      SumByAppend([cart[0]], ListedEntries(products, Increment(rest, id)), q);
      SumByAppend([cart[0]], ListedEntries(products, rest), q);
    } else {
      assert [] + ListedEntries(products, rest) == ListedEntries(products, rest);
      assert [] + ListedEntries(products, Increment(rest, id)) == ListedEntries(products, Increment(rest, id));
    }
  }

  lemma {:induction false} IncrementAddsOne(products: seq<Product>, cart: seq<CartEntry>, id: string)
    requires UniqueIds(cart) && HasEntry(cart, id) && Listed(FindProduct(products, id))
    ensures SumBy(ListedEntries(products, Increment(cart, id)), (c: CartEntry) => c.qty) ==
            SumBy(ListedEntries(products, cart), (c: CartEntry) => c.qty) + 1.0
    decreases |cart|
  {
    if cart[0].productId == id {
      IncrementHeadAddsOne(products, cart, id);
    } else {
      var rest := cart[1..];
      assert UniqueIds(rest) by {
        assert forall i :: 0 <= i < |rest| ==> rest[i] == cart[i + 1];
      }
      var i :| 0 <= i < |cart| && cart[i].productId == id;
      assert rest[i - 1].productId == id;
      IncrementAddsOne(products, rest, id);
      IncrementTailStep(products, cart, id);
    }
  }

  /** Adding an available product raises the cart count by exactly one. */
  lemma AddRaisesCount(products: seq<Product>, cart: seq<CartEntry>, id: string)
    requires UniqueIds(cart) && Purchasable(FindProduct(products, id))
    ensures CartCount(CartLines(products, AddToCart(products, cart, id))) == CartCount(CartLines(products, cart)) + 1.0
  {
    var q := (c: CartEntry) => c.qty;
    var r := AddToCart(products, cart, id);
    CartCountOfListed(products, cart);
    CartCountOfListed(products, r);
    if HasEntry(cart, id) {
      IncrementAddsOne(products, cart, id);
    } else {
      var e := CartEntry(id, 1.0);
      assert r == cart + [e];
      FilterAppend(cart, [e], (c: CartEntry) => IsListed(products, c));
      assert ListedEntries(products, [e]) == [e];
      SumByAppend(ListedEntries(products, cart), [e], q);
    }
  }

  // ---------------------------------------------------------------------
  // The closed-shop popup

  datatype PopupStep = NoChange | HidePopup | ShowPopup(msg: string)

  /** What the popup effect does for a visitor on the day keyed `today`. */
  function PopupDecision(staffLoggedIn: bool, m: map<string, string>, today: string): PopupStep {
    if staffLoggedIn then NoChange
    else if ShopOpen(m) then HidePopup
    else if GetItem(m, PopupShownKey(today)) == Some("true") then NoChange
    else ShowPopup(CloseMessage(m))
  }

  /** The popup opens only for a visitor who is not staff, while the shop is
      closed and today's popup has not been shown; it shows the close message. */
  lemma PopupShowsIff(staffLoggedIn: bool, m: map<string, string>, today: string)
    ensures PopupDecision(staffLoggedIn, m, today).ShowPopup? <==>
      !staffLoggedIn && !ShopOpen(m) && GetItem(m, PopupShownKey(today)) != Some("true")
    ensures PopupDecision(staffLoggedIn, m, today).ShowPopup? ==>
      PopupDecision(staffLoggedIn, m, today).msg == CloseMessage(m) && PopupDecision(staffLoggedIn, m, today).msg != ""
  {
  }

  /** The store as the effect leaves it. */
  function AfterPopup(staffLoggedIn: bool, m: map<string, string>, today: string): map<string, string> {
    if PopupDecision(staffLoggedIn, m, today).ShowPopup? then m[PopupShownKey(today) := "true"] else m
  }

  /** Once shown, the popup does not show again for the same date key. */
  lemma PopupOncePerDay(staffLoggedIn: bool, m: map<string, string>, today: string)
    ensures !PopupDecision(staffLoggedIn, AfterPopup(staffLoggedIn, m, today), today).ShowPopup?
  {
  }

  /** Different date keys are different store keys. */
  lemma PopupShownKeyInjective(d1: string, d2: string)
    requires d1 != d2
    ensures PopupShownKey(d1) != PopupShownKey(d2)
  {
    var prefix := "myfooddesk_closed_popup_shown_";
    assert PopupShownKey(d1)[|prefix|..] == d1;
    assert PopupShownKey(d2)[|prefix|..] == d2;
  }

  /** Showing today's popup does not suppress the popup of another day. */
  lemma PopupOtherDayUnaffected(staffLoggedIn: bool, m: map<string, string>, today: string, other: string)
    requires other != today
    ensures PopupDecision(staffLoggedIn, AfterPopup(staffLoggedIn, m, today), other) == PopupDecision(staffLoggedIn, m, other)
  {
    PopupShownKeyInjective(today, other);
  }

  // ---------------------------------------------------------------------
  // The storefront's state

  class Storefront {
    var products: seq<Product>
    var cart: seq<CartEntry>
    var cartNotice: string
    var cartOpen: bool
    var checkoutOpen: bool
    var closedPopupOpen: bool
    var closedPopupMsg: string
    const store: KeyValueStore

    predicate Valid()
      reads this
    {
      ValidCart(cart)
    }

    constructor(store: KeyValueStore)
      ensures this.store == store && Valid()
      ensures products == [] && cart == [] && cartNotice == ""
      ensures !cartOpen && !checkoutOpen && !closedPopupOpen && closedPopupMsg == ""
    {
      this.store := store;
      products := [];
      cart := [];
      cartNotice := "";
      cartOpen := false;
      checkoutOpen := false;
      closedPopupOpen := false;
      closedPopupMsg := "";
    }

    /** A new catalog arrives: the cart is pruned and the notice set if anything was dropped. */
    method ReceiveProducts(ps: seq<Product>)
      requires Valid()
      modifies this
      ensures Valid()
      ensures products == ps && cart == Prune(ps, old(cart))
      ensures cartNotice == PruneNotice(ps, old(cart), old(cartNotice))
      ensures cartOpen == old(cartOpen) && checkoutOpen == old(checkoutOpen)
      ensures closedPopupOpen == old(closedPopupOpen) && closedPopupMsg == old(closedPopupMsg)
    {
      PrunePreservesValid(ps, cart);
      var next := Prune(ps, cart);
      if |next| != |cart| {
        cartNotice := RemovedNotice;
      }
      products := ps;
      cart := next;
    }

    method Add(id: string)
      requires Valid()
      modifies this
      ensures Valid()
      ensures cart == AddToCart(old(products), old(cart), id)
      ensures products == old(products) && cartNotice == old(cartNotice)
      ensures cartOpen == old(cartOpen) && checkoutOpen == old(checkoutOpen)
      ensures closedPopupOpen == old(closedPopupOpen) && closedPopupMsg == old(closedPopupMsg)
    {
      AddPreservesValid(products, cart, id);
      cart := AddToCart(products, cart, id);
    }

    method SetQuantity(id: string, qty: JsNum)
      requires Valid()
      modifies this
      ensures Valid()
      ensures cart == UpdateQty(old(products), old(cart), id, qty)
      ensures products == old(products) && cartNotice == old(cartNotice)
      ensures cartOpen == old(cartOpen) && checkoutOpen == old(checkoutOpen)
      ensures closedPopupOpen == old(closedPopupOpen) && closedPopupMsg == old(closedPopupMsg)
    {
      UpdateQtyPreservesValid(products, cart, id, qty);
      cart := UpdateQty(products, cart, id, qty);
    }

    method Remove(id: string)
      requires Valid()
      modifies this
      ensures Valid()
      ensures cart == RemoveItem(old(cart), id)
      ensures products == old(products) && cartNotice == old(cartNotice)
      ensures cartOpen == old(cartOpen) && checkoutOpen == old(checkoutOpen)
      ensures closedPopupOpen == old(closedPopupOpen) && closedPopupMsg == old(closedPopupMsg)
    {
      FilterKeepsValid(cart, (x: CartEntry) => x.productId != id);
      cart := RemoveItem(cart, id);
    }

    /** Checkout opens, closing the cart, only while the shop is open and there is a line. */
    method OpenCheckoutFromCart()
      modifies this
      ensures ShopOpen(store.entries) && CartLines(products, cart) != [] ==> !cartOpen && checkoutOpen
      ensures !(ShopOpen(store.entries) && CartLines(products, cart) != []) ==>
        cartOpen == old(cartOpen) && checkoutOpen == old(checkoutOpen)
      ensures products == old(products) && cart == old(cart) && cartNotice == old(cartNotice)
      ensures closedPopupOpen == old(closedPopupOpen) && closedPopupMsg == old(closedPopupMsg)
    {
      var v := store.Get(ShopOpenKey);
      var shopOpen := v.None? || v.value == "true";
      if !shopOpen {
        return;
      }
      if |CartLines(products, cart)| == 0 {
        return;
      }
      cartOpen := false;
      checkoutOpen := true;
    }

    /** The closed-shop popup effect, run for a visitor on the day keyed `today`. */
    method ClosedPopupEffect(staffLoggedIn: bool, today: string)
      modifies this, store
      ensures store.entries == AfterPopup(staffLoggedIn, old(store.entries), today)
      ensures match PopupDecision(staffLoggedIn, old(store.entries), today)
        case NoChange => closedPopupOpen == old(closedPopupOpen) && closedPopupMsg == old(closedPopupMsg)
        case HidePopup => !closedPopupOpen && closedPopupMsg == old(closedPopupMsg)
        case ShowPopup(msg) => closedPopupOpen && closedPopupMsg == msg
      ensures products == old(products) && cart == old(cart) && cartNotice == old(cartNotice)
      ensures cartOpen == old(cartOpen) && checkoutOpen == old(checkoutOpen)
    {
      if staffLoggedIn {
        return;
      }
      var v := store.Get(ShopOpenKey);
      var open := v.None? || v.value == "true";
      if open {
        closedPopupOpen := false;
        return;
      }
      var shownKey := PopupShownKey(today);
      var shown := store.Get(shownKey);
      if shown == Some("true") {
        return;
      }
      var m := store.Get(CloseMsgKey);
      var msg := if m.Some? && m.value != "" then m.value else DefaultCloseMsg;
      closedPopupMsg := msg;
      closedPopupOpen := true;
      store.Set(shownKey, "true");
    }
  }
}
