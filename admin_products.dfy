/** The staff product page of src/pages/staff/StaffProducts.jsx: the
    ingredient parser, the search filter, the add/edit form with its
    category mode, the image checks, the save guard and payload, and the
    flag toggles. */
module StaffProducts {
  import opened Wrappers
  import opened Seqs
  import opened Text
  import opened JsValues
  import opened Catalog

  // ---------------------------------------------------------------------
  // Ingredients

  /** `parseMadeWith`: nothing for an empty text, else the comma list. */
  function ParseMadeWith(text: string): (r: seq<string>)
    ensures CleanItems(r)
    ensures text == "" ==> r == []
  {
    if text == "" then [] else ParseCommaList(text)
  }

  /** What `startEdit` writes into the text box (`mw.join(", ")`) parses back
      to the same ingredient list when the items are clean. */
  lemma MadeWithRoundTrip(xs: seq<string>)
    requires CleanItems(xs)
    ensures ParseMadeWith(Join(xs, ", ")) == xs
  {
    ParseJoinRoundTrip(xs);
    if Join(xs, ", ") == "" {
      ParseEmpty();
    }
  }

  // ---------------------------------------------------------------------
  // Search

  /** The lower-cased query `s` is blank or occurs in the lower-cased name,
      category or description. */
  predicate MatchesSearch(p: Product, s: string) {
    s == "" || Contains(Lower(p.name), s) || Contains(Lower(p.category), s) ||
    Contains(Lower(p.description), s)
  }

  /** The category filter is "ALL" or equals the category up to letter case. */
  predicate MatchesCategory(p: Product, filter: string) {
    filter == "ALL" || Lower(p.category) == Lower(filter)
  }

  predicate Shown(p: Product, q: string, filter: string) {
    MatchesSearch(p, Lower(Trim(q))) && MatchesCategory(p, filter)
  }

  /** `filtered`: the products the list shows, in catalog order. */
  function FilteredProducts(products: seq<Product>, q: string, filter: string): (r: seq<Product>)
    ensures IsSubsequence(r, products)
    ensures forall p :: p in r <==> p in products && Shown(p, q, filter)
  {
    var shown := (p: Product) => Shown(p, q, filter);
    FilterSubsequence(products, shown);
    FilterMembership(products, shown);
    Filter(products, shown)
  }

  /** A blank query with the "ALL" filter shows the whole catalog. */
  lemma BlankQueryShowsAll(products: seq<Product>, q: string)
    requires Trim(q) == ""
    ensures FilteredProducts(products, q, "ALL") == products
  {
    FilterAllKept(products, p => Shown(p, q, "ALL"));
  }

  /** No lower-cased text is "ALL". */
  lemma LowerIsNotAll(s: string)
    ensures Lower(s) != "ALL"
  {
    if |s| == 3 {
      assert Lower(s)[0] == LowerChar(s[0]) != 'A';
    }
  }

  /** The category filter ignores letter case. */
  lemma CategoryFilterIgnoresCase(products: seq<Product>, q: string, filter: string)
    requires filter != "ALL"
    ensures FilteredProducts(products, q, Lower(filter)) == FilteredProducts(products, q, filter)
  {
    LowerIdempotent(filter);
    LowerIsNotAll(filter);
    FilterSame(products, p => Shown(p, q, Lower(filter)), p => Shown(p, q, filter));
  }

  // ---------------------------------------------------------------------
  // The add/edit form

  datatype CategoryMode = Existing | New

  /** The form fields. Prices are what `Number(e.target.value)` gave. */
  datatype Form = Form(
    name: string, description: string, price: JsNum, costToMake: JsNum,
    category: string, isActive: bool, isSoldOut: bool, imageUrl: string,
    madeWith: seq<string>)

  /** `emptyProduct()`: the form of a new product. */
  function EmptyForm(): Form {
    Form("", "", Finite(0.0), Finite(0.0), "", true, false, "", [])
  }

  /** The form `startEdit` fills from a product: a missing `isActive`
      counts as active, a missing `isSoldOut` as available. */
  function EditForm(p: Product): (f: Form)
    ensures f.isActive == (p.isActive != Some(false))
    ensures f.isSoldOut == Truthy(p.isSoldOut)
    ensures f.name == p.name && f.category == p.category && f.madeWith == p.madeWith
  {
    Form(p.name, p.description, Finite(p.price), Finite(p.costToMake), p.category,
         p.isActive.GetOr(true), Truthy(p.isSoldOut), p.imageUrl, p.madeWith)
  }

  /** The category mode `startAdd` picks: pick from the list when there is one. */
  function AddMode(categories: seq<string>): (m: CategoryMode)
    ensures m == Existing <==> |categories| > 0
  {
    if |categories| > 0 then Existing else New
  }

  /** Some listed category equals `t` up to letter case. */
  predicate Listed(categories: seq<string>, t: string) {
    exists i | 0 <= i < |categories| :: Lower(categories[i]) == Lower(t)
  }

  /** The category mode and the new-category text `startEdit` picks. */
  function EditMode(categories: seq<string>, p: Product): (r: (CategoryMode, string))
    ensures r.0 == Existing <==> Trim(p.category) != "" && Listed(categories, Trim(p.category))
    ensures r.1 == (if r.0 == Existing then "" else Trim(p.category))
  {
    var t := Trim(p.category);
    if t != "" && Listed(categories, t) then (Existing, "") else (New, t)
  }

  /** `finalizeCategory`: the trimmed category of the chosen mode. */
  function FinalCategory(mode: CategoryMode, form: Form, newCategory: string): (r: string)
    ensures IsTrimmed(r)
  {
    if mode == Existing then Trim(form.category) else Trim(newCategory)
  }

  /** Opening a product for editing and finalizing the category without
      touching it gives back the product's trimmed category, in both modes. */
  lemma EditKeepsCategory(categories: seq<string>, p: Product)
    ensures FinalCategory(EditMode(categories, p).0, EditForm(p), EditMode(categories, p).1) ==
            Trim(p.category)
  {
    TrimOfTrimmed(Trim(p.category));
  }

  // ---------------------------------------------------------------------
  // Images

  /** The picked file as the browser describes it. */
  datatype ImageFile = ImageFile(mimeType: string, size: nat)

  datatype ImageCheck = NoFile | WrongType | TooLarge | Accepted

  const MaxImageBytes: nat := 2 * 1024 * 1024

  const WrongTypeMsg := "Please upload an image file (jpg/png/webp)."
  const TooLargeMsg := "Image is too large. Please use an image under 2MB."
  const MissingImageMsg := "Please upload a product image."

  /** The checks of `onPickImage`, type first, then size. */
  function CheckImage(file: Option<ImageFile>): (r: ImageCheck)
    ensures r == NoFile <==> file.None?
    ensures r == Accepted <==>
      file.Some? && StartsWith(file.value.mimeType, "image/") && file.value.size <= MaxImageBytes
    ensures r == TooLarge <==>
      file.Some? && StartsWith(file.value.mimeType, "image/") && file.value.size > MaxImageBytes
  {
    match file
    case None => NoFile
    case Some(f) =>
      if !StartsWith(f.mimeType, "image/") then WrongType
      else if f.size > MaxImageBytes then TooLarge
      else Accepted
  }

  /** The error text the check leaves on the form. */
  function ImageError(c: ImageCheck): string {
    match c
    case WrongType => WrongTypeMsg
    case TooLarge => TooLargeMsg
    case _ => ""
  }

  lemma ImageExamples()
    ensures CheckImage(Some(ImageFile("image/png", MaxImageBytes))) == Accepted
    ensures CheckImage(Some(ImageFile("image/png", MaxImageBytes + 1))) == TooLarge
    ensures CheckImage(Some(ImageFile("application/pdf", 10))) == WrongType
  {
    assert "application/pdf"[0] == 'a';
  }

  // ---------------------------------------------------------------------
  // Saving

  datatype ProductPayload = ProductPayload(
    name: string, description: string, price: real, costToMake: real,
    category: string, isActive: bool, isSoldOut: bool, imageUrl: string,
    madeWith: seq<string>)

  /** What `save` does: nothing, complain about the image, or call the API. */
  datatype SaveOutcome =
    | NoCall
    | MissingImage
    | Create(payload: ProductPayload)
    | Update(id: string, payload: ProductPayload)

  /** A payload `save` can send: trimmed non-empty name and category, an
      image, and a clean ingredient list. */
  predicate WellFormed(pl: ProductPayload) {
    pl.name != "" && IsTrimmed(pl.name) && pl.category != "" && IsTrimmed(pl.category) &&
    pl.imageUrl != "" && CleanItems(pl.madeWith)
  }

  /** The payload carries the form's values: the trimmed name, the final
      category, `Number(x) || 0` prices, the boolean flags, the parsed
      ingredients. */
  predicate PayloadFrom(pl: ProductPayload, form: Form, mode: CategoryMode,
                        newCategory: string, madeWithText: string) {
    pl.name == Trim(form.name) &&
    pl.category == FinalCategory(mode, form, newCategory) &&
    pl.price == OrZero(form.price) && pl.costToMake == OrZero(form.costToMake) &&
    pl.isActive == form.isActive && pl.isSoldOut == form.isSoldOut &&
    pl.description == form.description && pl.imageUrl == form.imageUrl &&
    pl.madeWith == ParseMadeWith(madeWithText)
  }

  /** The guard and the payload of `save`. */
  function SaveOutcomeOf(form: Form, editing: Option<Product>, mode: CategoryMode,
                         newCategory: string, madeWithText: string): (r: SaveOutcome)
    ensures r == NoCall <==> Trim(form.name) == "" || FinalCategory(mode, form, newCategory) == ""
    ensures r == MissingImage <==>
      Trim(form.name) != "" && FinalCategory(mode, form, newCategory) != "" && form.imageUrl == ""
    ensures r.Create? <==> r != NoCall && r != MissingImage && editing.None?
    ensures r.Update? <==> r != NoCall && r != MissingImage && editing.Some?
    ensures r.Update? ==> r.id == editing.value.id
    ensures (r.Create? || r.Update?) ==> PayloadFrom(r.payload, form, mode, newCategory, madeWithText)
  {
    var name := Trim(form.name);
    var category := FinalCategory(mode, form, newCategory);
    if name == "" || category == "" then NoCall
    else if form.imageUrl == "" then MissingImage
    else
      var payload := ProductPayload(name, form.description, OrZero(form.price),
                                    OrZero(form.costToMake), category, form.isActive,
                                    form.isSoldOut, form.imageUrl, ParseMadeWith(madeWithText));
      match editing
      case Some(p) => Update(p.id, payload)
      case None => Create(payload)
  }

  /** Whatever `save` sends is well formed, whatever the form held. */
  lemma SavedPayloadWellFormed(form: Form, editing: Option<Product>, mode: CategoryMode,
                               newCategory: string, madeWithText: string)
    ensures var r := SaveOutcomeOf(form, editing, mode, newCategory, madeWithText);
            (r.Create? || r.Update?) ==> WellFormed(r.payload)
  {
    var r := SaveOutcomeOf(form, editing, mode, newCategory, madeWithText);
    if r.Create? || r.Update? {
      assert PayloadFrom(r.payload, form, mode, newCategory, madeWithText);
    }
  }

  /** The fields `save` reads back from a form `startEdit` filled. */
  lemma EditFormReadBack(categories: seq<string>, p: Product)
    requires IsTrimmed(p.name) && CleanItems(p.madeWith)
    ensures Trim(EditForm(p).name) == p.name
    ensures FinalCategory(EditMode(categories, p).0, EditForm(p), EditMode(categories, p).1) ==
            Trim(p.category)
    ensures ParseMadeWith(Join(p.madeWith, ", ")) == p.madeWith
  {
    TrimOfTrimmed(p.name);
    EditKeepsCategory(categories, p);
    MadeWithRoundTrip(p.madeWith);
  }

  /** Opening a well-formed product and saving at once sends the product
      back as it was, its flags made boolean. */
  lemma EditThenSaveKeepsProduct(categories: seq<string>, p: Product)
    requires p.name != "" && IsTrimmed(p.name) && Trim(p.category) != ""
    requires p.imageUrl != "" && CleanItems(p.madeWith)
    ensures SaveOutcomeOf(EditForm(p), Some(p), EditMode(categories, p).0, EditMode(categories, p).1,
                          Join(p.madeWith, ", ")) ==
            Update(p.id, ProductPayload(p.name, p.description, p.price, p.costToMake,
                                        Trim(p.category), p.isActive != Some(false),
                                        Truthy(p.isSoldOut), p.imageUrl, p.madeWith))
  {
    var form := EditForm(p);
    var m := EditMode(categories, p);
    var text := Join(p.madeWith, ", ");
    assert Trim(form.name) == p.name && FinalCategory(m.0, form, m.1) == Trim(p.category) &&
           ParseMadeWith(text) == p.madeWith by {
      EditFormReadBack(categories, p);
    }
    SaveReadBack(form, p, m.0, m.1, text);
  }

  lemma SaveReadBack(form: Form, p: Product, mode: CategoryMode, newCategory: string, text: string)
    requires form == EditForm(p) && p.name != "" && p.imageUrl != ""
    requires Trim(form.name) == p.name && FinalCategory(mode, form, newCategory) == Trim(p.category)
    requires Trim(p.category) != "" && ParseMadeWith(text) == p.madeWith
    ensures SaveOutcomeOf(form, Some(p), mode, newCategory, text) ==
            Update(p.id, ProductPayload(p.name, p.description, p.price, p.costToMake,
                                        Trim(p.category), p.isActive != Some(false),
                                        Truthy(p.isSoldOut), p.imageUrl, p.madeWith))
  {
    var r := SaveOutcomeOf(form, Some(p), mode, newCategory, text);
    assert r.Update?;
    assert PayloadFrom(r.payload, form, mode, newCategory, text);
  }

  // ---------------------------------------------------------------------
  // Deleting a category

  /** The products `deleteCategory` sends an update for (each by its id,
      with category "Other"): those whose trimmed category is the deleted
      one; nothing for an empty name. */
  function DeleteCategoryTargets(products: seq<Product>, catName: string): (r: seq<Product>)
    ensures catName == "" ==> r == []
    ensures IsSubsequence(r, products)
    ensures catName != "" ==> forall p :: p in r <==> p in products && Trim(p.category) == catName
  {
    if catName == "" then []
    else
      var inCategory := (p: Product) => Trim(p.category) == catName;
      FilterSubsequence(products, inCategory);
      FilterMembership(products, inCategory);
      Filter(products, inCategory)
  }

  // ---------------------------------------------------------------------
  // Flag toggles

  /** `toggleActive`: the product with the id, and the flag to send, which is
      the negation of the flag as the list shows it. */
  function ToggleActiveRequest(products: seq<Product>, id: string): (r: Option<bool>)
    ensures r.None? <==> FindProduct(products, id).None?
    ensures r.Some? ==> r.value == !Truthy(FindProduct(products, id).value.isActive)
  {
    match FindProduct(products, id)
    case None => None
    case Some(p) => Some(!Truthy(p.isActive))
  }

  /** `toggleSoldOut`, the same for the sold-out flag. */
  function ToggleSoldOutRequest(products: seq<Product>, id: string): (r: Option<bool>)
    ensures r.None? <==> FindProduct(products, id).None?
    ensures r.Some? ==> r.value == !Truthy(FindProduct(products, id).value.isSoldOut)
  {
    match FindProduct(products, id)
    case None => None
    case Some(p) => Some(!Truthy(p.isSoldOut))
  }

  /** The catalog after the server stored `isActive: v` for the id. */
  function WithActive(products: seq<Product>, id: string, v: bool): (r: seq<Product>)
    ensures |r| == |products|
    ensures forall i | 0 <= i < |r| :: r[i].id == products[i].id
  {
    Map(products, (p: Product) => if p.id == id then p.(isActive := Some(v)) else p)
  }

  /** Two toggles of the active flag send opposite values, and the second
      restores what the list showed before the first. */
  lemma ToggleActiveTwice(products: seq<Product>, id: string)
    requires ToggleActiveRequest(products, id).Some?
    ensures var v := ToggleActiveRequest(products, id).value;
            ToggleActiveRequest(WithActive(products, id, v), id) ==
            Some(Truthy(FindProduct(products, id).value.isActive))
  {
    var v := ToggleActiveRequest(products, id).value;
    var after := WithActive(products, id, v);
    var i := FindIndex(products, (x: Product) => x.id == id).value;
    assert products[i].id == id;
    var j := FindIndex(after, (x: Product) => x.id == id).value;
    FindIndexPointwise(products, (x: Product) => x.id == id, after, (x: Product) => x.id == id);
    assert j == i;
    assert FindProduct(after, id) == Some(after[i]);
    assert FindProduct(products, id) == Some(products[i]);
  }

  // ---------------------------------------------------------------------
  // The page state

  class ProductEditor {
    var isOpen: bool
    var editing: Option<Product>
    var form: Form
    var madeWithText: string
    var mode: CategoryMode
    var newCategory: string
    var imagePreview: string
    var imageError: string

    constructor()
      ensures !isOpen && editing.None? && form == EmptyForm() && madeWithText == ""
      ensures mode == Existing && newCategory == "" && imagePreview == "" && imageError == ""
    {
      isOpen := false;
      editing := None;
      form := EmptyForm();
      madeWithText := "";
      mode := Existing;
      newCategory := "";
      imagePreview := "";
      imageError := "";
    }

    /** `startAdd`. */
    method StartAdd(categories: seq<string>)
      modifies this
      ensures isOpen && editing.None? && form == EmptyForm() && madeWithText == ""
      ensures imagePreview == "" && imageError == ""
      ensures mode == AddMode(categories) && newCategory == ""
    {
      editing := None;
      form := EmptyForm();
      madeWithText := "";
      imagePreview := "";
      imageError := "";
      mode := AddMode(categories);
      newCategory := "";
      isOpen := true;
    }

    /** `startEdit`. */
    method StartEdit(categories: seq<string>, p: Product)
      modifies this
      ensures isOpen && editing == Some(p) && form == EditForm(p)
      ensures madeWithText == Join(p.madeWith, ", ")
      ensures imagePreview == p.imageUrl && imageError == ""
      ensures (mode, newCategory) == EditMode(categories, p)
    {
      var f := EditForm(p);
      var text := Join(p.madeWith, ", ");
      var m := EditMode(categories, p);
      editing, form, madeWithText := Some(p), f, text;
      imagePreview, imageError := p.imageUrl, "";
      mode, newCategory, isOpen := m.0, m.1, true;
    }

    /** `onPickImage` up to the file read: the error it leaves, and whether
        the file goes on to be read. */
    method PickImage(file: Option<ImageFile>) returns (read: bool)
      modifies this
      ensures read <==> CheckImage(file) == Accepted
      ensures imageError == ImageError(CheckImage(file))
      ensures isOpen == old(isOpen) && editing == old(editing) && form == old(form)
      ensures madeWithText == old(madeWithText) && mode == old(mode)
      ensures newCategory == old(newCategory) && imagePreview == old(imagePreview)
    {
      var c := CheckImage(file);
      imageError := ImageError(c);
      read := c == Accepted;
    }

    /** The reader's `onload`: the data URL becomes the preview and the image. */
    method ImageLoaded(dataUrl: string)
      modifies this
      ensures imagePreview == dataUrl && form == old(form).(imageUrl := dataUrl)
      ensures isOpen == old(isOpen) && editing == old(editing) && madeWithText == old(madeWithText)
      ensures mode == old(mode) && newCategory == old(newCategory) && imageError == old(imageError)
    {
      imagePreview := dataUrl;
      form := form.(imageUrl := dataUrl);
    }

    /** `removeImage`. */
    method RemoveImage()
      modifies this
      ensures imagePreview == "" && form == old(form).(imageUrl := "")
      ensures isOpen == old(isOpen) && editing == old(editing) && madeWithText == old(madeWithText)
      ensures mode == old(mode) && newCategory == old(newCategory) && imageError == old(imageError)
    {
      imagePreview := "";
      form := form.(imageUrl := "");
    }

    /** What `save` does to the page once the outcome `r` is known. */
    method ApplySave(r: SaveOutcome, callSucceeds: bool)
      modifies this
      ensures imageError == (if r.MissingImage? then MissingImageMsg else old(imageError))
      ensures isOpen == (if (r.Create? || r.Update?) && callSucceeds then false else old(isOpen))
      ensures editing == old(editing) && form == old(form) && madeWithText == old(madeWithText)
      ensures mode == old(mode) && newCategory == old(newCategory) && imagePreview == old(imagePreview)
    {
      var error := if r.MissingImage? then MissingImageMsg else imageError;
      var stillOpen := if (r.Create? || r.Update?) && callSucceeds then false else isOpen;
      imageError, isOpen := error, stillOpen;
    }

    /** `save`: the outcome, the image complaint, and the modal closing once
        the call (whose success is `callSucceeds`) has gone through. */
    method Save(callSucceeds: bool) returns (r: SaveOutcome)
      modifies this
      ensures r == SaveOutcomeOf(old(form), old(editing), old(mode), old(newCategory), old(madeWithText))
      ensures imageError == (if r.MissingImage? then MissingImageMsg else old(imageError))
      ensures isOpen == (if (r.Create? || r.Update?) && callSucceeds then false else old(isOpen))
      ensures editing == old(editing) && form == old(form) && madeWithText == old(madeWithText)
      ensures mode == old(mode) && newCategory == old(newCategory) && imagePreview == old(imagePreview)
    {
      r := SaveOutcomeOf(form, editing, mode, newCategory, madeWithText);
      ApplySave(r, callSucceeds);
    }

    /** `deleteCategory` after a confirmed, successful update: the products
        to move, and the form's category cleared when it was the deleted one. */
    method DeleteCategory(products: seq<Product>, catName: string) returns (targets: seq<Product>)
      modifies this
      ensures targets == DeleteCategoryTargets(products, catName)
      ensures form == (if catName != "" && old(form).category == catName
                       then old(form).(category := "") else old(form))
      ensures isOpen == old(isOpen) && editing == old(editing) && madeWithText == old(madeWithText)
      ensures mode == old(mode) && newCategory == old(newCategory)
      ensures imagePreview == old(imagePreview) && imageError == old(imageError)
    {
      targets := DeleteCategoryTargets(products, catName);
      if catName != "" && form.category == catName {
        form := form.(category := "");
      }
    }
  }
}
