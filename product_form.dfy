/** The product editor of the storefront's client
    (frontend/src/components/ProductForm.jsx): its initial contents, how it
    is filled from a product being edited, the size checkboxes, the
    validation of the fields and the submit gate. */
module ProductForm {
  import opened Common
  import opened ProductModel
  import Seqs

  /** The price field as the validation reads it: `EmptyText` is the empty
      string (falsy), `NotNumeric` is text that `Number` turns into NaN, and
      `Amount` is text, or a non-zero number, that `Number` reads as that many
      cents. The number 0 is falsy, so `!formData.price` rejects it just as it
      rejects `EmptyText`: only the text "0" is `Amount(0)`. */
  datatype PriceText = EmptyText | NotNumeric(text: string) | Amount(cents: int)

  datatype FormData = FormData(
    name: string,
    description: string,
    price: PriceText,
    imageUrl: string,
    category: string,
    sizes: seq<string>)

  /** The `errors` object: one optional message per field; a field with a
      message is a key of the object. */
  datatype FormErrors = FormErrors(
    name: Option<string>,
    price: Option<string>,
    category: Option<string>,
    sizes: Option<string>)

  const NO_ERRORS := FormErrors(None, None, None, None)

  const NAME_ERROR := "Product name is required"
  const PRICE_ERROR := "Valid price is required"
  const CATEGORY_ERROR := "Category is required"
  const SIZES_ERROR := "At least one size must be selected"

  /** `Object.keys(errors).length`. */
  function KeyCount(errors: FormErrors): (n: nat)
    ensures n == 0 <==> errors == NO_ERRORS
  {
    (if errors.name.Some? then 1 else 0) + (if errors.price.Some? then 1 else 0)
    + (if errors.category.Some? then 1 else 0) + (if errors.sizes.Some? then 1 else 0)
  }

  /** The form of a new product: empty fields, category Men and all four
      sizes ticked. */
  const INITIAL_FORM := FormData("", "", EmptyText, "", "Men", SIZES)

  /** A price the validation accepts: numeric and not negative. */
  predicate PriceOk(price: PriceText)
  {
    price.Amount? && price.cents >= 0
  }

  /** A form the validation accepts. */
  predicate FormOk(form: FormData)
  {
    !Blank(form.name) && PriceOk(form.price) && |form.category| > 0 && |form.sizes| > 0
  }

  /** `validateForm`, recording an error for each failing field in turn. A
      field has an error exactly when its rule fails, each error carries its
      field's message, and the form is valid exactly when no error was
      recorded. */
  method ValidateForm(form: FormData) returns (errors: FormErrors, valid: bool)
    ensures errors.name.Some? <==> Blank(form.name)
    ensures errors.price.Some? <==> !PriceOk(form.price)
    ensures errors.category.Some? <==> |form.category| == 0
    ensures errors.sizes.Some? <==> |form.sizes| == 0
    ensures errors.name.Some? ==> errors.name.value == NAME_ERROR
    ensures errors.price.Some? ==> errors.price.value == PRICE_ERROR
    ensures errors.category.Some? ==> errors.category.value == CATEGORY_ERROR
    ensures errors.sizes.Some? ==> errors.sizes.value == SIZES_ERROR
    ensures valid <==> errors == NO_ERRORS
    ensures valid <==> FormOk(form)
  {
    errors := NO_ERRORS;
    if NameMissing(form.name) {
      errors := errors.(name := Some(NAME_ERROR));
    }
    if form.price.EmptyText? || form.price.NotNumeric? || form.price.cents < 0 {
      errors := errors.(price := Some(PRICE_ERROR));
    }
    if |form.category| == 0 {
      errors := errors.(category := Some(CATEGORY_ERROR));
    }
    if |form.sizes| == 0 {
      errors := errors.(sizes := Some(SIZES_ERROR));
    }
    valid := KeyCount(errors) == 0;
  }

  /** `!name.trim()`: the name is blank. */
  function NameMissing(name: string): (r: bool)
    ensures r <==> Blank(name)
  {
    TrimEmptyIffBlank(name);
    Trim(name) == ""
  }

  /** `handleSubmit`: `onSubmit` receives the form exactly when it is
      valid; the errors shown are those `validateForm` records. */
  method HandleSubmit(form: FormData) returns (submitted: Option<FormData>, errors: FormErrors)
    ensures submitted.Some? <==> FormOk(form)
    ensures submitted.Some? ==> submitted.value == form && errors == NO_ERRORS
    ensures submitted.None? ==> errors != NO_ERRORS
    ensures errors.name == (if Blank(form.name) then Some(NAME_ERROR) else None)
    ensures errors.price == (if PriceOk(form.price) then None else Some(PRICE_ERROR))
    ensures errors.category == (if |form.category| == 0 then Some(CATEGORY_ERROR) else None)
    ensures errors.sizes == (if |form.sizes| == 0 then Some(SIZES_ERROR) else None)
  {
    var valid;
    errors, valid := ValidateForm(form);
    submitted := if valid then Some(form) else None;
  }

  /** The new `sizes` after the checkbox of `size` is clicked. */
  function ToggleSize(sizes: seq<string>, size: string): (r: seq<string>)
    ensures size in r <==> size !in sizes
    ensures forall i :: 0 <= i < |sizes| && sizes[i] != size ==> sizes[i] in r
    ensures forall i :: 0 <= i < |r| && r[i] != size ==> r[i] in sizes
    ensures size in sizes ==> r == Seqs.Filter(sizes, (s: string) => s != size)
    ensures size !in sizes ==> r == sizes + [size]
  {
    if size in sizes then Seqs.Filter(sizes, (s: string) => s != size)
    else sizes + [size]
  }

  /** `handleSizeChange`: only the sizes change. */
  function HandleSizeChange(form: FormData, size: string): (r: FormData)
    ensures r.(sizes := form.sizes) == form
    ensures size in r.sizes <==> size !in form.sizes
  {
    form.(sizes := ToggleSize(form.sizes, size))
  }

  /** Ticking an unticked size and unticking it again restores the list. */
  lemma ToggleAbsentTwice(sizes: seq<string>, size: string)
    requires size !in sizes
    ensures ToggleSize(ToggleSize(sizes, size), size) == sizes
  {
    var keep := (s: string) => s != size;
    Seqs.FilterConcat(sizes, [size], keep);
    Seqs.FilterKeepsAll(sizes, keep);
    assert Seqs.Filter([size], keep) == [];
  }

  /** A new form is rejected until it has a non-blank name and a valid
      price; with those it is accepted. */
  lemma NewFormNeedsNameAndPrice(name: string, cents: int)
    requires !Blank(name) && cents >= 0
    ensures INITIAL_FORM.category == "Men" && INITIAL_FORM.sizes == SIZES
    ensures !FormOk(INITIAL_FORM)
    ensures FormOk(INITIAL_FORM.(name := name, price := Amount(cents)))
  {
  }

  /** The form filled from a product being edited, as written: each field is
      `product.field || default`, so a price of 0, being falsy, is shown as
      an empty field. */
  function PopulateAsWritten(p: Product): (f: FormData)
    ensures p.price != 0 ==> f.price == Amount(p.price)
    ensures p.price == 0 ==> f.price == EmptyText
    ensures f.(price := Amount(p.price)) == Populate(p)
  {
    FormData(p.name, p.description, if p.price != 0 then Amount(p.price) else EmptyText,
             p.imageUrl, if p.category != "" then p.category else "Men", p.sizes)
  }

  /** As written, a stored product priced 0, which the schema allows, opens
      in the editor with an empty price, so saving it unchanged is refused. */
  lemma ZeroPriceEditRejected(p: Product)
    requires ValidProduct(p) && p.price == 0
    ensures !FormOk(PopulateAsWritten(p))
  {
  }

  /** The corrected form filled from a product being edited: the price is
      put in the field as text whenever the product has one
      (`price: product.price != null ? String(product.price) : ''`), so a
      price of 0 becomes the text "0"; every other field as written.
      Keeping the number (`product.price ?? ''`) would not do, since the
      number 0 is falsy too. */
  function Populate(p: Product): (f: FormData)
    ensures f.name == p.name && f.description == p.description && f.imageUrl == p.imageUrl
    ensures f.price == Amount(p.price) && f.sizes == p.sizes
    ensures f.category == if p.category == "" then "Men" else p.category
  {
    FormData(p.name, p.description, Amount(p.price), p.imageUrl,
             if p.category != "" then p.category else "Men", p.sizes)
  }

  /** With the price filled in as text, every stored product that has at least
      one size opens in a form that validates, so it can be saved unchanged. */
  lemma StoredProductFormValid(p: Product)
    requires ValidProduct(p) && p.sizes != []
    ensures FormOk(Populate(p))
  {
  }
}
