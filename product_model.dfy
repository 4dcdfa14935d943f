/** The product schema of the storefront's server (backend/models/Product.js):
    a catalogue entry as a value, the rules the schema enforces, and the
    defaults it fills in. Prices are integer cents; `createdAt` is the
    creation time in milliseconds. */
module ProductModel {
  import opened Common

  datatype Product = Product(
    id: string,
    name: string,
    description: string,
    price: int,
    imageUrl: string,
    category: string,
    sizes: seq<string>,
    createdAt: int)

  /** A stored entry: a non-blank name, a price of at least 0, a category
      among Men, Women, Kids and every size among S, M, L, XL. The schema
      does not require `sizes` to be non-empty. */
  predicate ValidProduct(p: Product)
  {
    && !Blank(p.name)
    && p.price >= 0
    && IsCategory(p.category)
    && forall i :: 0 <= i < |p.sizes| ==> IsSize(p.sizes[i])
  }

  /** The fields of a document handed to the schema; `None` is a field
      left out. */
  datatype ProductInput = ProductInput(
    name: Option<string>,
    description: Option<string>,
    price: Option<int>,
    imageUrl: Option<string>,
    category: Option<string>,
    sizes: Option<seq<string>>)

  /** A required string field is missing when absent or empty. */
  predicate Present(s: Option<string>)
  {
    s.Some? && s.value != ""
  }

  /** Applies the schema to `input` for a new entry with identity `id`
      created at `now`: the name is trimmed and required, the price is
      required and at least 0, the category is required and an enum value,
      every size is an enum value; description and image default to "" and
      sizes to all four labels. Any violation rejects the document. */
  function NewProduct(input: ProductInput, id: string, now: int): (r: Option<Product>)
    ensures r.Some? <==>
      && input.name.Some? && !Blank(input.name.value)
      && input.price.Some? && input.price.value >= 0
      && Present(input.category) && IsCategory(input.category.value)
      && (input.sizes.Some? ==> forall i :: 0 <= i < |input.sizes.value| ==> IsSize(input.sizes.value[i]))
    ensures r.Some? ==> ValidProduct(r.value) && r.value.id == id && r.value.createdAt == now
    ensures r.Some? ==> r.value.name == Trim(input.name.value) && r.value.price == input.price.value
    ensures r.Some? ==> r.value.category == input.category.value
    ensures r.Some? && input.description.Some? ==> r.value.description == input.description.value
    ensures r.Some? && input.description.None? ==> r.value.description == ""
    ensures r.Some? && input.imageUrl.Some? ==> r.value.imageUrl == input.imageUrl.value
    ensures r.Some? && input.imageUrl.None? ==> r.value.imageUrl == ""
    ensures r.Some? && input.sizes.None? ==> r.value.sizes == SIZES
    ensures r.Some? && input.sizes.Some? ==> r.value.sizes == input.sizes.value
  {
    var raw := if input.name.Some? then input.name.value else "";
    var name := Trim(raw);
    var sizes := if input.sizes.Some? then input.sizes.value else SIZES;
    TrimEmptyIffBlank(raw);
    TrimBlank(raw);
    if input.name.Some? && name != ""
       && input.price.Some? && input.price.value >= 0
       && Present(input.category) && IsCategory(input.category.value)
       && (forall i :: 0 <= i < |sizes| ==> IsSize(sizes[i]))
    then
      Some(Product(
        id, name,
        if input.description.Some? then input.description.value else "",
        input.price.value,
        if input.imageUrl.Some? then input.imageUrl.value else "",
        input.category.value, sizes, now))
    else None
  }

  /** A trimmed string is blank only when it is empty. */
  lemma TrimBlank(s: string)
    ensures Blank(Trim(s)) <==> Trim(s) == ""
  {
    var t := Trim(s);
    if t != "" {
      assert !IsWhitespace(t[|t| - 1]);
    }
  }
}
