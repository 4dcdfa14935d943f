/** The product administration page of the storefront's client
    (frontend/src/pages/AdminProducts.jsx): the product list it holds and
    the flags around saving and deleting. Each awaited service call is
    replaced by its outcome, passed in; `confirmed` is the answer to the
    browser's confirmation dialog. */
module AdminProducts {
  import opened Common
  import opened ProductModel
  import opened ProductForm
  import Seqs

  /** `{ ...p, ...formData, price: Number(formData.price) }`: the entry
      takes every field of the form, the price as a number, and keeps its
      identity and creation time. */
  function Merge(p: Product, form: FormData): (r: Product)
    requires form.price.Amount?
    ensures r.id == p.id && r.createdAt == p.createdAt
    ensures r.name == form.name && r.description == form.description && r.imageUrl == form.imageUrl
    ensures r.price == form.price.cents && r.category == form.category && r.sizes == form.sizes
  {
    p.(name := form.name, description := form.description, price := form.price.cents,
       imageUrl := form.imageUrl, category := form.category, sizes := form.sizes)
  }

  /** The list after an update of entry `id`: same length, same order, and
      only the entries with that id change, each merged with the form. */
  function UpdateEntries(list: seq<Product>, id: string, form: FormData): (r: seq<Product>)
    requires form.price.Amount?
    ensures |r| == |list|
    ensures forall i :: 0 <= i < |list| && list[i].id != id ==> r[i] == list[i]
    ensures forall i :: 0 <= i < |list| && list[i].id == id ==> r[i] == Merge(list[i], form)
    ensures forall i :: 0 <= i < |list| ==> r[i].id == list[i].id
  {
    if list == [] then []
    else [if list[0].id == id then Merge(list[0], form) else list[0]] + UpdateEntries(list[1..], id, form)
  }

  /** The test of the delete filter. */
  function KeepsUnless(id: string): Product -> bool
  {
    (p: Product) => p.id != id
  }

  /** The list after entry `id` is deleted: no entry has that id, every
      other entry stays. */
  function DeleteEntries(list: seq<Product>, id: string): (r: seq<Product>)
    ensures forall i :: 0 <= i < |r| ==> r[i].id != id && r[i] in list
    ensures forall i :: 0 <= i < |list| && list[i].id != id ==> list[i] in r
  {
    Seqs.Filter(list, KeepsUnless(id))
  }

  /** Deleting keeps the surviving entries in their order. */
  lemma DeleteKeepsOrder(a: seq<Product>, b: seq<Product>, id: string)
    ensures DeleteEntries(a + b, id) == DeleteEntries(a, id) + DeleteEntries(b, id)
  {
    Seqs.FilterConcat(a, b, KeepsUnless(id));
  }

  /** Deleting an id that no entry has changes nothing. */
  lemma DeleteAbsent(list: seq<Product>, id: string)
    requires forall i :: 0 <= i < |list| ==> list[i].id != id
    ensures DeleteEntries(list, id) == list
  {
    Seqs.FilterKeepsAll(list, KeepsUnless(id));
  }

  /** Updating an id that no entry has changes nothing. */
  lemma {:induction false} UpdateAbsent(list: seq<Product>, id: string, form: FormData)
    requires form.price.Amount?
    requires forall i :: 0 <= i < |list| ==> list[i].id != id
    ensures UpdateEntries(list, id, form) == list
  {
    if list != [] {
      UpdateAbsent(list[1..], id, form);
    }
  }

  datatype LoadOutcome = Loaded(products: seq<Product>) | LoadFailed
  datatype SaveOutcome = Saved(product: Product) | SaveFailed(message: Option<string>)
  datatype DeleteOutcome = Deleted | DeleteFailed(message: Option<string>)

  const LOAD_ERROR := "Failed to load products"
  const SAVE_ERROR := "Failed to save product"
  const DELETE_ERROR := "Failed to delete product"

  class AdminProductsPage {
    var products: seq<Product>
    var loading: bool
    var error: string
    var showForm: bool
    var editingProduct: Option<Product>
    var formLoading: bool
    var deleteLoading: Option<string>

    /** The page's initial state: no products, loading, no error, the form
        closed. */
    constructor ()
      ensures products == [] && loading && error == ""
      ensures !showForm && editingProduct.None? && !formLoading && deleteLoading.None?
    {
      products := [];
      loading := true;
      error := "";
      showForm := false;
      editingProduct := None;
      formLoading := false;
      deleteLoading := None;
    }

    /** `loadProducts`: installs the loaded list, or records the error and
        keeps the list; loading ends either way. */
    method LoadProducts(outcome: LoadOutcome)
      modifies this
      ensures outcome.Loaded? ==> products == outcome.products && error == old(error)
      ensures outcome.LoadFailed? ==> products == old(products) && error == LOAD_ERROR
      ensures !loading
      ensures showForm == old(showForm) && editingProduct == old(editingProduct)
      ensures formLoading == old(formLoading) && deleteLoading == old(deleteLoading)
    {
      loading := true;
      match outcome {
        case Loaded(list) =>
          products := list;
        case LoadFailed =>
          error := LOAD_ERROR;
      }
      loading := false;
    }

    /** `handleEdit`: opens the form on `p`. */
    method HandleEdit(p: Product)
      modifies this
      ensures editingProduct == Some(p) && showForm
      ensures products == old(products) && error == old(error) && loading == old(loading)
      ensures formLoading == old(formLoading) && deleteLoading == old(deleteLoading)
    {
      editingProduct := Some(p);
      showForm := true;
    }

    /** `handleCancelForm`: closes the form and forgets the edited product. */
    method HandleCancelForm()
      modifies this
      ensures !showForm && editingProduct.None?
      ensures products == old(products) && error == old(error) && loading == old(loading)
      ensures formLoading == old(formLoading) && deleteLoading == old(deleteLoading)
    {
      showForm := false;
      editingProduct := None;
    }

    /** `handleFormSubmit` with a form the editor has validated. On success
        an edited product is updated in place (by id) and a new one is put
        at the front; the form closes and nothing is being edited. On
        failure the list and the form stay as they were and the error is
        recorded. The error of an earlier failure is not cleared by a
        success. */
    method HandleFormSubmit(form: FormData, outcome: SaveOutcome)
      requires FormOk(form)
      modifies this
      ensures outcome.Saved? && old(editingProduct).Some? ==>
                products == UpdateEntries(old(products), old(editingProduct).value.id, form)
      ensures outcome.Saved? && old(editingProduct).None? ==>
                products == [outcome.product] + old(products)
      ensures outcome.Saved? ==> !showForm && editingProduct.None? && error == old(error)
      ensures outcome.SaveFailed? ==>
                && products == old(products) && error == Reported(outcome.message, SAVE_ERROR)
                && showForm == old(showForm) && editingProduct == old(editingProduct)
      ensures !formLoading && loading == old(loading) && deleteLoading == old(deleteLoading)
    {
      formLoading := true;
      match outcome {
        case Saved(created) =>
          if editingProduct.Some? {
            products := UpdateEntries(products, editingProduct.value.id, form);
          } else {
            products := [created] + products;
          }
          showForm := false;
          editingProduct := None;
        case SaveFailed(message) =>
          error := Reported(message, SAVE_ERROR);
      }
      formLoading := false;
    }

    /** `handleDelete`. Without confirmation nothing changes. Otherwise a
        successful delete removes every entry with the id and keeps the
        rest in order, and a failed one keeps the list and records the
        error; either way no delete is pending afterwards. */
    method HandleDelete(id: string, confirmed: bool, outcome: DeleteOutcome)
      modifies this
      ensures !confirmed ==> unchanged(this)
      ensures confirmed && outcome.Deleted? ==> products == DeleteEntries(old(products), id) && error == old(error)
      ensures confirmed && outcome.DeleteFailed? ==>
                products == old(products) && error == Reported(outcome.message, DELETE_ERROR)
      ensures confirmed ==> deleteLoading.None?
      ensures showForm == old(showForm) && editingProduct == old(editingProduct)
      ensures formLoading == old(formLoading) && loading == old(loading)
    {
      if !confirmed {
        return;
      }
      deleteLoading := Some(id);
      match outcome {
        case Deleted =>
          products := DeleteEntries(products, id);
        case DeleteFailed(message) =>
          error := Reported(message, DELETE_ERROR);
      }
      deleteLoading := None;
    }
  }
}
