# Storefront core, modelled in Dafny

This project models the deterministic core of a small MERN clothing storefront and proves its properties. The core is:

- on the server:
  - placing an order: the total is a fold of price × quantity over the submitted lines;
  - listing the caller's orders, newest first;
  - the order and product schemas: enums, minimums and defaults;
  - the product listing: a filter built from optional query parameters, a match count, and one page sorted newest first.
- in the client:
  - the pagination bar's page window and its Previous and Next buttons;
  - the cart reducer and the notification reducer;
  - the product editor: validation, the size checkboxes, the submit gate, and filling the form from a product;
  - the admin product list: update, create and delete;
  - the image picker: file checks, the upload and its failure path, removing the image.

One module per source file:

- `order_model.dfy` and `order_controller.dfy`: `backend/models/Order.js` and `backend/controllers/order.controller.js`.
- `product_model.dfy` and `product_query.dfy`: `backend/models/Product.js` and `backend/controllers/product.controller.js`.
- `pagination.dfy`, `cart_context.dfy`, `notification_context.dfy`, `product_form.dfy`, `admin_products.dfy` and `image_upload.dfy`: the client files of the same names.
- `common.dfy` holds shared pieces:
  - `Option` and `Result`;
  - the size and category enums;
  - JavaScript's `trim`;
  - the `message || fallback` error reporting.
- `seqs.dfy` holds the sequence operations used in several places:
  - `Array.prototype.filter`;
  - descending sort by a numeric key.

Conventions:

- Prices are integer cents.
- Times and ids taken from the clock (`Date.now()`, `new Date()`) are parameters.
- The database is a sequence of documents passed in. The order in which the product listing sorts its matches is a parameter too: it is newest first, but entries created at the same time may come in any order.
- Each awaited service call is replaced by its outcome, passed in as a datatype.
- The React components whose state the handlers update step by step are classes. Their fields are the `useState` variables, and their handlers are methods with `modifies this`.
- Reducers, schemas and list transforms are functions on values.

Some descriptions of this system promise behaviour that the code does not have. The model follows the code:

- The product listing does not validate `category` or `size` against the enums. An unknown value is compared as given and matches nothing.
- The listing neither clamps `limit` nor offers a sort parameter. Its response has no `hasPrev`/`hasNext`, only `products`, `page`, `pages` and `total`.
- An order is built from the lines in the request body, not from a cart. An empty list of lines is accepted with total 0.
- The product schema does not require a non-empty `sizes` list.

## Model

| member | source | states |
|---|---|---|
| Common.TrimStart | backend/models/Product.js:7 | the result is a suffix of the input, starts with a non-white-space character (or is empty), and every removed character is white space |
| Common.TrimEnd | backend/models/Product.js:7 | the result is a prefix of the input, ends with a non-white-space character (or is empty), and every removed character is white space |
| Common.Trim | backend/models/Product.js:7 | `trim()` keeps the start-trimmed string up to its last non-white-space character: it is a prefix of that string, everything cut after it is white space, and the result neither starts nor ends with white space |
| Common.TrimEmptyIffBlank | frontend/src/components/ProductForm.jsx:65 | `trim()` gives the empty string exactly when every character is white space |
| Common.Reported | frontend/src/pages/AdminProducts.jsx:57 | the server's message is shown when it is present and non-empty, otherwise the fallback text |
| Seqs.Filter | frontend/src/context/NotificationContext.js:12 | the result is no longer than the input, holds only input elements that pass the test, and holds every input element that passes it |
| Seqs.FilterConcat | frontend/src/pages/AdminProducts.jsx:78 | filtering a concatenation is the concatenation of the filtered parts, so survivors keep their order |
| Seqs.FilterKeepsAll | frontend/src/pages/AdminProducts.jsx:78 | when every element passes, filtering returns the list unchanged |
| Seqs.FilterIdempotent | frontend/src/context/NotificationContext.js:12 | filtering twice with the same test equals filtering once |
| Seqs.FilterCongruent | backend/controllers/product.controller.js:52 | two tests that agree on every element select the same sub-list |
| Seqs.InsertDesc | backend/controllers/order.controller.js:40 | inserting into a list sorted newest first keeps it sorted and adds exactly that element |
| Seqs.SortDesc | backend/controllers/order.controller.js:40 | the result is sorted by the key, largest first, and is a permutation of the input |
| OrderModel.OrderDate | backend/models/Order.js:38-41 | the stored order date is the supplied one, or the creation time when none is supplied |
| OrderController.Fold | backend/controllers/order.controller.js:12-14 | the `reduce` from any start value ends at that value plus the reference sum of price × quantity |
| OrderController.TotalPrice | backend/controllers/order.controller.js:12-14 | the computed total, the `reduce` from 0, equals the sum of price × quantity, and an empty list of lines totals 0 |
| OrderController.SumAppend | backend/controllers/order.controller.js:12-14 | the reference sum of a list with one more line grows by that line's price × quantity |
| OrderController.TotalAppend | backend/controllers/order.controller.js:12-14 | appending one line raises the computed total by that line's price × quantity |
| OrderController.SumNonNegative | backend/models/Order.js:14-23 | lines that meet the schema have a non-negative sum |
| OrderController.TotalNonNegative | backend/models/Order.js:33-37 | lines that meet the schema give a total that meets the schema's minimum of 0 |
| OrderController.CreateOrder | backend/controllers/order.controller.js:6-31 | an order is created exactly when the body has lines and they all meet the schema. It is owned by the caller, stores exactly the submitted lines with their submitted prices, totals the sum of price × quantity, is dated now and meets the order schema. Otherwise the answer is the server error message |
| OrderController.MyOrders | backend/controllers/order.controller.js:38-40 | only the caller's orders, every one of them (as a multiset), sorted by order date newest first |
| ProductModel.NewProduct | backend/models/Product.js:3-35 | a document is accepted exactly when it has a non-blank name, a price ≥ 0, a category among Men, Women, Kids and only sizes among S, M, L, XL. An accepted entry is valid, has a trimmed name and keeps the given price and category. A supplied description, image and size list are stored as given; when left out, description and image default to "" and sizes to all four |
| ProductModel.TrimBlank | backend/models/Product.js:4-8 | a trimmed name is blank only when it is empty |
| ProductQuery.BuildFilter | backend/controllers/product.controller.js:19-44 | the filter is empty exactly when no parameter was given; an entry matches the filter exactly when it satisfies every given parameter (search on name or description, category equality, size membership, each price bound) |
| ProductQuery.NoCriteriaMatchesAll | backend/controllers/product.controller.js:19 | with no parameter given, every entry satisfies the query |
| ProductQuery.PageNumber | backend/controllers/product.controller.js:14 | `page` is the given value, or 1 when absent |
| ProductQuery.Limit | backend/controllers/product.controller.js:15 | `limit` is the given value, or 10 when absent |
| ProductQuery.Skip | backend/controllers/product.controller.js:47-49 | the number of entries before a page is (page − 1) × limit and is never negative |
| ProductQuery.CeilDiv | backend/controllers/product.controller.js:62 | `pages` is the fewest pages of `limit` entries that hold every match |
| ProductQuery.PageSlice | backend/controllers/product.controller.js:53-54 | a page has at most `limit` entries, is empty past the end, and holds the entries from `skip` on in order |
| ProductQuery.GetProducts | backend/controllers/product.controller.js:6-64 | for any order the database may sort the matches into (newest first, a rearrangement of the matches): `total` counts every match whatever the page; `pages` is ceil(total / limit); the page holds at most `limit` catalogue entries that satisfy the query, newest first, and is exactly the page-th run of `limit` matches in that order |
| ProductQuery.SelectedIsWanted | backend/controllers/product.controller.js:52-57 | the database's selection by the built filter is the list of entries that satisfy the query |
| ProductQuery.PageOfWanted | backend/controllers/product.controller.js:52-55 | in any order the database may use, every entry of a page is a catalogue entry that satisfies the query, and the page is sorted newest first |
| ProductQuery.PageEmptyIffPastLast | backend/controllers/product.controller.js:49-62 | a page is empty exactly when its number exceeds `pages` |
| ProductQuery.FirstPagesArePrefix | backend/controllers/product.controller.js:49-54 | cut from one fixed order, the first k pages one after another are the first k × limit entries |
| ProductQuery.PagesCoverAll | backend/controllers/product.controller.js:49-62 | cut from one fixed order, pages 1 to `pages` together hold every match exactly once, in order |
| ProductQuery.TiedPagesOverlap | backend/controllers/product.controller.js:52-55 | as written, two entries created at the same time may be ordered one way for the page-1 request and the other way for the page-2 request, so with one entry per page the client sees the first entry twice and the second never |
| ProductQuery.TieBrokenIsDatabaseOrder | backend/controllers/product.controller.js:55 | an order by `createdAt` and then id is one of the orders the sort by `createdAt` alone allows |
| ProductQuery.TieBrokenOrderUnique | backend/controllers/product.controller.js:55 | sorted by `createdAt` and then id, a set of entries has exactly one order |
| ProductQuery.TieBrokenPagesCoverAll | backend/controllers/product.controller.js:49-62 | with the id as tie-breaker, pages 1 to `pages`, each fetched by its own request, hold every match exactly once, in order |
| Pagination.PageWindow | frontend/src/components/Pagination.jsx:4-22 | the page list has at most five entries, all in [1, totalPages], consecutive, and contains the current page when it exists. It is exactly 1..totalPages when there are at most five pages; it has five entries when the current page is at least two before the last, and three on the last page |
| Pagination.GetPageNumbers | frontend/src/components/Pagination.jsx:4-22 | pushing pages one at a time in the two loops yields exactly the window above |
| Pagination.Render | frontend/src/components/Pagination.jsx:24-89 | nothing is rendered exactly when there is at most one page; Previous is disabled exactly on page 1 or while loading, Next exactly on the last page or while loading; they request the page before and after |
| Pagination.NavigationStaysInRange | frontend/src/components/Pagination.jsx:37-89 | from an existing page, every enabled button requests an existing page |
| CartContext.InitialState | frontend/src/context/CartContext.js:34-38 | an empty cart with item count and subtotal 0, not loading, no error, and its counters agree with its lines |
| CartContext.Reduce | frontend/src/context/CartContext.js:8-31 | SET_LOADING touches only `loading`; SET_ERROR sets the error, ends loading and keeps the cart; SET_CART installs the cart, ends loading, clears the error; CLEAR_CART installs an empty cart, ends loading, clears the error; any other action changes nothing |
| CartContext.ClearError | frontend/src/context/CartContext.js:126-128 | afterwards there is no error, nothing is loading and the cart is kept |
| CartContext.RunKeepsConsistent | frontend/src/context/CartContext.js:8-31 | any sequence of actions whose carts are consistent keeps the cart's item count and subtotal in agreement with its lines |
| CartContext.SuccessfulRequest | frontend/src/context/CartContext.js:10-20 | SET_LOADING then SET_CART leaves exactly the server's cart, not loading, no error, whatever came before |
| CartContext.UnauthorisedLoad | frontend/src/context/CartContext.js:50-62 | a cart load answered with 401 dispatches only SET_LOADING true, so the cart and error are kept and the state stays loading |
| CartContext.FailedRequest | frontend/src/context/CartContext.js:10-13 | SET_LOADING then SET_ERROR keeps the cart, ends loading and records the message |
| NotificationContext.Reduce | frontend/src/context/NotificationContext.js:7-18 | ADD appends exactly one entry, stamped with the dispatch time, after the unchanged earlier entries; REMOVE leaves no entry with the id, keeps every other entry and adds none; CLEAR_ALL empties the list; any other action changes nothing |
| NotificationContext.InitialState | frontend/src/context/NotificationContext.js:21 | the initial list of notifications is empty |
| NotificationContext.ClearAllRestoresInitial | frontend/src/context/NotificationContext.js:9-21 | CLEAR_ALL returns any list to the initial state, and the first ADD on the initial state yields exactly the one stamped entry |
| NotificationContext.RemoveKeepsOrder | frontend/src/context/NotificationContext.js:11-12 | removal from a list split in two is removal from each part, so survivors keep their order |
| NotificationContext.RemoveAbsent | frontend/src/context/NotificationContext.js:11-12 | removing an id no entry carries leaves the list unchanged |
| NotificationContext.RemoveTwice | frontend/src/context/NotificationContext.js:11-12 | removing the same id twice equals removing it once |
| NotificationContext.RemoveAfterAdd | frontend/src/context/NotificationContext.js:9-12 | removing the id a new entry was stamped with undoes the addition (together with earlier entries stamped at the same millisecond) |
| NotificationContext.RemoveOtherAfterAdd | frontend/src/context/NotificationContext.js:9-12 | removing a different id keeps the new entry, still last |
| ProductForm.KeyCount | frontend/src/components/ProductForm.jsx:82 | the errors object has no keys exactly when no field has an error |
| ProductForm.ValidateForm | frontend/src/components/ProductForm.jsx:62-83 | each field has an error exactly when its rule fails (blank name; price empty, not numeric or negative; empty category; no size), with that field's message, and the form is valid exactly when no error was recorded |
| ProductForm.NameMissing | frontend/src/components/ProductForm.jsx:65 | the name check fires exactly on a blank name |
| ProductForm.HandleSubmit | frontend/src/components/ProductForm.jsx:85-91 | `onSubmit` receives the unchanged form exactly when it validates; the errors set are `validateForm`'s: each field's message exactly when that field's rule fails, and at least one on failure |
| ProductForm.ToggleSize | frontend/src/components/ProductForm.jsx:49-51 | the clicked size's membership flips; every other size is kept and none is added; a present size is removed as by `filter`, so the rest keep their order; an absent size is appended at the end |
| ProductForm.HandleSizeChange | frontend/src/components/ProductForm.jsx:46-53 | no field but `sizes` changes, and the clicked size's membership flips |
| ProductForm.ToggleAbsentTwice | frontend/src/components/ProductForm.jsx:49-51 | ticking an unticked size and unticking it again restores the list |
| ProductForm.NewFormNeedsNameAndPrice | frontend/src/components/ProductForm.jsx:5-12 | a new form starts with category Men and all four sizes; it does not validate as it is, and it does once a non-blank name and a non-negative price are filled in |
| ProductForm.PopulateAsWritten | frontend/src/components/ProductForm.jsx:17-28 | a non-zero price fills the price field, a price of 0 leaves it empty, and apart from the price the form is the corrected one |
| ProductForm.ZeroPriceEditRejected | frontend/src/components/ProductForm.jsx:22-71 | as written, a valid stored product priced 0 opens in a form that fails validation |
| ProductForm.Populate | frontend/src/components/ProductForm.jsx:17-28 | the corrected population (the fix for line 22): the form copies name, description, image and sizes from the product, takes its category or Men when that is empty, and fills in the price as text, so a price of 0 becomes the text "0" |
| ProductForm.StoredProductFormValid | frontend/src/components/ProductForm.jsx:17-83 | every valid stored product with at least one size opens in a form that validates, so it can be saved unchanged |
| AdminProducts.Merge | frontend/src/pages/AdminProducts.jsx:44 | the merged entry takes every field of the form, the price as a number, and keeps its id and creation time |
| AdminProducts.UpdateEntries | frontend/src/pages/AdminProducts.jsx:42-46 | the list keeps its length, order and ids; entries with the edited id are merged with the form and all others are unchanged |
| AdminProducts.DeleteEntries | frontend/src/pages/AdminProducts.jsx:78 | no entry has the deleted id, every other entry stays, and nothing is added |
| AdminProducts.DeleteKeepsOrder | frontend/src/pages/AdminProducts.jsx:78 | deletion from a list split in two deletes from each part, so the survivors keep their order |
| AdminProducts.DeleteAbsent | frontend/src/pages/AdminProducts.jsx:78 | deleting an id no entry has changes nothing |
| AdminProducts.UpdateAbsent | frontend/src/pages/AdminProducts.jsx:42-46 | updating an id no entry has changes nothing |
| AdminProducts.AdminProductsPage.constructor | frontend/src/pages/AdminProducts.jsx:8-14 | no products, loading, no error, the form closed, nothing being edited or deleted |
| AdminProducts.AdminProductsPage.LoadProducts | frontend/src/pages/AdminProducts.jsx:17-28 | the loaded list is installed, or the list is kept and the load error recorded; loading ends either way and nothing else changes |
| AdminProducts.AdminProductsPage.HandleEdit | frontend/src/pages/AdminProducts.jsx:64-67 | the form opens on the product; nothing else changes |
| AdminProducts.AdminProductsPage.HandleCancelForm | frontend/src/pages/AdminProducts.jsx:88-91 | the form closes and nothing is being edited; nothing else changes |
| AdminProducts.AdminProductsPage.HandleFormSubmit | frontend/src/pages/AdminProducts.jsx:35-61 | on success an edited product is updated in place by id, a new one goes to the front, the form closes and nothing is being edited; on failure the list and form are kept and the error is recorded; saving ends either way |
| AdminProducts.AdminProductsPage.HandleDelete | frontend/src/pages/AdminProducts.jsx:70-85 | without confirmation nothing changes; a successful delete removes the id and keeps the rest in order; a failed one keeps the list and records the error; no delete is pending afterwards |
| ImageUpload.CheckFile | frontend/src/components/ImageUpload.jsx:10-24 | no file gives no verdict; a file is accepted exactly when its type starts with "image/" and it has at most 5 MiB; the type is checked first |
| ImageUpload.SizeLimitInclusive | frontend/src/components/ImageUpload.jsx:21-24 | an image of exactly 5 × 1024 × 1024 bytes is accepted, one byte more is rejected |
| ImageUpload.ImageUploader.constructor | frontend/src/components/ImageUpload.jsx:5-7 | the preview starts as the current image, no error, not uploading |
| ImageUpload.ImageUploader.HandleUpload | frontend/src/components/ImageUpload.jsx:39-57 | the file is sent; on success the preview shows the uploaded URL and the parent is told it; on failure the preview is cleared and the error recorded; uploading ends either way |
| ImageUpload.ImageUploader.HandleFileSelect | frontend/src/components/ImageUpload.jsx:10-37 | no file changes nothing; a rejected file only records its error and is not sent; an accepted file clears the error and is uploaded, and the parent is told the new URL exactly when the upload succeeds |
| ImageUpload.ImageUploader.HandleRemoveImage | frontend/src/components/ImageUpload.jsx:59-63 | the preview is cleared and the parent is told the empty URL; nothing else changes |

## Left out

- Regular-expression search (backend/controllers/product.controller.js:22-27) is the parameter `rx` of type `TextMatcher`. Case-insensitive regex matching is not modelled. A `search` that is not a valid regular expression makes the query fail, and the handler then answers 500 (backend/controllers/product.controller.js:65-68); that error path is not modelled.
- ProductQuery.GetProducts: `page` and `limit` are required to be at least 1. `parseInt` on junk text, page 0 and limit 0 are not modelled.
- `priceMin`/`priceMax` are taken as already parsed to cents. `Number` on non-numeric text is not modelled.
- Prices are JavaScript floating-point numbers in the code. The model uses integer cents and leaves out `toFixed` display rounding.
- `getProductById` is a single database lookup and is not modelled.
- ProductQuery.FirstPagesArePrefix: holds for pages cut from one fixed order of the matches. Separate requests may order entries with equal `createdAt` differently (see Findings), so pages from separate requests need not hold each match once.
- ProductQuery.PagesCoverAll: the same restriction; only ProductQuery.TieBrokenPagesCoverAll speaks of pages from separate requests.
- AdminProducts.AdminProductsPage.LoadProducts: `Loaded(products)` is taken to be the product list. As written, `getAdminProducts` (frontend/src/api/adminService.js:36-43) already returns the response body, and the page then reads `.data` of it (frontend/src/pages/AdminProducts.jsx:21). Against this server's listing body `{ products, page, pages, total }`, that is undefined, and the later `products.length` (frontend/src/pages/AdminProducts.jsx:192) throws. This client/server mismatch is not modelled.
- OrderController.CreateOrder: an order line always carries a numeric `price` and `quantity`. A line that lacks either, or holds a non-number, makes the `reduce` give NaN and `Order.create` fail with the 500 answer (backend/models/Order.js:14-23); that error path is not modelled, and "meets the schema" covers only the product reference and the minimums.
- `populate('items.product', 'name imageUrl')` in `getMyOrders` is a join with the catalogue and is not modelled. Orders are returned as stored.
- The schemas' `timestamps` (`createdAt`, `updatedAt`) are not maintained. A product's `createdAt` is a field set when it is created; the order schema's timestamps are left out.
- Email after an order is a TODO in the code, and the mailer is not part of this model.
- The cart controller's handlers are stubs and the cart schema is unused, so neither is modelled. The cart context's async request functions (`loadCart`, `addItem`, ...) are network glue. Their dispatch sequences appear as `SuccessfulRequest`, `FailedRequest` and, for `loadCart`'s 401 branch, `UnauthorisedLoad`. The requests themselves and the other error branches are not modelled.
- The notification context's `setTimeout` auto-removal is a timer, and it removes `Date.now()` at fire time rather than the id it added. It is not modelled, and no claim is made that auto-removal works.
- ImageUpload.ImageUploader.HandleFileSelect: the `FileReader` preview is browser I/O. It may fire before the upload answers or after it, and in the latter case it replaces the final preview with the local data URL, even after a failed upload. The model does not set the local preview at all.
- ImageUpload.ImageUploader.HandleRemoveImage: resetting the file input element is DOM state and is not modelled.
- `handleClick` (opening the file dialog), `handleChange` and `handleImageUpload` of the product editor are plain field assignments driven by the DOM, and are not modelled.
- AdminProducts.AdminProductsPage.HandleFormSubmit requires a form that passes `validateForm`, because the editor calls `onSubmit` only then (see ProductForm.HandleSubmit). The model therefore does not say what `Number` does to an invalid price.
- An explicit `null` for a defaulted product field (`description`, `imageUrl`, `sizes`) is stored as null, since Mongoose applies a default only to an undefined field. The model's `None` is a field left out; null values are not modelled.
- ProductForm.PriceText abstracts the price text into empty, non-numeric and a number of cents. `isNaN` and `Number` on arbitrary strings are not modelled.
- Routing, authentication, the admin middleware, uploads to disk, seeds and scripts, and the presentational components are not part of this model.

## Findings

| source | as written | input that shows it | evidently intended | confidence | as-written member | corrected member |
|---|---|---|---|---|---|---|
| frontend/src/components/ProductForm.jsx:22 | `price: product.price \|\| ''` turns a price of 0 into an empty field, and validation (line 69) then rejects the form with "Valid price is required" | editing a stored product whose price is 0, which the schema allows (backend/models/Product.js:16), and saving it unchanged | the stored price, 0 included, is filled in as text (`product.price != null ? String(product.price) : ''`; `?? ''` would keep the falsy number 0), so every valid stored product with at least one size can be saved unchanged | not executed | ProductForm.ZeroPriceEditRejected | ProductForm.StoredProductFormValid |
| backend/controllers/product.controller.js:55 | pages are cut after `sort({ createdAt: -1 })`, which leaves entries created at the same time in no fixed order, and that order may change between requests | two products with the same `createdAt`, one entry per page: page 1 may return the first and page 2 the first again | a unique tie-breaker, `sort({ createdAt: -1, _id: -1 })`, so that pages from separate requests hold every match exactly once | not executed | ProductQuery.TiedPagesOverlap | ProductQuery.TieBrokenPagesCoverAll |
