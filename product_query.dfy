/** The product listing handler of the storefront's server
    (backend/controllers/product.controller.js, `getProducts`): it builds a
    database filter from the optional query parameters, counts the matching
    catalogue entries and returns one page of them, newest first. The
    catalogue is a sequence passed in. */
module ProductQuery {
  import opened Common
  import opened ProductModel
  import Seqs

  /** The query parameters. A string parameter that is absent or empty is
      falsy in JavaScript and adds no clause; `priceMin` and `priceMax` are
      `None` when absent or empty and otherwise hold the parsed number;
      `page` and `limit` are `None` when absent. */
  datatype Query = Query(
    search: Option<string>,
    category: Option<string>,
    size: Option<string>,
    priceMin: Option<int>,
    priceMax: Option<int>,
    page: Option<int>,
    limit: Option<int>)

  /** Case-insensitive regular-expression search of a pattern in a text; it
      is a parameter of the model, not defined by it. */
  type TextMatcher = (string, string) -> bool

  /** The `price` clause of the filter: `$gte` and `$lte`, each optional. */
  datatype PriceRange = PriceRange(gte: Option<int>, lte: Option<int>)

  /** The filter document: each key is present or absent. */
  datatype FilterDoc = FilterDoc(
    search: Option<string>,
    category: Option<string>,
    sizes: Option<string>,
    price: Option<PriceRange>)

  const EMPTY_FILTER := FilterDoc(None, None, None, None)

  /** A string parameter that is truthy in JavaScript. */
  predicate Given(param: Option<string>)
  {
    param.Some? && param.value != ""
  }

  /** No parameter that would add a clause was given. */
  predicate NoCriteria(q: Query)
  {
    !Given(q.search) && !Given(q.category) && !Given(q.size) && q.priceMin.None? && q.priceMax.None?
  }

  /** How the database evaluates the filter on one entry: every key that is
      present must hold. `$or` over name and description for the search,
      equality for the category, membership in the `sizes` array for the
      size, and the inclusive bounds of the price clause. */
  predicate Matches(f: FilterDoc, p: Product, rx: TextMatcher)
  {
    && (f.search.Some? ==> rx(f.search.value, p.name) || rx(f.search.value, p.description))
    && (f.category.Some? ==> p.category == f.category.value)
    && (f.sizes.Some? ==> f.sizes.value in p.sizes)
    && (f.price.Some? ==>
          && (f.price.value.gte.Some? ==> p.price >= f.price.value.gte.value)
          && (f.price.value.lte.Some? ==> p.price <= f.price.value.lte.value))
  }

  /** What the parameters ask for, stated as one conjunction over the
      query: each given parameter is a condition on the entry, and the
      absent ones impose nothing. */
  predicate Satisfies(q: Query, p: Product, rx: TextMatcher)
  {
    && (Given(q.search) ==> rx(q.search.value, p.name) || rx(q.search.value, p.description))
    && (Given(q.category) ==> p.category == q.category.value)
    && (Given(q.size) ==> q.size.value in p.sizes)
    && (q.priceMin.Some? ==> p.price >= q.priceMin.value)
    && (q.priceMax.Some? ==> p.price <= q.priceMax.value)
  }

  /** Builds the filter one key at a time, as the handler does. The filter
      is empty exactly when no parameter was given, and an entry matches it
      exactly when it satisfies every given parameter. */
  method BuildFilter(q: Query) returns (f: FilterDoc)
    ensures f == EMPTY_FILTER <==> NoCriteria(q)
    ensures forall rx: TextMatcher, p: Product :: Matches(f, p, rx) <==> Satisfies(q, p, rx)
  {
    f := EMPTY_FILTER;
    if Given(q.search) {
      f := f.(search := q.search);
    }
    if Given(q.category) {
      f := f.(category := q.category);
    }
    if Given(q.size) {
      f := f.(sizes := q.size);
    }
    if q.priceMin.Some? || q.priceMax.Some? {
      var range := PriceRange(None, None);
      if q.priceMin.Some? {
        range := range.(gte := q.priceMin);
      }
      if q.priceMax.Some? {
        range := range.(lte := q.priceMax);
      }
      f := f.(price := Some(range));
    }
  }

  /** With no parameter given, every entry of the catalogue matches. */
  lemma NoCriteriaMatchesAll(q: Query, p: Product, rx: TextMatcher)
    requires NoCriteria(q)
    ensures Satisfies(q, p, rx)
  {
  }

  /** `page`, defaulting to 1. */
  function PageNumber(q: Query): (r: int)
    ensures q.page.None? ==> r == 1
    ensures q.page.Some? ==> r == q.page.value
  {
    if q.page.Some? then q.page.value else 1
  }

  /** `limit`, defaulting to 10. */
  function Limit(q: Query): (r: int)
    ensures q.limit.None? ==> r == 10
    ensures q.limit.Some? ==> r == q.limit.value
  {
    if q.limit.Some? then q.limit.value else 10
  }

  /** The number of entries skipped before page `page`. */
  function Skip(page: int, limit: int): (r: nat)
    requires page >= 1 && limit >= 1
    ensures r == (page - 1) * limit
  {
    (page - 1) * limit
  }

  /** `Math.ceil(n / d)`: the fewest pages of `d` entries that hold `n`
      entries. */
  function CeilDiv(n: nat, d: int): (r: nat)
    requires d >= 1
    ensures r * d >= n
    ensures r == 0 || (r - 1) * d < n
  {
    (n + d - 1) / d
  }

  /** What the database's `skip(skip).limit(limit)` returns from `s`. */
  function PageSlice<T>(s: seq<T>, skip: nat, limit: nat): (r: seq<T>)
    ensures |r| <= limit
    ensures skip >= |s| ==> r == []
    ensures skip < |s| ==> |r| == if skip + limit <= |s| then limit else |s| - skip
    ensures forall i :: 0 <= i < |r| ==> skip + i < |s| && r[i] == s[skip + i]
  {
    if skip >= |s| then []
    else if skip + limit <= |s| then s[skip..skip + limit]
    else s[skip..]
  }

  /** The sort key `{ createdAt: -1 }`. */
  function ByCreatedAt(p: Product): int
  {
    p.createdAt
  }

  /** The entries of `catalog` that `f` selects, in catalogue order. */
  function Selected(catalog: seq<Product>, f: FilterDoc, rx: TextMatcher): seq<Product>
  {
    Seqs.Filter(catalog, (p: Product) => Matches(f, p, rx))
  }

  /** The entries of `catalog` that satisfy `q`, in catalogue order. */
  function Wanted(catalog: seq<Product>, q: Query, rx: TextMatcher): seq<Product>
  {
    Seqs.Filter(catalog, (p: Product) => Satisfies(q, p, rx))
  }

  datatype Response = Response(products: seq<Product>, page: int, pages: nat, total: nat)

  /** An order the database may return the matches of a query in: newest
      first, and a rearrangement of the matches. Entries with the same
      `createdAt` may come in any order, and that order may differ from one
      request to the next. */
  predicate DatabaseOrder(ordered: seq<Product>, catalog: seq<Product>, q: Query, rx: TextMatcher)
  {
    Seqs.SortedDesc(ordered, ByCreatedAt) && multiset(ordered) == multiset(Wanted(catalog, q, rx))
  }

  /** `getProducts`; `ordered` is the order the database sorts the matches
      into for this request. `total` counts every entry that satisfies the
      query, whatever the page; `pages` is `ceil(total / limit)`; the page
      holds at most `limit` entries, all of them satisfying the query,
      newest first, and it is the page-th run of `limit` entries of the
      matches in that order. */
  method GetProducts(catalog: seq<Product>, q: Query, rx: TextMatcher, ordered: seq<Product>)
    returns (resp: Response)
    requires PageNumber(q) >= 1 && Limit(q) >= 1
    requires DatabaseOrder(ordered, catalog, q, rx)
    ensures resp.total == |Wanted(catalog, q, rx)| == |ordered|
    ensures resp.page == PageNumber(q)
    ensures resp.pages == CeilDiv(resp.total, Limit(q))
    ensures |resp.products| <= Limit(q)
    ensures forall i :: 0 <= i < |resp.products| ==>
              resp.products[i] in catalog && Satisfies(q, resp.products[i], rx)
    ensures Seqs.SortedDesc(resp.products, ByCreatedAt)
    ensures resp.products == PageSlice(ordered, Skip(PageNumber(q), Limit(q)), Limit(q))
  {
    var filter := BuildFilter(q);
    var pageNum := PageNumber(q);
    var limitNum := Limit(q);
    var skip := Skip(pageNum, limitNum);
    var matches := Selected(catalog, filter, rx);
    SelectedIsWanted(catalog, q, filter, rx);
    assert |ordered| == |matches| by {
      assert |multiset(ordered)| == |multiset(matches)|;
    }
    var products := PageSlice(ordered, skip, limitNum);
    PageOfWanted(catalog, q, rx, ordered, skip, limitNum);
    resp := Response(products, pageNum, CeilDiv(|matches|, limitNum), |matches|);
  }

  /** A filter that agrees with the query on every entry selects what the
      query wants. */
  lemma SelectedIsWanted(catalog: seq<Product>, q: Query, f: FilterDoc, rx: TextMatcher)
    requires forall rx': TextMatcher, p: Product :: Matches(f, p, rx') <==> Satisfies(q, p, rx')
    ensures Selected(catalog, f, rx) == Wanted(catalog, q, rx)
  {
    Seqs.FilterCongruent(catalog, (p: Product) => Matches(f, p, rx), (p: Product) => Satisfies(q, p, rx));
  }

  /** Every entry of a page of the matches, in any order the database may
      use, is a catalogue entry that satisfies the query, and the page is
      ordered newest first. */
  lemma PageOfWanted(catalog: seq<Product>, q: Query, rx: TextMatcher, ordered: seq<Product>, skip: nat, limit: nat)
    requires DatabaseOrder(ordered, catalog, q, rx)
    ensures var page := PageSlice(ordered, skip, limit);
      && Seqs.SortedDesc(page, ByCreatedAt)
      && forall i :: 0 <= i < |page| ==> page[i] in catalog && Satisfies(q, page[i], rx)
  {
    var matches := Wanted(catalog, q, rx);
    var page := PageSlice(ordered, skip, limit);
    forall i | 0 <= i < |page|
      ensures page[i] in catalog && Satisfies(q, page[i], rx)
    {
      assert page[i] == ordered[skip + i];
      assert ordered[skip + i] in multiset(ordered);
      assert page[i] in multiset(matches);
      var j :| 0 <= j < |matches| && matches[j] == page[i];
    }
    forall i, j | 0 <= i < j < |page|
      ensures ByCreatedAt(page[i]) >= ByCreatedAt(page[j])
    {
      assert page[i] == ordered[skip + i] && page[j] == ordered[skip + j];
    }
  }

  /** A page is empty exactly when its number is past `pages`. */
  lemma PageEmptyIffPastLast<T>(s: seq<T>, page: int, limit: int)
    requires page >= 1 && limit >= 1
    ensures PageSlice(s, Skip(page, limit), limit) == [] <==> page > CeilDiv(|s|, limit)
  {
    var c := CeilDiv(|s|, limit);
    if page > c {
      MulMonotone(c, page - 1, limit);
    } else if c > 0 {
      MulMonotone(page - 1, c - 1, limit);
    }
  }

  lemma MulMonotone(a: int, b: int, d: int)
    requires 0 <= a <= b && d >= 1
    ensures a * d <= b * d
  {
  }

  /** Pages 1 to `k` of `s`, one after the other. */
  function FirstPages<T>(s: seq<T>, limit: int, k: nat): seq<T>
    requires limit >= 1
  {
    if k == 0 then [] else FirstPages(s, limit, k - 1) + PageSlice(s, Skip(k, limit), limit)
  }

  /** The first `k` pages are the first `k * limit` entries. */
  lemma {:induction false} FirstPagesArePrefix<T>(s: seq<T>, limit: int, k: nat)
    requires limit >= 1
    ensures FirstPages(s, limit, k) == s[..if k * limit <= |s| then k * limit else |s|]
  {
    if k > 0 {
      FirstPagesArePrefix(s, limit, k - 1);
      var skip := Skip(k, limit);
      assert skip + limit == k * limit;
      var before := if skip <= |s| then skip else |s|;
      var after := if k * limit <= |s| then k * limit else |s|;
      assert s[..after] == s[..before] + s[before..after];
    }
  }

  /** Pages 1 to `pages` hold every match exactly once, in order. */
  lemma PagesCoverAll<T>(s: seq<T>, limit: int)
    requires limit >= 1
    ensures FirstPages(s, limit, CeilDiv(|s|, limit)) == s
  {
    FirstPagesArePrefix(s, limit, CeilDiv(|s|, limit));
  }

  /** Pages fetched by separate requests, one after the other: page k + 1
      is cut from `orders[k]`, the order the database used for that
      request. */
  function PagesFrom(orders: seq<seq<Product>>, limit: int, k: nat): seq<Product>
    requires limit >= 1 && k <= |orders|
  {
    if k == 0 then [] else PagesFrom(orders, limit, k - 1) + PageSlice(orders[k - 1], Skip(k, limit), limit)
  }

  /** As written, the sort key `createdAt` leaves entries created at the same
      time in either order. With two such entries and one entry per page,
      the request for page 1 may see them one way and the request for page
      2 the other way, so the client is shown the first entry twice and the
      second never. */
  lemma TiedPagesOverlap(p: Product, p': Product, rx: TextMatcher)
    requires p.createdAt == p'.createdAt && p != p'
    ensures var q := Query(None, None, None, None, None, None, Some(1));
      && DatabaseOrder([p, p'], [p, p'], q, rx)
      && DatabaseOrder([p', p], [p, p'], q, rx)
      && PagesFrom([[p, p'], [p', p]], 1, CeilDiv(|[p, p']|, 1)) == [p, p]
      && p' !in PagesFrom([[p, p'], [p', p]], 1, CeilDiv(|[p, p']|, 1))
  {
    var q := Query(None, None, None, None, None, None, Some(1));
    NoCriteriaMatchesAll(q, p, rx);
    NoCriteriaMatchesAll(q, p', rx);
    assert Wanted([p, p'], q, rx) == [p, p'] by {
      Seqs.FilterKeepsAll([p, p'], (x: Product) => Satisfies(q, x, rx));
    }
    assert multiset([p', p]) == multiset([p, p']);
    var orders := [[p, p'], [p', p]];
    assert PagesFrom(orders, 1, 1) == [p];
    assert PagesFrom(orders, 1, 2) == [p] + [p];
  }

  /** Lexicographic order of ids. */
  predicate IdBefore(a: string, b: string)
  {
    if a == [] then b != []
    else b != [] && (a[0] < b[0] || (a[0] == b[0] && IdBefore(a[1..], b[1..])))
  }

  lemma {:induction false} IdBeforeAsymmetric(a: string, b: string)
    ensures !(IdBefore(a, b) && IdBefore(b, a))
  {
    if a != [] && b != [] && a[0] == b[0] {
      IdBeforeAsymmetric(a[1..], b[1..]);
    }
  }

  /** The sort `{ createdAt: -1, _id: -1 }`: newer first, and among entries
      created at the same time the larger id first. */
  predicate NewerFirst(p: Product, p': Product)
  {
    p.createdAt > p'.createdAt || (p.createdAt == p'.createdAt && IdBefore(p'.id, p.id))
  }

  /** Every entry comes strictly before every later one. */
  predicate StrictlyNewestFirst(s: seq<Product>)
  {
    forall i, j :: 0 <= i < j < |s| ==> NewerFirst(s[i], s[j])
  }

  /** An order by `createdAt` and then `_id` is one the database may use for
      the sort by `createdAt` alone. */
  lemma TieBrokenIsDatabaseOrder(s: seq<Product>)
    requires StrictlyNewestFirst(s)
    ensures Seqs.SortedDesc(s, ByCreatedAt)
  {
    forall i, j | 0 <= i < j < |s|
      ensures ByCreatedAt(s[i]) >= ByCreatedAt(s[j])
    {
      assert NewerFirst(s[i], s[j]);
    }
  }

  /** Two strictly ordered arrangements of the same entries start with the
      same entry. */
  lemma HeadsAgree(a: seq<Product>, b: seq<Product>)
    requires StrictlyNewestFirst(a) && StrictlyNewestFirst(b)
    requires multiset(a) == multiset(b) && a != []
    ensures b != [] && a[0] == b[0]
  {
    assert a[0] in multiset(b);
    var k :| 0 <= k < |b| && b[k] == a[0];
    assert b[0] in multiset(a);
    var j :| 0 <= j < |a| && a[j] == b[0];
    IdBeforeAsymmetric(a[0].id, b[0].id);
  }

  lemma TailMultiset(s: seq<Product>)
    requires s != []
    ensures multiset(s[1..]) == multiset(s) - multiset{s[0]}
  {
    assert s == [s[0]] + s[1..];
  }

  /** With the id as a tie-breaker there is only one order of a given set
      of entries. */
  lemma {:induction false} TieBrokenOrderUnique(a: seq<Product>, b: seq<Product>)
    requires StrictlyNewestFirst(a) && StrictlyNewestFirst(b)
    requires multiset(a) == multiset(b)
    ensures a == b
  {
    if a == [] {
      assert |b| == |multiset(b)| == 0;
    } else {
      HeadsAgree(a, b);
      TailMultiset(a);
      TailMultiset(b);
      TieBrokenOrderUnique(a[1..], b[1..]);
      assert a == [a[0]] + a[1..] && b == [b[0]] + b[1..];
    }
  }

  lemma {:induction false} PagesFromOneOrder(s: seq<Product>, orders: seq<seq<Product>>, limit: int, k: nat)
    requires limit >= 1 && k <= |orders|
    requires forall i :: 0 <= i < |orders| ==> orders[i] == s
    ensures PagesFrom(orders, limit, k) == FirstPages(s, limit, k)
  {
    if k > 0 {
      PagesFromOneOrder(s, orders, limit, k - 1);
    }
  }

  /** With the sort `{ createdAt: -1, _id: -1 }`, pages 1 to `pages`, each
      fetched by its own request, hold every match exactly once, in order. */
  lemma TieBrokenPagesCoverAll(s: seq<Product>, orders: seq<seq<Product>>, limit: int)
    requires limit >= 1 && StrictlyNewestFirst(s)
    requires |orders| == CeilDiv(|s|, limit)
    requires forall k :: 0 <= k < |orders| ==>
               StrictlyNewestFirst(orders[k]) && multiset(orders[k]) == multiset(s)
    ensures PagesFrom(orders, limit, |orders|) == s
  {
    forall k | 0 <= k < |orders|
      ensures orders[k] == s
    {
      TieBrokenOrderUnique(orders[k], s);
    }
    PagesFromOneOrder(s, orders, limit, |orders|);
    PagesCoverAll(s, limit);
  }
}
