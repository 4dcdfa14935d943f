/** The pagination bar of the storefront's client
    (frontend/src/components/Pagination.jsx): the window of page numbers
    around the current page, whether the bar is shown at all, and the
    Previous and Next buttons. */
module Pagination {
  import opened Common

  /** `maxVisiblePages`. */
  const MAX_VISIBLE := 5

  function Max(a: int, b: int): int { if a >= b then a else b }

  function Min(a: int, b: int): int { if a <= b then a else b }

  /** The pages `lo`, `lo + 1`, ..., `hi`; empty when `hi < lo`. */
  function Range(lo: int, hi: int): (r: seq<int>)
    ensures |r| == if hi >= lo then hi - lo + 1 else 0
    ensures forall i :: 0 <= i < |r| ==> r[i] == lo + i
  {
    if hi < lo then [] else seq(hi - lo + 1, i => lo + i)
  }

  /** The page numbers `getPageNumbers` lists: all pages when there are at
      most five, otherwise the run from `max(1, currentPage - 2)` to five
      pages later, cut at the last page. The list is strictly increasing in
      steps of one, lies within the pages that exist, has at most five
      entries, and shows the current page whenever that page exists. */
  function PageWindow(currentPage: int, totalPages: int): (r: seq<int>)
    ensures |r| <= MAX_VISIBLE
    ensures forall i :: 0 <= i < |r| ==> 1 <= r[i] <= totalPages
    ensures forall i :: 0 < i < |r| ==> r[i] == r[i - 1] + 1
    ensures 1 <= currentPage <= totalPages ==> currentPage in r
    ensures totalPages <= MAX_VISIBLE ==>
              |r| == Max(0, totalPages) && forall i :: 0 <= i < |r| ==> r[i] == i + 1
    ensures totalPages > MAX_VISIBLE && 1 <= currentPage <= totalPages - 2 ==> |r| == MAX_VISIBLE
    ensures totalPages > MAX_VISIBLE && currentPage == totalPages ==> |r| == 3
  {
    if totalPages <= MAX_VISIBLE then
      var r := Range(1, totalPages);
      assert 1 <= currentPage <= totalPages ==> r[currentPage - 1] == currentPage;
      r
    else
      var startPage := Max(1, currentPage - 2);
      var r := Range(startPage, Min(totalPages, startPage + MAX_VISIBLE - 1));
      assert 1 <= currentPage <= totalPages ==> r[currentPage - startPage] == currentPage;
      r
  }

  /** `getPageNumbers`, pushing one page at a time. */
  method GetPageNumbers(currentPage: int, totalPages: int) returns (pages: seq<int>)
    ensures pages == PageWindow(currentPage, totalPages)
  {
    pages := [];
    if totalPages <= MAX_VISIBLE {
      var i := 1;
      while i <= totalPages
        invariant 1 <= i <= Max(1, totalPages + 1)
        invariant pages == Range(1, i - 1)
      {
        pages := pages + [i];
        i := i + 1;
      }
    } else {
      var startPage := Max(1, currentPage - 2);
      var endPage := Min(totalPages, startPage + MAX_VISIBLE - 1);
      var i := startPage;
      while i <= endPage
        invariant startPage <= i <= Max(startPage, endPage + 1)
        invariant pages == Range(startPage, i - 1)
      {
        pages := pages + [i];
        i := i + 1;
      }
    }
  }

  /** What the bar renders: the page buttons, whether Previous and Next are
      disabled, and the page each of them requests. */
  datatype Controls = Controls(
    pageNumbers: seq<int>,
    previousDisabled: bool,
    previousTarget: int,
    nextDisabled: bool,
    nextTarget: int)

  /** The component: nothing when there is at most one page. Previous is
      disabled on the first page or while loading and requests the page
      before; Next is disabled on the last page or while loading and
      requests the page after. */
  function Render(currentPage: int, totalPages: int, loading: bool): (r: Option<Controls>)
    ensures r.None? <==> totalPages <= 1
    ensures r.Some? ==> r.value.pageNumbers == PageWindow(currentPage, totalPages)
    ensures r.Some? ==> (r.value.previousDisabled <==> currentPage == 1 || loading)
    ensures r.Some? ==> (r.value.nextDisabled <==> currentPage == totalPages || loading)
    ensures r.Some? ==> r.value.previousTarget == currentPage - 1 && r.value.nextTarget == currentPage + 1
  {
    if totalPages <= 1 then None
    else Some(Controls(
      PageWindow(currentPage, totalPages),
      currentPage == 1 || loading, currentPage - 1,
      currentPage == totalPages || loading, currentPage + 1))
  }

  /** From a page that exists, every enabled button of the bar requests a
      page that exists. */
  lemma NavigationStaysInRange(currentPage: int, totalPages: int, loading: bool)
    requires 1 <= currentPage <= totalPages && totalPages > 1
    ensures var c := Render(currentPage, totalPages, loading).value;
      && (!c.previousDisabled ==> 1 <= c.previousTarget <= totalPages)
      && (!c.nextDisabled ==> 1 <= c.nextTarget <= totalPages)
      && (forall i :: 0 <= i < |c.pageNumbers| ==> 1 <= c.pageNumbers[i] <= totalPages)
  {
  }
}
