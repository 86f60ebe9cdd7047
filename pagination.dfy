/**
 * The arithmetic of `updatePagination` and the bounds check of `goToPage`:
 * ten results per page, the bar shown only when there is more than one page.
 */
module Pagination {

  const PageSize: nat := 10

  /** `Math.ceil(total / 10)`, written on naturals. */
  function TotalPages(total: nat): (n: nat)
    ensures n * PageSize >= total
    ensures n * PageSize < total + PageSize
  {
    (total + PageSize - 1) / PageSize
  }

  /** The guard of `goToPage`: the page is neither below 1 nor beyond the last page. */
  predicate PageInRange(page: int, total: nat) {
    1 <= page <= TotalPages(total)
  }

  function Min(a: int, b: int): int {
    if a <= b then a else b
  }

  /** What the pagination bar shows: hidden, or the page line and the two button states. */
  datatype Pager =
    | Hidden
    | Shown(page: int, totalPages: nat, firstResult: int, lastResult: int, total: nat,
            prevDisabled: bool, nextDisabled: bool)

  /** `updatePagination` for the current page and result count. */
  function UpdatePagination(page: int, total: nat): (v: Pager)
    ensures v.Hidden? <==> TotalPages(total) <= 1
    ensures v.Shown? ==> v.page == page && v.total == total && v.totalPages == TotalPages(total)
  {
    if total <= PageSize then Hidden
    else
      var pages := TotalPages(total);
      Shown(page, pages, (page - 1) * PageSize + 1, Min(page * PageSize, total), total,
            page == 1, page == pages)
  }

  /** On any page in range, the "first-last of total" line names a window of at most ten
      results inside 1..total, and only the last page can hold fewer than ten. */
  lemma ResultWindow(page: int, total: nat)
    requires total > PageSize && PageInRange(page, total)
    ensures var v := UpdatePagination(page, total);
      && 1 <= v.firstResult <= v.lastResult <= total
      && v.lastResult - v.firstResult < PageSize
      && (v.lastResult - v.firstResult + 1 == PageSize || page == v.totalPages)
  {
  }

  /** Consecutive pages continue where the previous one stopped. */
  lemma ConsecutivePagesAdjoin(page: int, total: nat)
    requires total > PageSize && 1 <= page < TotalPages(total)
    ensures UpdatePagination(page + 1, total).firstResult == UpdatePagination(page, total).lastResult + 1
  {
  }

  /** Result number k is listed on exactly one page in range: page (k-1)/10 + 1. */
  lemma ResultOnExactlyOnePage(k: int, total: nat, page: int)
    requires total > PageSize && 1 <= k <= total && PageInRange(page, total)
    ensures PageInRange((k - 1) / PageSize + 1, total)
    ensures var v := UpdatePagination(page, total);
      v.firstResult <= k <= v.lastResult <==> page == (k - 1) / PageSize + 1
  {
  }

  /** Each button is enabled exactly when the `goToPage` call its click makes passes the guard;
      on a page strictly between the first and the last, both are enabled. */
  lemma ButtonsMatchGuard(page: int, total: nat)
    requires total > PageSize && PageInRange(page, total)
    ensures var v := UpdatePagination(page, total);
      && (v.prevDisabled <==> page == 1)
      && (v.nextDisabled <==> page == TotalPages(total))
      && (!v.prevDisabled <==> PageInRange(page - 1, total))
      && (!v.nextDisabled <==> PageInRange(page + 1, total))
      && (1 < page < v.totalPages ==> !v.prevDisabled && !v.nextDisabled)
  {
  }

  /** 23 results on page 1: "Page 1 of 3 (1-10 of 23)", previous disabled, next enabled. */
  lemma TwentyThreeResultsOnFirstPage()
    ensures UpdatePagination(1, 23) == Shown(1, 3, 1, 10, 23, true, false)
  {
  }
}
