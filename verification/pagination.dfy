/** The pagination footer (`app/components/Pagination.tsx`, repeated inline
    on the dashboard): the "Showing X to Y of Z" numbers, the page
    buttons, and the pages the buttons ask for. */
module Pagination {
  import opened Common
  import Lists

  /** The normalised pagination record the footer receives. */
  datatype PaginationInfo = PaginationInfo(
    currentPage: int, perPage: int, total: int, totalPages: int,
    hasNext: bool, hasPrev: bool)

  function Min(a: int, b: int): int { if a <= b then a else b }
  function Max(a: int, b: int): int { if a >= b then a else b }

  /** "Showing X": the 1-based position of the first row of the page. */
  function FirstShown(p: PaginationInfo): (r: int)
    ensures r + p.perPage - 1 == p.currentPage * p.perPage
    ensures p.currentPage >= 1 && p.perPage >= 1 ==> r >= 1
  {
    (p.currentPage - 1) * p.perPage + 1
  }

  /** "to Y": `Math.min(currentPage * perPage, total || 0)`; it never
      passes the total, and it is the end of the page unless the total
      ends earlier. */
  function LastShown(p: PaginationInfo): (r: int)
    ensures r <= p.total && r <= p.currentPage * p.perPage
    ensures r == p.total || r == p.currentPage * p.perPage
  {
    // `total || 0` is `total` for every number except NaN, which the
    // normalised record never holds.
    Min(p.currentPage * p.perPage, p.total)
  }

  /** On a page that starts inside the results, the range shown is
      non-empty and holds at most `perPage` rows. */
  lemma ShownRangeSize(p: PaginationInfo)
    requires p.currentPage >= 1 && p.perPage >= 1
    requires FirstShown(p) <= p.total
    ensures FirstShown(p) <= LastShown(p)
    ensures LastShown(p) - FirstShown(p) + 1 <= p.perPage
  {
    assert p.currentPage * p.perPage == (p.currentPage - 1) * p.perPage + p.perPage;
  }

  function WithPage(p: PaginationInfo, page: int): PaginationInfo
  {
    p.(currentPage := page)
  }

  /** Consecutive full pages tile the results: page `k + 1` starts right
      after page `k` ends. */
  lemma ShownRangesTile(p: PaginationInfo)
    requires p.currentPage * p.perPage <= p.total
    ensures FirstShown(WithPage(p, p.currentPage + 1)) == LastShown(p) + 1
  {
    assert (p.currentPage + 1 - 1) * p.perPage == p.currentPage * p.perPage;
  }

  /** `Array.from({ length: Math.max(1, totalPages) }, (_, i) => i + 1)`:
      the pages 1, 2, ..., max(1, totalPages), never empty. */
  function PageNumbers(totalPages: int): (r: seq<int>)
    ensures |r| == Max(1, totalPages) && r[0] == 1
    ensures forall i :: 0 <= i < |r| - 1 ==> r[i + 1] == r[i] + 1
    ensures forall n :: n in r <==> 1 <= n <= Max(1, totalPages)
  {
    var r := seq(Max(1, totalPages), i => i + 1);
    forall n | 1 <= n <= Max(1, totalPages) ensures n in r {
      assert r[n - 1] == n;
    }
    r
  }

  /** The buttons drawn with the active style. */
  function ActiveButtons(p: PaginationInfo): seq<int>
  {
    Lists.Filter(PageNumbers(p.totalPages), n => n == p.currentPage)
  }

  /** Exactly one button is active when the current page is among the
      buttons, none otherwise. */
  lemma OneActiveButton(p: PaginationInfo)
    ensures |ActiveButtons(p)| == if 1 <= p.currentPage <= Max(1, p.totalPages) then 1 else 0
    ensures forall n :: n in ActiveButtons(p) ==> n == p.currentPage
  {
    var pages := PageNumbers(p.totalPages);
    var keep := n => n == p.currentPage;
    var k := p.currentPage - 1;
    if 1 <= p.currentPage <= Max(1, p.totalPages) {
      assert pages == pages[..k] + [pages[k]] + pages[k + 1..];
      Lists.FilterAppend(pages[..k] + [pages[k]], pages[k + 1..], keep);
      Lists.FilterAppend(pages[..k], [pages[k]], keep);
      Lists.FilterEmpty(pages[..k], keep);
      Lists.FilterEmpty(pages[k + 1..], keep);
      assert Lists.Filter([pages[k]], keep) == [pages[k]];
    } else {
      Lists.FilterEmpty(pages, keep);
    }
  }

  /** What a click on the footer can be. */
  datatype Click = Previous | Next | PageButton(pageNum: int)

  /** The page handed to `onPageChange`; `None` when the button is
      disabled (a disabled button fires no click) or not drawn. */
  function Requested(p: PaginationInfo, c: Click): (r: Option<int>)
    ensures c.Previous? ==> (r.None? <==> !p.hasPrev) && (r.Some? ==> r.value == p.currentPage - 1)
    ensures c.Next? ==> (r.None? <==> !p.hasNext) && (r.Some? ==> r.value == p.currentPage + 1)
    ensures c.PageButton? ==>
              (r.Some? <==> 1 <= c.pageNum <= Max(1, p.totalPages)) && (r.Some? ==> r.value == c.pageNum)
  {
    match c
    case Previous => if p.hasPrev then Some(p.currentPage - 1) else None
    case Next => if p.hasNext then Some(p.currentPage + 1) else None
    case PageButton(n) => if n in PageNumbers(p.totalPages) then Some(n) else None
  }

  /** The flags the backend sends mean "there is a page before / after". */
  predicate FlagsConsistent(p: PaginationInfo)
  {
    1 <= p.currentPage <= Max(1, p.totalPages) &&
    (p.hasPrev ==> p.currentPage > 1) &&
    (p.hasNext ==> p.currentPage < p.totalPages)
  }

  /** With consistent flags every click asks for an existing page, and the
      arrows move by exactly one page. */
  lemma NavigationStaysInRange(p: PaginationInfo, c: Click)
    requires FlagsConsistent(p)
    ensures Requested(p, c).Some? ==> 1 <= Requested(p, c).value <= Max(1, p.totalPages)
    ensures Requested(p, c).Some? && !c.PageButton? ==>
              Requested(p, c).value == p.currentPage - 1 || Requested(p, c).value == p.currentPage + 1
  {
  }
}
