/**
 * The pagination bar of the home page: the window of up to three page numbers around the
 * current page, the first/last links and ellipses around it, and the Previous/Next buttons.
 * Pages are integers; the bar takes the current page and the page count as given.
 */
module PaginationBar {

  function Max(a: int, b: int): int { if a >= b then a else b }
  function Min(a: int, b: int): int { if a <= b then a else b }

  /**
   * `startPage` and `endPage`: a window of three pages starting one before the current page,
   * cut at the last page and then shifted back so that it keeps three pages where there are
   * three to show.
   */
  function Bounds(currentPage: int, totalPages: int): (r: (int, int))
    ensures r.0 >= 1
    ensures totalPages >= 1 ==> r.0 <= r.1 <= totalPages
    ensures totalPages >= 3 ==> r.1 == r.0 + 2
    ensures 1 <= totalPages < 3 ==> r == (1, totalPages)
    ensures totalPages < 1 ==> r.1 < r.0
  {
    var start := Max(1, currentPage - 1);
    var end := Min(totalPages, start + 2);
    if end - start < 2 then (Max(1, end - 2), end) else (start, end)
  }

  /** The consecutive pages `lo`, `lo + 1`, …, `hi`; empty when `hi < lo`. */
  function Range(lo: int, hi: int): (r: seq<int>)
    ensures |r| == if hi < lo then 0 else hi - lo + 1
    ensures forall k :: 0 <= k < |r| ==> r[k] == lo + k
    decreases hi - lo
  {
    if hi < lo then [] else [lo] + Range(lo + 1, hi)
  }

  /** A sequence of consecutive pages is the range between its ends. */
  lemma RangeOf(lo: int, hi: int, pages: seq<int>)
    requires |pages| == if hi < lo then 0 else hi - lo + 1
    requires forall k :: 0 <= k < |pages| ==> pages[k] == lo + k
    ensures pages == Range(lo, hi)
  {
  }

  /** The page-number computation of the component, with its loop. */
  method PageNumbers(currentPage: int, totalPages: int) returns (startPage: int, endPage: int, pageNumbers: seq<int>)
    ensures (startPage, endPage) == Bounds(currentPage, totalPages)
    ensures pageNumbers == Range(startPage, endPage)
  {
    startPage := Max(1, currentPage - 1);
    endPage := Min(totalPages, startPage + 2);
    if endPage - startPage < 2 {
      startPage := Max(1, endPage - 2);
    }
    pageNumbers := [];
    var i := startPage;
    while i <= endPage
      invariant startPage <= i <= Max(startPage, endPage + 1)
      invariant |pageNumbers| == i - startPage
      invariant forall k :: 0 <= k < |pageNumbers| ==> pageNumbers[k] == startPage + k
      decreases endPage + 1 - i
    {
      pageNumbers := pageNumbers + [i];
      i := i + 1;
    }
    RangeOf(startPage, endPage, pageNumbers);
  }

  /** The window shows every page from its start to its end, each once, in order. */
  lemma WindowShape(currentPage: int, totalPages: int)
    requires totalPages >= 1
    ensures var (s, e) := Bounds(currentPage, totalPages);
      var pages := Range(s, e);
      && |pages| == Min(3, totalPages)
      && (forall k :: 0 <= k < |pages| ==> 1 <= pages[k] <= totalPages)
      && (forall p :: p in pages <==> s <= p <= e)
  {
    var (s, e) := Bounds(currentPage, totalPages);
    var pages := Range(s, e);
    forall p | s <= p <= e ensures p in pages {
      assert pages[p - s] == p;
    }
  }

  /** For a current page that exists, the window holds it, and it starts at most one page before. */
  lemma CurrentPageShown(currentPage: int, totalPages: int)
    requires 1 <= currentPage <= totalPages
    ensures var (s, e) := Bounds(currentPage, totalPages);
      s <= currentPage <= e && currentPage in Range(s, e)
    ensures totalPages >= 3 ==>
      Bounds(currentPage, totalPages).0 == Max(1, Min(currentPage - 1, totalPages - 2))
  {
    var (s, e) := Bounds(currentPage, totalPages);
    assert Range(s, e)[currentPage - s] == currentPage;
  }

  /** With no pages there is nothing to show. */
  lemma NoPagesNoWindow(currentPage: int, totalPages: int)
    requires totalPages < 1
    ensures var (s, e) := Bounds(currentPage, totalPages); Range(s, e) == []
  {
  }

  /** Previous goes one page back but not before page 1; Next one on but not past the last page. */
  function PreviousTarget(currentPage: int): int { Max(1, currentPage - 1) }
  function NextTarget(currentPage: int, totalPages: int): int { Min(totalPages, currentPage + 1) }

  /** The targets of the buttons are pages that exist, and they move by at most one page. */
  lemma TargetsInRange(currentPage: int, totalPages: int)
    requires 1 <= currentPage <= totalPages
    ensures 1 <= PreviousTarget(currentPage) <= totalPages
    ensures 1 <= NextTarget(currentPage, totalPages) <= totalPages
    ensures PreviousTarget(currentPage) == currentPage <==> currentPage == 1
    ensures NextTarget(currentPage, totalPages) == currentPage <==> currentPage == totalPages
  {
  }

  /** A rendered element of the bar. */
  datatype Item =
    | Previous(target: int, disabled: bool)
    | FirstLink
    | LeftEllipsis
    | PageLink(page: int, active: bool)
    | RightEllipsis
    | LastLink(page: int)
    | Next(target: int, disabled: bool)

  /** Everything the bar renders, left to right. */
  function Items(currentPage: int, totalPages: int): (r: seq<Item>)
    ensures |r| >= 2
    ensures r[0] == Previous(PreviousTarget(currentPage), currentPage == 1)
    ensures r[|r| - 1] == Next(NextTarget(currentPage, totalPages), currentPage == totalPages)
  {
    var (s, e) := Bounds(currentPage, totalPages);
    [Previous(PreviousTarget(currentPage), currentPage == 1)]
    + (if s > 1 then [FirstLink] else [])
    + (if s > 2 then [LeftEllipsis] else [])
    + PageLinks(Range(s, e), currentPage)
    + (if e < totalPages - 1 then [RightEllipsis] else [])
    + (if e < totalPages then [LastLink(totalPages)] else [])
    + [Next(NextTarget(currentPage, totalPages), currentPage == totalPages)]
  }

  /** One link per window page; the current page's link is the active one. */
  function PageLinks(pages: seq<int>, currentPage: int): (r: seq<Item>)
    ensures |r| == |pages|
    ensures forall k :: 0 <= k < |r| ==> r[k] == PageLink(pages[k], pages[k] == currentPage)
  {
    seq(|pages|, k requires 0 <= k < |pages| => PageLink(pages[k], pages[k] == currentPage))
  }

  /**
   * The bar links to page 1 exactly when the window starts after it, shows the left ellipsis
   * exactly when pages are skipped there, the right ellipsis exactly when pages are skipped
   * before the last one, and links to the last page exactly when the window ends before it.
   * Within the window exactly the current page is active.
   */
  lemma ItemsAroundWindow(currentPage: int, totalPages: int)
    ensures var (s, e) := Bounds(currentPage, totalPages);
      var items := Items(currentPage, totalPages);
      && (FirstLink in items <==> s > 1)
      && (LeftEllipsis in items <==> s > 2)
      && (RightEllipsis in items <==> e < totalPages - 1)
      && (LastLink(totalPages) in items <==> e < totalPages)
      && (forall p :: PageLink(p, true) in items <==> p == currentPage && s <= p <= e)
  {
    var (s, e) := Bounds(currentPage, totalPages);
    InItems(currentPage, totalPages, FirstLink);
    InItems(currentPage, totalPages, LeftEllipsis);
    InItems(currentPage, totalPages, RightEllipsis);
    InItems(currentPage, totalPages, LastLink(totalPages));
    var links := PageLinks(Range(s, e), currentPage);
    forall p ensures PageLink(p, true) in Items(currentPage, totalPages) <==> p == currentPage && s <= p <= e {
      InItems(currentPage, totalPages, PageLink(p, true));
      if p == currentPage && s <= p <= e {
        assert links[p - s] == PageLink(p, true);
      }
    }
  }

  /** An item is on the bar exactly when one of the bar's parts holds it. */
  lemma InItems(currentPage: int, totalPages: int, x: Item)
    ensures var (s, e) := Bounds(currentPage, totalPages);
      x in Items(currentPage, totalPages) <==>
        || x == Previous(PreviousTarget(currentPage), currentPage == 1)
        || (s > 1 && x == FirstLink)
        || (s > 2 && x == LeftEllipsis)
        || x in PageLinks(Range(s, e), currentPage)
        || (e < totalPages - 1 && x == RightEllipsis)
        || (e < totalPages && x == LastLink(totalPages))
        || x == Next(NextTarget(currentPage, totalPages), currentPage == totalPages)
  {
    var (s, e) := Bounds(currentPage, totalPages);
    var p0 := [Previous(PreviousTarget(currentPage), currentPage == 1)];
    var first := if s > 1 then [FirstLink] else [];
    var left := if s > 2 then [LeftEllipsis] else [];
    var links := PageLinks(Range(s, e), currentPage);
    var right := if e < totalPages - 1 then [RightEllipsis] else [];
    var last := if e < totalPages then [LastLink(totalPages)] else [];
    var n0 := [Next(NextTarget(currentPage, totalPages), currentPage == totalPages)];
    assert Items(currentPage, totalPages) == p0 + first + left + links + right + last + n0;
  }

  /** Page 5 of 20: the window 4-6 between a first-page link, both ellipses and a last-page link. */
  lemma LargeRangeShowsBothEllipses()
    ensures Bounds(5, 20) == (4, 6)
    ensures var items := Items(5, 20);
      FirstLink in items && LeftEllipsis in items && RightEllipsis in items && LastLink(20) in items
  {
    ItemsAroundWindow(5, 20);
  }

  /** Page 2 of 4: the window 1-3 and a last-page link, with no ellipsis. */
  lemma SmallRangeShowsNoEllipsis()
    ensures Bounds(2, 4) == (1, 3)
    ensures var items := Items(2, 4);
      LeftEllipsis !in items && RightEllipsis !in items && FirstLink !in items && LastLink(4) in items
  {
    ItemsAroundWindow(2, 4);
  }
}
