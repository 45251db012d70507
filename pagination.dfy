/** The `Pagination` component: the window of page buttons, the "showing x to y"
    range and the guards on rendering and on the previous/next buttons. */
module Pagination {

  import opened Coupons

  /** One entry of the button row: a page number or a `'...'` gap marker. */
  datatype PageItem = Page(n: int) | Ellipsis

  /** `maxVisible`. */
  const MaxVisible: int := 7

  /** Buttons for the pages `lo` to `hi` inclusive. */
  function Pages(lo: int, hi: int): (r: seq<PageItem>)
    ensures |r| == if hi >= lo then hi - lo + 1 else 0
    ensures forall k :: 0 <= k < |r| ==> r[k] == Page(lo + k)
    decreases if hi < lo then 0 else hi - lo + 1
  {
    if hi < lo then [] else Pages(lo, hi - 1) + [Page(hi)]
  }

  /** The row `getPageNumbers` builds, in its three branches when there are more than
      seven pages. */
  function PageWindow(currentPage: int, totalPages: int): (r: seq<PageItem>)
    ensures totalPages <= MaxVisible ==>
              |r| == (if totalPages < 0 then 0 else totalPages) &&
              forall k :: 0 <= k < |r| ==> r[k] == Page(k + 1)
    ensures totalPages > MaxVisible ==> |r| == MaxVisible
  {
    if totalPages <= MaxVisible then Pages(1, totalPages)
    else if currentPage <= 3 then Pages(1, 5) + [Ellipsis, Page(totalPages)]
    else if currentPage >= totalPages - 2 then [Page(1), Ellipsis] + Pages(totalPages - 4, totalPages)
    else [Page(1), Ellipsis] + Pages(currentPage - 1, currentPage + 1) + [Ellipsis, Page(totalPages)]
  }

  /** `getPageNumbers`, pushing onto `pages` in its `for` loops. */
  method GetPageNumbers(currentPage: int, totalPages: int) returns (pages: seq<PageItem>)
    ensures pages == PageWindow(currentPage, totalPages)
  {
    pages := [];
    if totalPages <= MaxVisible {
      var i := 1;
      while i <= totalPages
        invariant 1 <= i <= (if totalPages >= 1 then totalPages + 1 else 1)
        invariant pages == Pages(1, i - 1)
      {
        pages := pages + [Page(i)];
        i := i + 1;
      }
    } else {
      if currentPage <= 3 {
        var i := 1;
        while i <= 5
          invariant 1 <= i <= 6
          invariant pages == Pages(1, i - 1)
        {
          pages := pages + [Page(i)];
          i := i + 1;
        }
        pages := pages + [Ellipsis];
        pages := pages + [Page(totalPages)];
      } else if currentPage >= totalPages - 2 {
        pages := pages + [Page(1)];
        pages := pages + [Ellipsis];
        var i := totalPages - 4;
        while i <= totalPages
          invariant totalPages - 4 <= i <= totalPages + 1
          invariant pages == [Page(1), Ellipsis] + Pages(totalPages - 4, i - 1)
        {
          pages := pages + [Page(i)];
          i := i + 1;
        }
      } else {
        pages := pages + [Page(1)];
        pages := pages + [Ellipsis];
        var i := currentPage - 1;
        while i <= currentPage + 1
          invariant currentPage - 1 <= i <= currentPage + 2
          invariant pages == [Page(1), Ellipsis] + Pages(currentPage - 1, i - 1)
        {
          pages := pages + [Page(i)];
          i := i + 1;
        }
        pages := pages + [Ellipsis];
        pages := pages + [Page(totalPages)];
      }
    }
  }

  /** The page numbers in a row rise strictly and lie in 1 to `totalPages`, the row opens
      with page 1 and closes with the last page, and every gap marker sits between two
      numbers at least 2 apart. */
  ghost predicate WellFormedRow(r: seq<PageItem>, totalPages: int)
  {
    && |r| >= 1 && r[0] == Page(1) && r[|r| - 1] == Page(totalPages)
    && (forall i, j :: 0 <= i < j < |r| && r[i].Page? && r[j].Page? ==> r[i].n < r[j].n)
    && (forall i :: 0 <= i < |r| && r[i].Page? ==> 1 <= r[i].n <= totalPages)
    && (forall i :: 0 <= i < |r| && r[i] == Ellipsis ==>
          0 < i < |r| - 1 && r[i - 1].Page? && r[i + 1].Page? && r[i + 1].n - r[i - 1].n >= 2)
  }

  lemma RowOfAllPages(totalPages: int)
    requires 1 <= totalPages
    ensures WellFormedRow(Pages(1, totalPages), totalPages)
  {
  }

  lemma RowNearStart(totalPages: int)
    requires totalPages > MaxVisible
    ensures WellFormedRow([Page(1), Page(2), Page(3), Page(4), Page(5), Ellipsis, Page(totalPages)], totalPages)
  {
  }

  lemma RowNearEnd(totalPages: int)
    requires totalPages > MaxVisible
    ensures WellFormedRow([Page(1), Ellipsis, Page(totalPages - 4), Page(totalPages - 3),
                           Page(totalPages - 2), Page(totalPages - 1), Page(totalPages)], totalPages)
  {
  }

  lemma RowInMiddle(currentPage: int, totalPages: int)
    requires totalPages > MaxVisible && 3 < currentPage < totalPages - 2
    ensures WellFormedRow([Page(1), Ellipsis, Page(currentPage - 1), Page(currentPage),
                           Page(currentPage + 1), Ellipsis, Page(totalPages)], totalPages)
  {
  }

  /** Every row `getPageNumbers` builds is well formed. */
  lemma PageWindowOrdered(currentPage: int, totalPages: int)
    requires totalPages >= 1
    ensures WellFormedRow(PageWindow(currentPage, totalPages), totalPages)
  {
    if totalPages <= MaxVisible {
      RowOfAllPages(totalPages);
    } else if currentPage <= 3 {
      RowNearStart(totalPages);
      assert PageWindow(currentPage, totalPages) ==
        [Page(1), Page(2), Page(3), Page(4), Page(5), Ellipsis, Page(totalPages)];
    } else if currentPage >= totalPages - 2 {
      RowNearEnd(totalPages);
      assert PageWindow(currentPage, totalPages) ==
        [Page(1), Ellipsis, Page(totalPages - 4), Page(totalPages - 3), Page(totalPages - 2),
         Page(totalPages - 1), Page(totalPages)];
    } else {
      RowInMiddle(currentPage, totalPages);
      assert PageWindow(currentPage, totalPages) ==
        [Page(1), Ellipsis, Page(currentPage - 1), Page(currentPage), Page(currentPage + 1),
         Ellipsis, Page(totalPages)];
    }
  }

  /** The current page, when it is a real page, always has its own button. */
  lemma PageWindowShowsCurrent(currentPage: int, totalPages: int)
    requires 1 <= currentPage <= totalPages
    ensures Page(currentPage) in PageWindow(currentPage, totalPages)
  {
    var r := PageWindow(currentPage, totalPages);
    if totalPages <= MaxVisible {
      assert r[currentPage - 1] == Page(currentPage);
    } else if currentPage <= 3 {
      assert r[currentPage - 1] == Page(currentPage);
    } else if currentPage >= totalPages - 2 {
      assert r[6 - (totalPages - currentPage)] == Page(currentPage);
    } else {
      assert r[3] == Page(currentPage);
    }
  }

  /** What the component renders around the row. */
  datatype View = View(
    startItem: int,
    endItem: int,
    pages: seq<PageItem>,
    prevDisabled: bool,
    nextDisabled: bool)

  /** The rendered component, or `None` (the component returns `null`). */
  function Render(currentPage: int, totalPages: int, itemsPerPage: int, totalItems: int): (v: Option<View>)
    ensures v.None? <==> totalPages <= 1
    ensures v.Some? ==> v.value.startItem == (currentPage - 1) * itemsPerPage + 1
    ensures v.Some? ==> v.value.endItem <= totalItems && v.value.endItem <= currentPage * itemsPerPage
    ensures v.Some? ==> v.value.endItem == totalItems || v.value.endItem == currentPage * itemsPerPage
    ensures v.Some? ==> (v.value.prevDisabled <==> currentPage == 1)
    ensures v.Some? ==> (v.value.nextDisabled <==> currentPage == totalPages)
    ensures v.Some? ==> v.value.pages == PageWindow(currentPage, totalPages)
    ensures v.Some? ==> |v.value.pages| == MaxVisible || |v.value.pages| == totalPages
  {
    if totalPages <= 1 then None
    else
      var endItem := if currentPage * itemsPerPage < totalItems then currentPage * itemsPerPage else totalItems;
      Some(View((currentPage - 1) * itemsPerPage + 1, endItem, PageWindow(currentPage, totalPages),
                currentPage == 1, currentPage == totalPages))
  }

  lemma MulMonotone(a: int, b: int, n: int)
    requires a <= b && n >= 0
    ensures a * n <= b * n
  {
  }

  /** On a real page of `ceil(totalItems / itemsPerPage)` pages the "showing x to y"
      range is non-empty and holds at most one page of items. */
  lemma ShownRangeValid(currentPage: int, totalPages: int, itemsPerPage: int, totalItems: int)
    requires itemsPerPage >= 1 && totalPages > 1
    requires totalPages == CeilDiv(totalItems, itemsPerPage)
    requires 1 <= currentPage <= totalPages
    ensures var v := Render(currentPage, totalPages, itemsPerPage, totalItems).value;
      1 <= v.startItem <= v.endItem <= totalItems && v.endItem - v.startItem < itemsPerPage
  {
    MulMonotone(currentPage - 1, totalPages - 1, itemsPerPage);
    MulMonotone(0, currentPage - 1, itemsPerPage);
  }

  /** Thirteen coupons at twelve per page make two pages: 1 to 12, then 13 to 13. */
  lemma ThirteenCouponsExample()
    ensures CeilDiv(13, 12) == 2
    ensures Render(1, 2, 12, 13).value.startItem == 1 && Render(1, 2, 12, 13).value.endItem == 12
    ensures Render(2, 2, 12, 13).value.startItem == 13 && Render(2, 2, 12, 13).value.endItem == 13
  {
  }
}
