/**
 * The page-list builder of the yacht list's pagination bar: page numbers and
 * ellipsis markers around the current page.
 */
module PaginationItems {
  import opened Numbers

  /** One entry of the bar: a page button, or the `'...'` marker. */
  datatype Item = Page(n: int) | Ellipsis

  /** The window radius: 1 on a narrow (mobile) screen, 2 otherwise. */
  function PageRange(isMobile: bool): (r: int)
    ensures 1 <= r <= 2 && (r == 1 <==> isMobile)
  {
    if isMobile then 1 else 2
  }

  /** The page buttons `lo, lo+1, ..., hi` (none when `lo > hi`). */
  function Pages(lo: int, hi: int): (s: seq<Item>)
    ensures |s| == if lo <= hi then hi - lo + 1 else 0
    ensures forall k :: 0 <= k < |s| ==> s[k] == Page(lo + k)
    decreases hi - lo
  {
    if lo > hi then [] else Pages(lo, hi - 1) + [Page(hi)]
  }

  /** The window's first and last candidate pages, clipped to the inner pages `2 .. totalPages-1`. */
  function WindowLo(page: int, r: int): int { Max(2, page - r) }
  function WindowHi(page: int, totalPages: int, r: int): int { Min(totalPages - 1, page + r) }

  predicate LeadingEllipsis(page: int, r: int) { page > r + 2 }
  predicate TrailingEllipsis(page: int, totalPages: int, r: int) { page < totalPages - r - 1 }

  /**
   * The list the builder produces, as one sequence expression. It is empty
   * for a single page, and never longer than the two ends, two markers and a
   * window of `2r + 1` pages, whatever the current page.
   */
  function Items(page: int, totalPages: int, isMobile: bool): (items: seq<Item>)
    ensures items == [] <==> totalPages <= 1
    ensures |items| <= 2 * PageRange(isMobile) + 5
  {
    var r := PageRange(isMobile);
    if totalPages <= 1 then []
    else
      [Page(1)]
      + (if LeadingEllipsis(page, r) then [Ellipsis] else [])
      + Pages(WindowLo(page, r), WindowHi(page, totalPages, r))
      + (if TrailingEllipsis(page, totalPages, r) then [Ellipsis] else [])
      + [Page(totalPages)]
  }

  /** `getPaginationItems`: pushes the first page, an optional ellipsis, the window, an optional ellipsis and the last page. */
  method GetPaginationItems(page: int, totalPages: int, isMobile: bool) returns (items: seq<Item>)
    ensures items == Items(page, totalPages, isMobile)
  {
    items := [];
    var pageRange := PageRange(isMobile);
    if totalPages <= 1 {
      return [];
    }
    items := items + [Page(1)];
    if page > pageRange + 2 {
      items := items + [Ellipsis];
    }
    ghost var head := items;
    var lo := Max(2, page - pageRange);
    var hi := Min(totalPages - 1, page + pageRange);
    var i := lo;
    while i <= hi
      invariant lo <= i <= Max(lo, hi + 1)
      invariant items == head + Pages(lo, i - 1)
    {
      items := items + [Page(i)];
      i := i + 1;
    }
    assert Pages(lo, i - 1) == Pages(lo, hi);
    ghost var body := items;
    if page < totalPages - pageRange - 1 {
      items := items + [Ellipsis];
    }
    ghost var tail: seq<Item> := if page < totalPages - pageRange - 1 then [Ellipsis] else [];
    if totalPages > 1 {
      items := items + [Page(totalPages)];
    }
    assert items == head + Pages(lo, hi) + tail + [Page(totalPages)];
    ghost var lead: seq<Item> := if LeadingEllipsis(page, pageRange) then [Ellipsis] else [];
    assert head == [Page(1)] + lead;
    assert lo == WindowLo(page, pageRange) && hi == WindowHi(page, totalPages, pageRange);
    assert tail == if TrailingEllipsis(page, totalPages, pageRange) then [Ellipsis] else [];
    assert Items(page, totalPages, isMobile) == [Page(1)] + lead + Pages(lo, hi) + tail + [Page(totalPages)];
  }

  /** The list is empty exactly when there is at most one page; otherwise it opens with page 1 and closes with the last page. */
  lemma Ends(page: int, totalPages: int, isMobile: bool)
    ensures var items := Items(page, totalPages, isMobile);
      && (items == [] <==> totalPages <= 1)
      && (totalPages > 1 ==> |items| >= 2 && items[0] == Page(1) && items[|items| - 1] == Page(totalPages))
  {
  }

  /** How many markers precede, and follow, the window. */
  function LeadCount(page: int, isMobile: bool): int {
    if LeadingEllipsis(page, PageRange(isMobile)) then 1 else 0
  }
  function TrailCount(page: int, totalPages: int, isMobile: bool): int {
    if TrailingEllipsis(page, totalPages, PageRange(isMobile)) then 1 else 0
  }
  function WindowSize(page: int, totalPages: int, isMobile: bool): nat {
    var r := PageRange(isMobile);
    |Pages(WindowLo(page, r), WindowHi(page, totalPages, r))|
  }

  /** The entry at position `k` of the list, computed from `k` alone. */
  function At(page: int, totalPages: int, isMobile: bool, k: int): Item {
    var lead := LeadCount(page, isMobile);
    var w := WindowSize(page, totalPages, isMobile);
    if k == 0 then Page(1)
    else if k < 1 + lead then Ellipsis
    else if k < 1 + lead + w then Page(WindowLo(page, PageRange(isMobile)) + k - 1 - lead)
    else if k < 1 + lead + w + TrailCount(page, totalPages, isMobile) then Ellipsis
    else Page(totalPages)
  }

  /** Position by position description of `Items`, for the lemmas below. */
  lemma {:induction false} ItemsAt(page: int, totalPages: int, isMobile: bool)
    requires totalPages > 1
    ensures var items := Items(page, totalPages, isMobile);
      && |items| == 2 + LeadCount(page, isMobile) + WindowSize(page, totalPages, isMobile) + TrailCount(page, totalPages, isMobile)
      && forall k :: 0 <= k < |items| ==> items[k] == At(page, totalPages, isMobile, k)
  {
    var r := PageRange(isMobile);
    var a: seq<Item> := [Page(1)];
    var b: seq<Item> := if LeadingEllipsis(page, r) then [Ellipsis] else [];
    var w := Pages(WindowLo(page, r), WindowHi(page, totalPages, r));
    var c: seq<Item> := if TrailingEllipsis(page, totalPages, r) then [Ellipsis] else [];
    var d: seq<Item> := [Page(totalPages)];
    var items := Items(page, totalPages, isMobile);
    assert items == a + b + w + c + d;
    forall k | 0 <= k < |items| ensures items[k] == At(page, totalPages, isMobile, k) {
      if k < |a + b + w| {
        assert items[k] == (a + b + w)[k];
        if k < |a + b| {
          assert items[k] == (a + b)[k];
        } else {
          assert items[k] == w[k - |a + b|];
        }
      } else if k < |a + b + w + c| {
        assert items[k] == c[k - |a + b + w|];
      }
    }
  }

  /** The page numbers are strictly increasing and all lie in `1 .. totalPages`, whatever the current page. */
  lemma OrderedAndInBounds(page: int, totalPages: int, isMobile: bool)
    ensures var items := Items(page, totalPages, isMobile);
      forall i, j :: 0 <= i < j < |items| && items[i].Page? && items[j].Page? ==>
        1 <= items[i].n < items[j].n <= totalPages
  {
    if totalPages > 1 {
      ItemsAt(page, totalPages, isMobile);
    }
  }

  /** Every page within `r` of the current page, and inside `1 .. totalPages`, is listed. */
  lemma WindowShown(page: int, totalPages: int, isMobile: bool, p: int)
    requires totalPages > 1
    requires 1 <= p <= totalPages
    requires page - PageRange(isMobile) <= p <= page + PageRange(isMobile)
    ensures Page(p) in Items(page, totalPages, isMobile)
  {
    var items := Items(page, totalPages, isMobile);
    ItemsAt(page, totalPages, isMobile);
    var lead := LeadCount(page, isMobile);
    if p == 1 {
      assert items[0] == Page(p);
    } else if p == totalPages {
      assert items[|items| - 1] == Page(p);
    } else {
      var k := 1 + lead + p - WindowLo(page, PageRange(isMobile));
      assert items[k] == Page(p);
    }
  }

  /** Conversely, a listed page is the first, the last, or within `r` of the current page. */
  lemma OnlyWindowAndEnds(page: int, totalPages: int, isMobile: bool, p: int)
    requires Page(p) in Items(page, totalPages, isMobile)
    ensures p == 1 || p == totalPages || page - PageRange(isMobile) <= p <= page + PageRange(isMobile)
  {
    ItemsAt(page, totalPages, isMobile);
  }

  /** With the current page in range, a marker comes with a non-empty window of inner pages. */
  lemma WindowAroundMarkers(page: int, totalPages: int, isMobile: bool)
    requires 1 <= page <= totalPages && totalPages > 1
    ensures var r := PageRange(isMobile);
      var lo, hi := WindowLo(page, r), WindowHi(page, totalPages, r);
      && (LeadCount(page, isMobile) == 1 ==> 3 <= lo <= hi)
      && (LeadCount(page, isMobile) == 0 ==> lo == 2)
      && (TrailCount(page, totalPages, isMobile) == 1 ==> lo <= hi <= totalPages - 2)
      && (TrailCount(page, totalPages, isMobile) == 0 ==> hi == totalPages - 1)
      && WindowSize(page, totalPages, isMobile) == if lo <= hi then hi - lo + 1 else 0
  {
  }

  /** With the current page in range: the leading marker is there exactly when `page > r + 2`, the trailing one exactly when `page < totalPages - r - 1`. */
  lemma EllipsisPlacement(page: int, totalPages: int, isMobile: bool)
    requires 1 <= page <= totalPages && totalPages > 1
    ensures var r := PageRange(isMobile);
      var items := Items(page, totalPages, isMobile);
      && |items| >= 2
      && (items[1] == Ellipsis <==> page > r + 2)
      && (items[|items| - 2] == Ellipsis <==> page < totalPages - r - 1)
  {
    ItemsAt(page, totalPages, isMobile);
    WindowAroundMarkers(page, totalPages, isMobile);
    var items := Items(page, totalPages, isMobile);
    assert items[1] == At(page, totalPages, isMobile, 1);
    assert items[|items| - 2] == At(page, totalPages, isMobile, |items| - 2);
  }

  /** With the current page in range, each marker stands between two pages with at least one page omitted between them. */
  lemma MarkersStandForOmittedPages(page: int, totalPages: int, isMobile: bool)
    requires 1 <= page <= totalPages && totalPages > 1
    ensures var items := Items(page, totalPages, isMobile);
      forall k :: 0 <= k < |items| && items[k] == Ellipsis ==>
        0 < k < |items| - 1 && items[k - 1].Page? && items[k + 1].Page? && items[k + 1].n > items[k - 1].n + 1
  {
    ItemsAt(page, totalPages, isMobile);
    WindowAroundMarkers(page, totalPages, isMobile);
    var items := Items(page, totalPages, isMobile);
    var lead, w := LeadCount(page, isMobile), WindowSize(page, totalPages, isMobile);
    forall k | 0 <= k < |items| && items[k] == Ellipsis
      ensures 0 < k < |items| - 1 && items[k - 1].Page? && items[k + 1].Page? && items[k + 1].n > items[k - 1].n + 1
    {
      assert items[k] == At(page, totalPages, isMobile, k);
      if k == 1 && lead == 1 {
        assert items[0] == Page(1);
        assert items[2] == At(page, totalPages, isMobile, 2);
      } else {
        assert k == 1 + lead + w;
        assert items[k - 1] == At(page, totalPages, isMobile, k - 1);
        assert items[k + 1] == Page(totalPages);
      }
    }
  }

  /** With the current page in range, two page buttons side by side are consecutive pages: no page is skipped without a marker. */
  lemma NoSilentGap(page: int, totalPages: int, isMobile: bool)
    requires 1 <= page <= totalPages && totalPages > 1
    ensures var items := Items(page, totalPages, isMobile);
      forall k :: 0 <= k < |items| - 1 && items[k].Page? && items[k + 1].Page? ==> items[k + 1].n == items[k].n + 1
  {
    ItemsAt(page, totalPages, isMobile);
    WindowAroundMarkers(page, totalPages, isMobile);
    var items := Items(page, totalPages, isMobile);
    forall k | 0 <= k < |items| - 1 && items[k].Page? && items[k + 1].Page?
      ensures items[k + 1].n == items[k].n + 1
    {
      assert items[k] == At(page, totalPages, isMobile, k);
      assert items[k + 1] == At(page, totalPages, isMobile, k + 1);
    }
  }
}
