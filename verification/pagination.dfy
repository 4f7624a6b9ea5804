/** The page selector under paged lists
    (frontend/src/components/common/pagination.tsx): the window of page
    numbers and ellipses, and the Previous/Next buttons. Pages are numbered
    from 0 as Spring's `Page.number` is; the buttons show `n + 1`. */
module Pagination {
  import opened Wrappers

  datatype PageItem = Page(n: int) | Ellipsis

  /** The page buttons `lo, lo + 1, ..., hi`; empty when `lo > hi`. */
  function Pages(lo: int, hi: int): (r: seq<PageItem>)
    ensures lo > hi ==> r == []
    ensures lo <= hi ==> |r| == hi - lo + 1
    ensures forall k :: 0 <= k < |r| ==> r[k] == Page(lo + k)
  {
    if lo > hi then [] else seq(hi - lo + 1, k requires 0 <= k < hi - lo + 1 => Page(lo + k))
  }

  function Max(a: int, b: int): int { if a >= b then a else b }
  function Min(a: int, b: int): int { if a <= b then a else b }

  /** The pages shown around the current one: the loop bounds
      `max(1, current - 1)` and `min(total - 2, current + 1)`. */
  function Middle(current: int, total: int): (r: seq<PageItem>)
    ensures |r| <= 3
    ensures forall k :: 0 <= k < |r| ==> r[k].Page? && 1 <= r[k].n <= total - 2
  {
    Pages(Max(1, current - 1), Min(total - 2, current + 1))
  }

  /** First page, an optional ellipsis, the middle, an optional ellipsis, last page. */
  function Window(current: int, total: int, leading: bool, trailing: bool): seq<PageItem> {
    [Page(0)] + (if leading then [Ellipsis] else []) + Middle(current, total)
      + (if trailing then [Ellipsis] else []) + [Page(total - 1)]
  }

  /** `getPageNumbers` as written: the ellipses test `current > 3` and
      `current < total - 4`. */
  function PageNumbersAsWritten(current: int, total: int): seq<PageItem> {
    if total <= 7 then Pages(0, total - 1)
    else Window(current, total, current > 3, current < total - 4)
  }

  /** `getPageNumbers` with each ellipsis shown exactly when pages are
      hidden at that side: `current > 2` and `current < total - 3`. */
  function PageNumbers(current: int, total: int): seq<PageItem> {
    if total <= 7 then Pages(0, total - 1)
    else Window(current, total, current > 2, current < total - 3)
  }

  // ---------------------------------------------------------------------
  // Properties of the window.

  predicate Increasing(xs: seq<PageItem>) {
    forall i, j :: 0 <= i < j < |xs| && xs[i].Page? && xs[j].Page? ==> xs[i].n < xs[j].n
  }

  predicate Within(xs: seq<PageItem>, lo: int, hi: int) {
    forall i :: 0 <= i < |xs| && xs[i].Page? ==> lo <= xs[i].n <= hi
  }

  /** Where each part of a window sits. */
  lemma WindowLayout(current: int, total: int, leading: bool, trailing: bool)
    ensures var w := Window(current, total, leading, trailing);
      var a := if leading then 2 else 1;
      var m := Middle(current, total);
      |w| == a + |m| + (if trailing then 2 else 1)
      && w[0] == Page(0) && w[|w| - 1] == Page(total - 1)
      && (leading ==> w[1] == Ellipsis)
      && (trailing ==> w[|w| - 2] == Ellipsis)
      && (forall k :: 0 <= k < |m| ==> w[a + k] == m[k])
      && (forall i :: 0 < i < |w| - 1 && !(a <= i < a + |m|) ==> w[i] == Ellipsis)
      && (forall i :: 0 <= i < |w| && w[i].Ellipsis? ==> (leading && i == 1) || (trailing && i == |w| - 2))
  {
    var e1: seq<PageItem> := if leading then [Ellipsis] else [];
    var e2: seq<PageItem> := if trailing then [Ellipsis] else [];
    var m := Middle(current, total);
    var w := Window(current, total, leading, trailing);
    assert w == ([Page(0)] + e1) + m + (e2 + [Page(total - 1)]);
  }

  /** Small totals show every page; a single page shows nothing else. */
  lemma SmallTotalShowsAll(current: int, total: int)
    requires total <= 7
    ensures |PageNumbers(current, total)| == Max(total, 0)
    ensures forall k :: 0 <= k < |PageNumbers(current, total)| ==> PageNumbers(current, total)[k] == Page(k)
    ensures PageNumbersAsWritten(current, total) == PageNumbers(current, total)
  {
  }

  /** Over seven pages, the first entry is page 0 and the last the last page. */
  lemma LargeTotalEnds(current: int, total: int)
    requires total > 7
    ensures var w := PageNumbersAsWritten(current, total);
      |w| >= 2 && w[0] == Page(0) && w[|w| - 1] == Page(total - 1)
    ensures var w := PageNumbers(current, total);
      |w| >= 2 && w[0] == Page(0) && w[|w| - 1] == Page(total - 1)
  {
    WindowLayout(current, total, current > 3, current < total - 4);
    WindowLayout(current, total, current > 2, current < total - 3);
  }

  /** Any window is increasing and lies within the pages. */
  lemma WindowIncreasing(current: int, total: int, leading: bool, trailing: bool)
    requires total > 7
    ensures Increasing(Window(current, total, leading, trailing))
    ensures Within(Window(current, total, leading, trailing), 0, total - 1)
  {
    var w := Window(current, total, leading, trailing);
    forall i | 0 <= i < |w| && w[i].Page?
      ensures 0 <= w[i].n <= total - 1
    {
      WindowEntry(current, total, leading, trailing, i);
    }
    forall i, j | 0 <= i < j < |w| && w[i].Page? && w[j].Page?
      ensures w[i].n < w[j].n
    {
      WindowEntry(current, total, leading, trailing, i);
      WindowEntry(current, total, leading, trailing, j);
    }
  }

  /** The page number at each page position of a window: the first page,
      the last page, or the middle run counted from its first page. */
  lemma WindowEntry(current: int, total: int, leading: bool, trailing: bool, i: int)
    requires total > 7
    requires var w := Window(current, total, leading, trailing);
      0 <= i < |w| && w[i].Page?
    ensures var w := Window(current, total, leading, trailing);
      (i == 0 ==> w[i].n == 0)
      && (i == |w| - 1 ==> w[i].n == total - 1)
      && (0 < i < |w| - 1 ==>
            1 <= w[i].n <= total - 2 && w[i].n == Max(1, current - 1) + i - (if leading then 2 else 1))
  {
    var w := Window(current, total, leading, trailing);
    var a := if leading then 2 else 1;
    var m := Middle(current, total);
    WindowLayout(current, total, leading, trailing);
    if 0 < i < |w| - 1 {
      assert w[i] == m[i - a];
    }
  }

  /** Numeric entries are strictly increasing and name existing pages. */
  lemma PageNumbersIncreasing(current: int, total: int)
    ensures Increasing(PageNumbersAsWritten(current, total))
    ensures Within(PageNumbersAsWritten(current, total), 0, total - 1)
    ensures Increasing(PageNumbers(current, total))
    ensures Within(PageNumbers(current, total), 0, total - 1)
  {
    if total > 7 {
      WindowIncreasing(current, total, current > 3, current < total - 4);
      WindowIncreasing(current, total, current > 2, current < total - 3);
    }
  }

  /** At most seven entries. */
  lemma AtMostSeven(current: int, total: int)
    ensures |PageNumbersAsWritten(current, total)| <= 7
    ensures |PageNumbers(current, total)| <= 7
  {
    if total > 7 {
      WindowLayout(current, total, current > 3, current < total - 4);
      WindowLayout(current, total, current > 2, current < total - 3);
    }
  }

  /** The current page and its neighbours appear in any window. */
  lemma WindowShowsNeighbours(current: int, total: int, leading: bool, trailing: bool)
    requires total > 7 && 0 <= current < total
    ensures Page(current) in Window(current, total, leading, trailing)
    ensures current >= 1 ==> Page(current - 1) in Window(current, total, leading, trailing)
    ensures current + 1 < total ==> Page(current + 1) in Window(current, total, leading, trailing)
  {
    var w := Window(current, total, leading, trailing);
    var a := if leading then 2 else 1;
    var m := Middle(current, total);
    var lo := Max(1, current - 1);
    WindowLayout(current, total, leading, trailing);
    forall p | current - 1 <= p <= current + 1 && 0 <= p < total
      ensures Page(p) in w
    {
      if p == 0 {
        assert w[0] == Page(p);
      } else if p == total - 1 {
        assert w[|w| - 1] == Page(p);
      } else {
        assert m[p - lo] == Page(p);
        assert w[a + (p - lo)] == Page(p);
      }
    }
  }

  /** The current page and its in-range neighbours always appear. */
  lemma PageNumbersShowCurrent(current: int, total: int)
    requires 0 <= current < total
    ensures Page(current) in PageNumbersAsWritten(current, total)
    ensures current >= 1 ==> Page(current - 1) in PageNumbersAsWritten(current, total)
    ensures current + 1 < total ==> Page(current + 1) in PageNumbersAsWritten(current, total)
    ensures Page(current) in PageNumbers(current, total)
    ensures current >= 1 ==> Page(current - 1) in PageNumbers(current, total)
    ensures current + 1 < total ==> Page(current + 1) in PageNumbers(current, total)
  {
    if total > 7 {
      WindowShowsNeighbours(current, total, current > 3, current < total - 4);
      WindowShowsNeighbours(current, total, current > 2, current < total - 3);
    } else {
      assert PageNumbers(current, total)[current] == Page(current);
      if current >= 1 {
        assert PageNumbers(current, total)[current - 1] == Page(current - 1);
      }
      if current + 1 < total {
        assert PageNumbers(current, total)[current + 1] == Page(current + 1);
      }
    }
  }

  /** Within the pages the middle is never empty. */
  lemma MiddleNonEmpty(current: int, total: int)
    requires total > 7 && 0 <= current < total
    ensures |Middle(current, total)| >= 1
    ensures Middle(current, total)[0] == Page(Max(1, current - 1))
    ensures Middle(current, total)[|Middle(current, total)| - 1] == Page(Min(total - 2, current + 1))
  {
  }

  /** As written, the leading ellipsis shows iff `current > 3` and the
      trailing one iff `current < total - 4`; nothing else is an ellipsis. */
  lemma EllipsesAsWritten(current: int, total: int)
    requires total > 7 && 0 <= current < total
    ensures var w := PageNumbersAsWritten(current, total);
      |w| >= 3
      && (w[1] == Ellipsis <==> current > 3)
      && (w[|w| - 2] == Ellipsis <==> current < total - 4)
      && forall i :: 0 <= i < |w| && w[i].Ellipsis? ==> i == 1 || i == |w| - 2
  {
    WindowLayout(current, total, current > 3, current < total - 4);
    MiddleNonEmpty(current, total);
  }

  /** Consecutive entries either name adjacent pages or are separated by
      an ellipsis that stands for at least one hidden page. */
  predicate GapsMarked(w: seq<PageItem>) {
    (forall i :: 0 <= i < |w| - 1 && w[i].Page? && w[i + 1].Page? ==> w[i + 1].n == w[i].n + 1)
    && (forall i :: 0 <= i < |w| && w[i].Ellipsis? ==>
          0 < i < |w| - 1 && w[i - 1].Page? && w[i + 1].Page? && w[i + 1].n > w[i - 1].n + 1)
  }

  /** As written, a page can go missing without an ellipsis: with ten pages
      and the fourth current, the second page is skipped silently, and with
      the seventh current, the ninth. */
  lemma AsWrittenSkipsPages()
    ensures PageNumbersAsWritten(3, 10) == [Page(0), Page(2), Page(3), Page(4), Ellipsis, Page(9)]
    ensures PageNumbersAsWritten(6, 10) == [Page(0), Ellipsis, Page(5), Page(6), Page(7), Page(9)]
    ensures !GapsMarked(PageNumbersAsWritten(3, 10))
    ensures !GapsMarked(PageNumbersAsWritten(6, 10))
  {
    assert Middle(3, 10) == [Page(2), Page(3), Page(4)];
    assert Middle(6, 10) == [Page(5), Page(6), Page(7)];
    assert PageNumbersAsWritten(3, 10)[0] == Page(0) && PageNumbersAsWritten(3, 10)[1] == Page(2);
    assert PageNumbersAsWritten(6, 10)[4] == Page(7) && PageNumbersAsWritten(6, 10)[5] == Page(9);
  }

  /** With the corrected tests every hidden run of pages is marked, and
      every ellipsis hides at least one page. */
  lemma PageNumbersMarkGaps(current: int, total: int)
    requires 0 <= current < total
    ensures GapsMarked(PageNumbers(current, total))
  {
    if total > 7 {
      WindowAdjacentPages(current, total, current > 2, current < total - 3);
      WindowEllipsesHide(current, total);
    }
  }

  /** Two numeric neighbours in a window name consecutive pages when no
      page is hidden between them. */
  lemma WindowAdjacentPages(current: int, total: int, leading: bool, trailing: bool)
    requires total > 7 && 0 <= current < total
    requires leading == (Max(1, current - 1) > 1) && trailing == (Min(total - 2, current + 1) < total - 2)
    ensures var w := Window(current, total, leading, trailing);
      forall i :: 0 <= i < |w| - 1 && w[i].Page? && w[i + 1].Page? ==> w[i + 1].n == w[i].n + 1
  {
    var w := Window(current, total, leading, trailing);
    forall i | 0 <= i < |w| - 1 && w[i].Page? && w[i + 1].Page?
      ensures w[i + 1].n == w[i].n + 1
    {
      WindowStep(current, total, leading, trailing, i);
    }
  }

  /** One step of `WindowAdjacentPages`: two neighbouring page entries. */
  lemma WindowStep(current: int, total: int, leading: bool, trailing: bool, i: int)
    requires total > 7 && 0 <= current < total
    requires leading == (Max(1, current - 1) > 1) && trailing == (Min(total - 2, current + 1) < total - 2)
    requires var w := Window(current, total, leading, trailing);
      0 <= i < |w| - 1 && w[i].Page? && w[i + 1].Page?
    ensures var w := Window(current, total, leading, trailing);
      w[i + 1].n == w[i].n + 1
  {
    var w := Window(current, total, leading, trailing);
    var a := if leading then 2 else 1;
    var m := Middle(current, total);
    WindowLayout(current, total, leading, trailing);
    MiddleNonEmpty(current, total);
    if i == 0 {
      assert w[1] == m[0];
    } else if i + 1 == |w| - 1 {
      assert w[i] == m[|m| - 1];
    } else {
      assert w[i] == m[i - a] && w[i + 1] == m[i + 1 - a];
    }
  }

  /** In the corrected window each ellipsis sits between two pages that are
      at least two apart. */
  lemma WindowEllipsesHide(current: int, total: int)
    requires total > 7 && 0 <= current < total
    ensures var w := PageNumbers(current, total);
      forall i :: 0 <= i < |w| && w[i].Ellipsis? ==>
        0 < i < |w| - 1 && w[i - 1].Page? && w[i + 1].Page? && w[i + 1].n > w[i - 1].n + 1
  {
    var leading, trailing := current > 2, current < total - 3;
    var w := PageNumbers(current, total);
    var m := Middle(current, total);
    WindowLayout(current, total, leading, trailing);
    MiddleNonEmpty(current, total);
    if leading {
      assert w[2] == m[0];
    }
    if trailing {
      assert w[|w| - 3] == m[|m| - 1];
    }
  }

  /** The ellipsis rule is the only difference: where the corrected tests
      agree with the written ones, so do the windows. */
  lemma CorrectionOnlyAtBoundaries(current: int, total: int)
    requires current != 3 && current != total - 4
    ensures PageNumbers(current, total) == PageNumbersAsWritten(current, total)
  {
  }

  // ---------------------------------------------------------------------
  // The component.

  /** The fields of `SpringBootPagination` the component reads. */
  datatype PageInfo = PageInfo(number: int, totalPages: int, first: bool, last: bool)

  /** A navigation button: whether it is enabled and the page it requests. */
  datatype NavButton = NavButton(enabled: bool, target: int)

  datatype PaginationView = PaginationView(previous: NavButton, items: seq<PageItem>, next: NavButton)

  /** The component's frame around a window of items: nothing for one page
      or fewer, otherwise Previous, the items and Next. */
  function Frame(p: PageInfo, items: seq<PageItem>): Option<PaginationView> {
    if p.totalPages <= 1 then None
    else Some(PaginationView(NavButton(!p.first, p.number - 1), items, NavButton(!p.last, p.number + 1)))
  }

  /** The component as written: nothing for one page or fewer, otherwise
      Previous, the window of `getPageNumbers` with its `current > 3` and
      `current < total - 4` tests, and Next. Previous requests `number - 1`
      unless `first`, Next requests `number + 1` unless `last`. */
  function Render(p: PageInfo): (v: Option<PaginationView>)
    ensures v.None? <==> p.totalPages <= 1
    ensures v.Some? ==>
      (v.value.previous.enabled <==> !p.first) && v.value.previous.target == p.number - 1
      && (v.value.next.enabled <==> !p.last) && v.value.next.target == p.number + 1
      && v.value.items == PageNumbersAsWritten(p.number, p.totalPages)
  {
    Frame(p, PageNumbersAsWritten(p.number, p.totalPages))
  }

  /** The component with the corrected ellipsis tests: it differs from
      `Render` only in the window, and only on the boundary pages. */
  function RenderFixed(p: PageInfo): (v: Option<PaginationView>)
    ensures v.None? <==> p.totalPages <= 1
    ensures v.Some? ==>
      (v.value.previous.enabled <==> !p.first) && v.value.previous.target == p.number - 1
      && (v.value.next.enabled <==> !p.last) && v.value.next.target == p.number + 1
      && v.value.items == PageNumbers(p.number, p.totalPages)
    ensures v.Some? && 0 <= p.number < p.totalPages ==> GapsMarked(v.value.items)
    ensures p.number != 3 && p.number != p.totalPages - 4 ==> v == Render(p)
  {
    assert 0 <= p.number < p.totalPages ==> GapsMarked(PageNumbers(p.number, p.totalPages)) by {
      if 0 <= p.number < p.totalPages {
        PageNumbersMarkGaps(p.number, p.totalPages);
      }
    }
    Frame(p, PageNumbers(p.number, p.totalPages))
  }

  /** `first` and `last` as Spring computes them for a page in range. */
  predicate Consistent(p: PageInfo) {
    0 <= p.number < p.totalPages && p.first == (p.number == 0) && p.last == (p.number == p.totalPages - 1)
  }

  /** Every request the component can make names an existing page, and the
      current page is among the items, as written and corrected alike. */
  lemma RequestsStayInRange(p: PageInfo)
    requires Consistent(p)
    ensures var v := Render(p);
      v.Some? ==>
        (v.value.previous.enabled ==> 0 <= v.value.previous.target < p.totalPages)
        && (v.value.next.enabled ==> 0 <= v.value.next.target < p.totalPages)
        && Within(v.value.items, 0, p.totalPages - 1)
        && Page(p.number) in v.value.items
    ensures var v := RenderFixed(p);
      v.Some? ==>
        (v.value.previous.enabled ==> 0 <= v.value.previous.target < p.totalPages)
        && (v.value.next.enabled ==> 0 <= v.value.next.target < p.totalPages)
        && Within(v.value.items, 0, p.totalPages - 1)
        && Page(p.number) in v.value.items
  {
    PageNumbersIncreasing(p.number, p.totalPages);
    PageNumbersShowCurrent(p.number, p.totalPages);
  }
}
