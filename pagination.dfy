/**
 * The page-number strip of the pager component: which page buttons and ellipses are shown
 * for the current page and the total page count, and when the bar and its previous/next
 * buttons are shown or disabled.
 */
module Pagination {
  import opened Wrappers

  /** How many entries a strip may hold before it is shortened with ellipses. */
  const MaxButtons := 7

  datatype Entry = Page(n: int) | Ellipsis

  function Max(a: int, b: int): int { if a >= b then a else b }
  function Min(a: int, b: int): int { if a <= b then a else b }

  /** The page buttons lo, lo+1, ..., hi (none when hi < lo). */
  function Span(lo: int, hi: int): (r: seq<Entry>)
    ensures |r| == if hi >= lo then hi - lo + 1 else 0
    ensures forall k :: 0 <= k < |r| ==> r[k] == Page(lo + k)
    decreases hi - lo
  {
    if lo > hi then [] else [Page(lo)] + Span(lo + 1, hi)
  }

  /** The strip as the component lays it out: all pages when there are at most seven,
      otherwise the first page, an optional ellipsis, the current page with its neighbours
      (kept away from the first and last page), an optional ellipsis, and the last page. */
  function Strip(current: int, total: int): seq<Entry> {
    if total <= MaxButtons then Span(1, total)
    else
      [Page(1)]
      + (if current > 4 then [Ellipsis] else [])
      + Span(Max(2, current - 1), Min(total - 1, current + 1))
      + (if current < total - 3 then [Ellipsis] else [])
      + [Page(total)]
  }

  /** `getPageNumbers`, building the strip by appending entries as the component does. */
  method GetPageNumbers(current: int, total: int) returns (pages: seq<Entry>)
    ensures pages == Strip(current, total)
  {
    if total <= MaxButtons {
      return Span(1, total);
    }
    pages := [Page(1)];
    if current > 4 {
      pages := pages + [Ellipsis];
    }
    var start := Max(2, current - 1);
    var end := Min(total - 1, current + 1);
    ghost var head := pages;
    var i := start;
    while i <= end
      invariant start <= i <= Max(start, end + 1)
      invariant pages == head + Span(start, i - 1)
    {
      pages := pages + [Page(i)];
      i := i + 1;
    }
    if current < total - 3 {
      pages := pages + [Ellipsis];
    }
    if total > 1 {
      pages := pages + [Page(total)];
    }
  }

  /** The page numbers of a strip, in order, are strictly increasing. */
  ghost predicate Increasing(s: seq<Entry>) {
    forall i, j :: 0 <= i < j < |s| && s[i].Page? && s[j].Page? ==> s[i].n < s[j].n
  }

  /** For every current page: at most seven entries, every page number within 1..total,
      numbers strictly increasing. */
  lemma StripShape(current: int, total: int)
    ensures |Strip(current, total)| <= MaxButtons
    ensures forall k :: 0 <= k < |Strip(current, total)| && Strip(current, total)[k].Page? ==>
      1 <= Strip(current, total)[k].n <= total
    ensures Increasing(Strip(current, total))
  {
    var s := Strip(current, total);
    if total > MaxButtons {
      var lead := if current > 4 then [Ellipsis] else [];
      var mid := Span(Max(2, current - 1), Min(total - 1, current + 1));
      var trail := if current < total - 3 then [Ellipsis] else [];
      assert s == [Page(1)] + lead + mid + trail + [Page(total)];
      var m := 1 + |lead|;
      assert forall k :: 0 < k < m ==> s[k] == Ellipsis;
      assert forall k :: m <= k < m + |mid| ==> s[k] == mid[k - m];
      assert forall k :: m + |mid| <= k < |s| - 1 ==> s[k] == Ellipsis;
    }
  }

  /** With seven pages or fewer, every page has its button and there is no ellipsis. */
  lemma SmallStripIsAllPages(current: int, total: int)
    requires 0 <= total <= MaxButtons
    ensures |Strip(current, total)| == total
    ensures forall k :: 0 <= k < total ==> Strip(current, total)[k] == Page(k + 1)
    ensures Ellipsis !in Strip(current, total)
  {
  }

  /** With more than seven pages the strip starts at page 1 and ends at the last page. */
  lemma LargeStripEnds(current: int, total: int)
    requires total > MaxButtons
    ensures |Strip(current, total)| >= 2
    ensures Strip(current, total)[0] == Page(1)
    ensures Strip(current, total)[|Strip(current, total)| - 1] == Page(total)
  {
  }

  /** Which pages between the first and the last get a button: exactly the current page
      and its two neighbours. */
  lemma {:induction false} LargeStripPages(current: int, total: int, n: int)
    requires total > MaxButtons && 1 < n < total
    ensures Page(n) in Strip(current, total) <==> current - 1 <= n <= current + 1
  {
    var lead := if current > 4 then [Ellipsis] else [];
    var mid := Span(Max(2, current - 1), Min(total - 1, current + 1));
    var trail := if current < total - 3 then [Ellipsis] else [];
    var s := [Page(1)] + lead + mid + trail + [Page(total)];
    assert Strip(current, total) == s;
    var m := 1 + |lead|;
    assert forall k :: 0 < k < m ==> s[k] == Ellipsis;
    assert forall k :: m <= k < m + |mid| ==> s[k] == mid[k - m];
    assert forall k :: m + |mid| <= k < |s| - 1 ==> s[k] == Ellipsis;
    if current - 1 <= n <= current + 1 {
      var lo := Max(2, current - 1);
      assert mid[n - lo] == Page(n);
      assert s[1 + |lead| + n - lo] == Page(n);
    }
  }

  /** For a current page within 1..total, the strip shows the current page. */
  lemma StripHasCurrent(current: int, total: int)
    requires 1 <= current <= total
    ensures Page(current) in Strip(current, total)
  {
    if total <= MaxButtons {
      assert Strip(current, total)[current - 1] == Page(current);
    } else if current == 1 || current == total {
      LargeStripEnds(current, total);
    } else {
      LargeStripPages(current, total, current);
    }
  }

  /** For a current page within 1..total of more than seven pages: the second entry is an
      ellipsis exactly when current > 4, the second to last exactly when current < total - 3. */
  lemma LargeStripEllipses(current: int, total: int)
    requires total > MaxButtons && 1 <= current <= total
    ensures var s := Strip(current, total);
      (s[1] == Ellipsis <==> current > 4) && (s[|s| - 2] == Ellipsis <==> current < total - 3)
  {
    var mid := Span(Max(2, current - 1), Min(total - 1, current + 1));
    assert |mid| >= 1;
  }

  /** An ellipsis always stands for at least one page that has no button: it sits between
      two page numbers that differ by more than one. */
  lemma EllipsisHidesPages(current: int, total: int, k: int)
    requires total > MaxButtons && 1 <= current <= total
    requires 0 <= k < |Strip(current, total)| && Strip(current, total)[k] == Ellipsis
    ensures 0 < k < |Strip(current, total)| - 1
    ensures Strip(current, total)[k - 1].Page? && Strip(current, total)[k + 1].Page?
    ensures Strip(current, total)[k + 1].n - Strip(current, total)[k - 1].n >= 2
  {
    var lead := if current > 4 then [Ellipsis] else [];
    var mid := Span(Max(2, current - 1), Min(total - 1, current + 1));
    var trail := if current < total - 3 then [Ellipsis] else [];
    var s := [Page(1)] + lead + mid + trail + [Page(total)];
    assert Strip(current, total) == s;
    assert |mid| >= 1;
    if k < 1 + |lead| + |mid| {
      assert k == 1 && current > 4;
      assert s[2] == mid[0];
    } else {
      assert k == 1 + |lead| + |mid| && current < total - 3;
      assert s[k - 1] == mid[|mid| - 1];
    }
  }

  /** The converse does not hold: a hidden page can be left without an ellipsis. With
      eight pages and page 5 current, page 7 has neither a button nor an ellipsis; with ten
      pages and page 4 current, page 2 has neither. */
  lemma HiddenPageWithoutEllipsis()
    ensures Strip(5, 8) == [Page(1), Ellipsis, Page(4), Page(5), Page(6), Page(8)]
    ensures Strip(4, 10) == [Page(1), Page(3), Page(4), Page(5), Ellipsis, Page(10)]
  {
  }

  /** The rendered bar: previous button state, the strip, next button state. */
  datatype Bar = Bar(prevDisabled: bool, entries: seq<Entry>, nextDisabled: bool)

  /** The component: nothing for one page or fewer; otherwise the bar, with "previous"
      disabled on the first page and "next" disabled on the last. */
  function Render(page: int, totalPages: int): (r: Option<Bar>)
    ensures r.None? <==> totalPages <= 1
    ensures r.Some? ==> r.value.entries == Strip(page, totalPages)
    ensures r.Some? ==> (r.value.prevDisabled <==> page <= 1)
    ensures r.Some? ==> (r.value.nextDisabled <==> page >= totalPages)
  {
    if totalPages <= 1 then None
    else Some(Bar(page <= 1, Strip(page, totalPages), page >= totalPages))
  }

  /** On a shown bar whose page is within range, exactly one button is highlighted as the
      current page. */
  lemma OneActiveButton(page: int, totalPages: int)
    requires 1 <= page <= totalPages && totalPages > 1
    ensures Render(page, totalPages).Some?
    ensures var s := Render(page, totalPages).value.entries;
      exists k :: 0 <= k < |s| && s[k] == Page(page)
        && forall j :: 0 <= j < |s| && s[j] == Page(page) ==> j == k
  {
    var s := Strip(page, totalPages);
    StripHasCurrent(page, totalPages);
    StripShape(page, totalPages);
    var k :| 0 <= k < |s| && s[k] == Page(page);
    assert forall j :: 0 <= j < |s| && s[j] == Page(page) ==> j == k;
  }
}
