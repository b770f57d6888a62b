/**
 * The pagination bar (src/components/ui/Pagination.tsx): the strip of page
 * buttons with ellipsis compression, the "showing X to Y" range, and when
 * the previous/next buttons are disabled.
 */
module Pagination {

  datatype PageItem = Page(number: int) | Ellipsis

  /** Page(lo), Page(lo + 1), ..., Page(hi); empty when hi < lo. */
  function Run(lo: int, hi: int): (r: seq<PageItem>)
    ensures |r| == if hi < lo then 0 else hi - lo + 1
    ensures forall i :: 0 <= i < |r| ==> r[i] == Page(lo + i)
  {
    if hi < lo then [] else seq(hi - lo + 1, i requires 0 <= i < hi - lo + 1 => Page(lo + i))
  }

  lemma RunSnoc(lo: int, hi: int)
    requires lo <= hi + 1
    ensures Run(lo, hi + 1) == Run(lo, hi) + [Page(hi + 1)]
  {
    var a, b := Run(lo, hi + 1), Run(lo, hi) + [Page(hi + 1)];
    assert |a| == |b|;
    forall i | 0 <= i < |a| ensures a[i] == b[i] {
    }
  }

  /**
   * The strip getPageNumbers returns: every page when there are at most
   * seven, otherwise seven slots: the first five pages, the last five pages,
   * or the current page and its two neighbours, with the first and the last
   * page and an ellipsis for each elided stretch.
   */
  function PageStrip(current: int, total: int): seq<PageItem>
  {
    if total <= 7 then Run(1, total)
    else if current <= 4 then Run(1, 5) + [Ellipsis, Page(total)]
    else if current >= total - 3 then [Page(1), Ellipsis] + Run(total - 4, total)
    else [Page(1), Ellipsis] + Run(current - 1, current + 1) + [Ellipsis, Page(total)]
  }

  /** getPageNumbers: pushes the strip's entries one by one, as the source's
      loops do. */
  method GetPageNumbers(currentPage: int, totalPages: int) returns (pages: seq<PageItem>)
    ensures pages == PageStrip(currentPage, totalPages)
  {
    pages := [];
    var showEllipsis := totalPages > 7;
    if !showEllipsis {
      var i := 1;
      while i <= totalPages
        invariant 1 <= i <= (if totalPages >= 1 then totalPages + 1 else 1)
        invariant pages == Run(1, i - 1)
      {
        RunSnoc(1, i - 1);
        pages := pages + [Page(i)];
        i := i + 1;
      }
    } else if currentPage <= 4 {
      var i := 1;
      while i <= 5
        invariant 1 <= i <= 6
        invariant pages == Run(1, i - 1)
      {
        RunSnoc(1, i - 1);
        pages := pages + [Page(i)];
        i := i + 1;
      }
      pages := pages + [Ellipsis];
      pages := pages + [Page(totalPages)];
      assert pages == Run(1, 5) + [Ellipsis, Page(totalPages)];
    } else if currentPage >= totalPages - 3 {
      pages := pages + [Page(1)];
      pages := pages + [Ellipsis];
      var i := totalPages - 4;
      while i <= totalPages
        invariant totalPages - 4 <= i <= totalPages + 1
        invariant pages == [Page(1), Ellipsis] + Run(totalPages - 4, i - 1)
      {
        RunSnoc(totalPages - 4, i - 1);
        pages := pages + [Page(i)];
        i := i + 1;
      }
    } else {
      pages := pages + [Page(1)];
      pages := pages + [Ellipsis];
      var i := currentPage - 1;
      while i <= currentPage + 1
        invariant currentPage - 1 <= i <= currentPage + 2
        invariant pages == [Page(1), Ellipsis] + Run(currentPage - 1, i - 1)
      {
        RunSnoc(currentPage - 1, i - 1);
        pages := pages + [Page(i)];
        i := i + 1;
      }
      pages := pages + [Ellipsis];
      pages := pages + [Page(totalPages)];
      assert pages == [Page(1), Ellipsis] + Run(currentPage - 1, currentPage + 1) + [Ellipsis, Page(totalPages)];
    }
  }

  /** Page numbers strictly increase from left to right. */
  predicate Increasing(s: seq<PageItem>) {
    forall i, j :: 0 <= i < j < |s| && s[i].Page? && s[j].Page? ==> s[i].number < s[j].number
  }

  predicate WithinRange(s: seq<PageItem>, total: int) {
    forall i :: 0 <= i < |s| && s[i].Page? ==> 1 <= s[i].number <= total
  }

  /** Every ellipsis sits between two page numbers that are not adjacent, so
      it always stands for at least one hidden page. */
  predicate EllipsesHidePages(s: seq<PageItem>) {
    forall i :: 0 <= i < |s| && s[i].Ellipsis? ==>
      0 < i < |s| - 1 && s[i - 1].Page? && s[i + 1].Page? && s[i + 1].number - s[i - 1].number > 1
  }

  predicate NoEllipsis(s: seq<PageItem>) {
    forall i :: 0 <= i < |s| ==> s[i].Page?
  }

  /** Up to seven pages: every page, 1 to totalPages, nothing elided; none at
      all when totalPages <= 0. */
  lemma SmallStripListsEveryPage(current: int, total: int)
    requires total <= 7
    ensures var s := PageStrip(current, total);
      && |s| == (if total <= 0 then 0 else total)
      && (forall i :: 0 <= i < |s| ==> s[i] == Page(i + 1))
      && NoEllipsis(s) && Increasing(s) && WithinRange(s, total)
  {
  }

  /** Seven slots, first page first and last page last, every check at once. */
  predicate SevenSlots(s: seq<PageItem>, total: int) {
    && |s| == 7 && s[0] == Page(1) && s[6] == Page(total)
    && Increasing(s) && WithinRange(s, total) && EllipsesHidePages(s)
  }

  lemma FirstFiveWellFormed(total: int)
    requires total > 7
    ensures SevenSlots([Page(1), Page(2), Page(3), Page(4), Page(5), Ellipsis, Page(total)], total)
  {
  }

  lemma LastFiveWellFormed(total: int)
    requires total > 7
    ensures SevenSlots([Page(1), Ellipsis, Page(total - 4), Page(total - 3), Page(total - 2), Page(total - 1), Page(total)], total)
  {
  }

  lemma MiddleWellFormed(current: int, total: int)
    requires 4 < current < total - 3
    ensures SevenSlots([Page(1), Ellipsis, Page(current - 1), Page(current), Page(current + 1), Ellipsis, Page(total)], total)
  {
  }

  /** More than seven pages: exactly seven slots, first page first, last page
      last, numbers increasing within range, each ellipsis hiding pages. */
  lemma {:induction false} LargeStripWellFormed(current: int, total: int)
    requires total > 7
    ensures var s := PageStrip(current, total);
      && |s| == 7 && s[0] == Page(1) && s[6] == Page(total)
      && Increasing(s) && WithinRange(s, total) && EllipsesHidePages(s)
  {
    var s := PageStrip(current, total);
    if current <= 4 {
      assert s == [Page(1), Page(2), Page(3), Page(4), Page(5), Ellipsis, Page(total)];
      FirstFiveWellFormed(total);
    } else if current >= total - 3 {
      assert s == [Page(1), Ellipsis, Page(total - 4), Page(total - 3), Page(total - 2), Page(total - 1), Page(total)];
      LastFiveWellFormed(total);
    } else {
      assert s == [Page(1), Ellipsis, Page(current - 1), Page(current), Page(current + 1), Ellipsis, Page(total)];
      MiddleWellFormed(current, total);
    }
  }

  /** The current page, when it is a real page, is always on the strip. */
  lemma {:induction false} CurrentPageVisible(current: int, total: int)
    requires 1 <= current <= total
    ensures Page(current) in PageStrip(current, total)
  {
    var s := PageStrip(current, total);
    if total <= 7 {
      assert s[current - 1] == Page(current);
    } else if current <= 4 {
      assert s[current - 1] == Page(current);
    } else if current >= total - 3 {
      assert s[current - total + 6] == Page(current);
    } else {
      assert s[3] == Page(current);
    }
  }

  // ---------------------------------------------------------------------
  // "Mostrando X a Y de Z resultados" (Pagination.tsx:51-52)

  function StartItem(currentPage: int, itemsPerPage: int): int {
    (currentPage - 1) * itemsPerPage + 1
  }

  function EndItem(currentPage: int, itemsPerPage: int, totalItems: int): int {
    if currentPage * itemsPerPage < totalItems then currentPage * itemsPerPage else totalItems
  }

  /**
   * On a page that holds at least one item the range shown is a non-empty
   * stretch of at most one page of items, inside 1..totalItems, and it has
   * exactly as many items as that page holds.
   */
  lemma ShownRangeIsThePage(currentPage: int, itemsPerPage: int, totalItems: int)
    requires itemsPerPage > 0 && currentPage >= 1
    requires (currentPage - 1) * itemsPerPage < totalItems
    ensures 1 <= StartItem(currentPage, itemsPerPage)
    ensures StartItem(currentPage, itemsPerPage) <= EndItem(currentPage, itemsPerPage, totalItems) <= totalItems
    ensures var shown := EndItem(currentPage, itemsPerPage, totalItems) - StartItem(currentPage, itemsPerPage) + 1;
      var left := totalItems - (currentPage - 1) * itemsPerPage;
      shown == if left < itemsPerPage then left else itemsPerPage
  {
    var before := (currentPage - 1) * itemsPerPage;
    assert currentPage * itemsPerPage == before + itemsPerPage;
    assert before >= 0;
  }

  /** For an empty result the source shows "1 a 0 de 0": a range whose start
      lies past its end. */
  lemma EmptyResultShowsInvertedRange(itemsPerPage: int)
    requires itemsPerPage > 0
    ensures StartItem(1, itemsPerPage) == 1 && EndItem(1, itemsPerPage, 0) == 0
  {
  }

  /** The evidently intended start: 0 when there is nothing to show. */
  function StartItemCorrected(currentPage: int, itemsPerPage: int, totalItems: int): (r: int)
    requires itemsPerPage > 0 && currentPage >= 1
    ensures totalItems <= 0 ==> r == 0
  {
    if totalItems <= 0 then 0 else StartItem(currentPage, itemsPerPage)
  }

  /** With the correction the range is never inverted, empty result included. */
  lemma CorrectedRangeNeverInverted(currentPage: int, itemsPerPage: int, totalItems: int)
    requires itemsPerPage > 0 && currentPage >= 1 && totalItems >= 0
    requires totalItems == 0 || (currentPage - 1) * itemsPerPage < totalItems
    ensures StartItemCorrected(currentPage, itemsPerPage, totalItems) <= EndItem(currentPage, itemsPerPage, totalItems)
  {
    if totalItems > 0 {
      ShownRangeIsThePage(currentPage, itemsPerPage, totalItems);
    } else {
      assert currentPage * itemsPerPage >= 0;
    }
  }

  // ---------------------------------------------------------------------
  // Previous / next buttons (Pagination.tsx:63, 94)

  function PrevDisabled(currentPage: int): bool {
    currentPage == 1
  }

  function NextDisabled(currentPage: int, totalPages: int): bool {
    currentPage == totalPages
  }

  /** Within 1..totalPages a button is enabled exactly when the page it
      leads to exists. */
  lemma ButtonsEnabledIffTargetExists(currentPage: int, totalPages: int)
    requires 1 <= currentPage <= totalPages
    ensures !PrevDisabled(currentPage) <==> 1 <= currentPage - 1
    ensures !NextDisabled(currentPage, totalPages) <==> currentPage + 1 <= totalPages
  {
  }
}
