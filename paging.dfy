/**
 * Pagination arithmetic shared by the table pages: the page count, the
 * "Showing X to Y" range and the row of page buttons, which the creator,
 * content and channel tables each build with the same code.
 */
module Paging {

  /** One entry of the page-button row: a page number or a "..." gap. */
  datatype Item = Num(page: int) | Ellipsis

  /** The buttons `lo, lo+1, ..., hi` (none when `hi < lo`). */
  function Numbers(lo: int, hi: int): seq<Item>
  {
    if hi < lo then [] else seq(hi - lo + 1, i requires 0 <= i <= hi - lo => Num(lo + i))
  }

  /** A run of buttons splits at any point into the run before it and the run after it. */
  lemma NumbersSplit(lo: int, m: int, hi: int)
    requires lo - 1 <= m <= hi
    ensures Numbers(lo, hi) == Numbers(lo, m) + Numbers(m + 1, hi)
  {
    var left, right := Numbers(lo, m), Numbers(m + 1, hi);
    assert |Numbers(lo, hi)| == |left| + |right|;
    forall i | 0 <= i < |left| + |right| ensures Numbers(lo, hi)[i] == (left + right)[i] {
      if i >= |left| {
        assert (left + right)[i] == right[i - |left|];
      }
    }
  }

  /** Pushing the next page onto a run extends it by that page. */
  lemma NumbersPush(lo: int, hi: int)
    requires lo - 1 <= hi
    ensures Numbers(lo, hi + 1) == Numbers(lo, hi) + [Num(hi + 1)]
  {
    NumbersSplit(lo, hi, hi + 1);
  }

  /**
   * The page-button row for `totalPages` pages with `currentPage` (1-based)
   * shown: every page when there are at most 7, otherwise seven entries
   * around the current page with "..." standing for the pages left out.
   */
  function PageWindow(totalPages: int, currentPage: int): seq<Item>
  {
    if totalPages <= 7 then Numbers(1, totalPages)
    else if currentPage <= 4 then
      [Num(1), Num(2), Num(3), Num(4), Num(5), Ellipsis, Num(totalPages)]
    else if currentPage >= totalPages - 3 then
      [Num(1), Ellipsis, Num(totalPages - 4), Num(totalPages - 3),
       Num(totalPages - 2), Num(totalPages - 1), Num(totalPages)]
    else
      [Num(1), Ellipsis, Num(currentPage - 1), Num(currentPage),
       Num(currentPage + 1), Ellipsis, Num(totalPages)]
  }

  /** Builds the row by pushing entries, as the pages do. */
  method BuildPageWindow(totalPages: int, currentPage: int) returns (pages: seq<Item>)
    ensures pages == PageWindow(totalPages, currentPage)
  {
    pages := [];
    if totalPages <= 7 {
      var i := 1;
      while i <= totalPages
        invariant 1 <= i <= (if totalPages < 0 then 1 else totalPages + 1)
        invariant pages == Numbers(1, i - 1)
      {
        NumbersPush(1, i - 1);
        pages := pages + [Num(i)];
        i := i + 1;
      }
      assert i - 1 == totalPages || (totalPages < 0 && i == 1);
    } else if currentPage <= 4 {
      pages := pages + [Num(1), Num(2), Num(3), Num(4), Num(5), Ellipsis, Num(totalPages)];
    } else if currentPage >= totalPages - 3 {
      pages := pages + [Num(1), Ellipsis, Num(totalPages - 4), Num(totalPages - 3),
                        Num(totalPages - 2), Num(totalPages - 1), Num(totalPages)];
    } else {
      pages := pages + [Num(1), Ellipsis, Num(currentPage - 1), Num(currentPage),
                        Num(currentPage + 1), Ellipsis, Num(totalPages)];
    }
  }

  /** With at most seven pages the row is exactly `1..totalPages`. */
  lemma WindowSmall(totalPages: int, currentPage: int)
    requires totalPages <= 7
    ensures var w := PageWindow(totalPages, currentPage);
      |w| == (if totalPages < 0 then 0 else totalPages) &&
      forall i :: 0 <= i < |w| ==> w[i] == Num(i + 1)
  {
  }

  /**
   * With more than seven pages the row has seven entries, starts at page 1,
   * ends at the last page and shows the current page.
   */
  lemma WindowLarge(totalPages: int, currentPage: int)
    requires totalPages > 7
    ensures var w := PageWindow(totalPages, currentPage);
      && |w| == 7 && w[0] == Num(1) && w[6] == Num(totalPages)
      && (1 <= currentPage <= totalPages ==> Num(currentPage) in w)
  {
    var w := PageWindow(totalPages, currentPage);
    if 1 <= currentPage <= totalPages {
      if currentPage <= 4 {
        assert w[currentPage - 1] == Num(currentPage);
      } else if currentPage >= totalPages - 3 {
        assert w[currentPage - totalPages + 6] == Num(currentPage);
      } else {
        assert w[3] == Num(currentPage);
      }
    }
  }

  /** The numbered entries strictly increase from left to right. */
  lemma WindowIncreasing(totalPages: int, currentPage: int)
    ensures var w := PageWindow(totalPages, currentPage);
      forall i, j :: 0 <= i < j < |w| && w[i].Num? && w[j].Num? ==> w[i].page < w[j].page
  {
  }

  /** Every numbered entry is a real page, `1..totalPages`. */
  lemma WindowInRange(totalPages: int, currentPage: int)
    ensures var w := PageWindow(totalPages, currentPage);
      forall i :: 0 <= i < |w| && w[i].Num? ==> 1 <= w[i].page <= totalPages
  {
  }

  /**
   * Neighbouring numbers are consecutive pages, and every "..." sits between
   * two numbers with at least one page missing between them.
   */
  lemma WindowGaps(totalPages: int, currentPage: int)
    ensures var w := PageWindow(totalPages, currentPage);
      && (forall i :: 0 <= i < |w| - 1 && w[i].Num? && w[i + 1].Num? ==>
            w[i + 1].page == w[i].page + 1)
      && (forall i :: 0 <= i < |w| && w[i].Ellipsis? ==>
            0 < i < |w| - 1 && w[i - 1].Num? && w[i + 1].Num? &&
            w[i + 1].page >= w[i - 1].page + 2)
  {
  }

  /** `Math.ceil(n / d)` for a positive divisor. */
  function CeilDiv(n: int, d: int): (r: int)
    requires d > 0
  {
    -((-n) / d)
  }

  /** `CeilDiv(n, d)` is the least `r` with `n <= r * d`. */
  lemma CeilDivBounds(n: int, d: int)
    requires d > 0
    ensures (CeilDiv(n, d) - 1) * d < n <= CeilDiv(n, d) * d
  {
    var q := (-n) / d;
    var m := (-n) % d;
    assert -n == q * d + m && 0 <= m < d;
    assert CeilDiv(n, d) == -q;
    assert -q * d == n + m;
    assert (-q - 1) * d == n + m - d;
  }

  /** No rows, no pages; a non-empty list needs at least one page. */
  lemma CeilDivSign(n: int, d: int)
    requires d > 0
    ensures n == 0 ==> CeilDiv(n, d) == 0
    ensures n > 0 ==> CeilDiv(n, d) >= 1
    ensures n >= 0 ==> CeilDiv(n, d) >= 0
  {
    var r := CeilDiv(n, d);
    CeilDivBounds(n, d);
    assert r <= 0 ==> r * d <= 0;
    assert r < 0 ==> r * d < 0;
    assert r >= 1 ==> (r - 1) * d >= 0;
  }

  /** The "Showing start to end of total" numbers of the server-paged table. */
  function ShowingRange(pageIndex: nat, pageSize: nat, total: int): (r: (int, int))
  {
    (Min(pageIndex * pageSize + 1, total), Min((pageIndex + 1) * pageSize, total))
  }

  function Min(a: int, b: int): int { if a <= b then a else b }

  /** The range is well ordered and never passes the total. */
  lemma ShowingRangeOrdered(pageIndex: nat, pageSize: nat, total: int)
    requires pageSize > 0
    ensures var (start, end) := ShowingRange(pageIndex, pageSize, total);
      start <= end <= total
  {
    assert pageIndex * pageSize + 1 <= (pageIndex + 1) * pageSize;
  }

  /**
   * On an existing page of a non-empty listing the range starts at the
   * page's first row and covers between one and `pageSize` rows.
   */
  lemma ShowingRangeOnPage(pageIndex: nat, pageSize: nat, total: int)
    requires pageSize > 0 && total > 0
    requires pageIndex < CeilDiv(total, pageSize)
    ensures var (start, end) := ShowingRange(pageIndex, pageSize, total);
      start == pageIndex * pageSize + 1 && 1 <= end - start + 1 <= pageSize
  {
    CeilDivBounds(total, pageSize);
    assert (pageIndex + 1) * pageSize <= CeilDiv(total, pageSize) * pageSize;
    assert pageIndex * pageSize == (pageIndex + 1) * pageSize - pageSize;
    assert pageIndex * pageSize < total;
  }
}
