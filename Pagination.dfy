/**
 * Paging of the filtered list: the slice that `renderPrograms` shows
 * (static/script.js lines 78-79) and the numbered buttons that
 * `renderPagination` builds (lines 199-217), ten programs to a page.
 */
module Pagination {

  /** `itemsPerPage`. */
  const ItemsPerPage: nat := 10

  function Min(a: int, b: int): int { if a < b then a else b }

  /** How `Array.prototype.slice` resolves an index argument against the length. */
  function RelativeIndex(k: int, len: nat): (r: nat)
    ensures r <= len
  {
    if k < 0 then (if len + k < 0 then 0 else len + k)
    else if k > len then len
    else k
  }

  /** `s.slice(start, end)` for integer arguments: it never fails, and may be empty. */
  function JsSlice<T>(s: seq<T>, start: int, end: int): (r: seq<T>)
    ensures RelativeIndex(start, |s|) + |r| <= |s|
    ensures |r| == if RelativeIndex(start, |s|) < RelativeIndex(end, |s|)
                   then RelativeIndex(end, |s|) - RelativeIndex(start, |s|) else 0
    ensures forall i :: 0 <= i < |r| ==> r[i] == s[RelativeIndex(start, |s|) + i]
  {
    var from := RelativeIndex(start, |s|);
    var to := RelativeIndex(end, |s|);
    if from < to then s[from..to] else []
  }

  /** The programs shown on page `page`, for any value of `page`. */
  function PageSlice<T>(items: seq<T>, page: int): (r: seq<T>)
    ensures |r| <= ItemsPerPage
  {
    var start := (page - 1) * ItemsPerPage;
    JsSlice(items, start, start + ItemsPerPage)
  }

  /** `Math.ceil(count / itemsPerPage)`: the fewest pages that hold `count` programs. */
  function TotalPages(count: nat): (t: nat)
    ensures t * ItemsPerPage >= count
    ensures t == 0 || (t - 1) * ItemsPerPage < count
  {
    (count + ItemsPerPage - 1) / ItemsPerPage
  }

  /**
   * From page 1 on, the page is the stretch of ten programs that starts at
   * `(page - 1) * 10`, cut short at the end of the list, and empty once the
   * start is at or past the end.
   */
  lemma PageSliceFromStart<T>(items: seq<T>, page: int)
    requires page >= 1
    ensures var start := (page - 1) * ItemsPerPage;
            PageSlice(items, page) ==
              if start < |items| then items[start..Min(start + ItemsPerPage, |items|)] else []
  {
  }

  /**
   * Every page in range is non-empty; the ones before the last hold ten
   * programs, and the last holds what is left over.
   */
  lemma PageSize<T>(items: seq<T>, page: int)
    requires 1 <= page <= TotalPages(|items|)
    ensures |PageSlice(items, page)| == Min(ItemsPerPage, |items| - (page - 1) * ItemsPerPage)
    ensures 0 < |PageSlice(items, page)|
    ensures page < TotalPages(|items|) ==> |PageSlice(items, page)| == ItemsPerPage
  {
    PageSliceFromStart(items, page);
  }

  /** The last page holds `count - (totalPages - 1) * 10` programs. */
  lemma LastPageSize<T>(items: seq<T>)
    requires |items| > 0
    ensures |PageSlice(items, TotalPages(|items|))| == |items| - (TotalPages(|items|) - 1) * ItemsPerPage
  {
    PageSize(items, TotalPages(|items|));
  }

  /** Program `i` of the list is item `i % 10` of page `i / 10 + 1`. */
  lemma PageOfIndex<T>(items: seq<T>, i: int)
    requires 0 <= i < |items|
    ensures 1 <= i / ItemsPerPage + 1 <= TotalPages(|items|)
    ensures i % ItemsPerPage < |PageSlice(items, i / ItemsPerPage + 1)|
    ensures PageSlice(items, i / ItemsPerPage + 1)[i % ItemsPerPage] == items[i]
  {
    PageSliceFromStart(items, i / ItemsPerPage + 1);
  }

  /** One pagination button: its number and whether it carries the `active` class. */
  datatype PageButton = PageButton(number: nat, active: bool)

  /** The buttons `renderPagination` appends, none when there is at most one page. */
  function PaginationButtons(count: nat, current: int): seq<PageButton>
  {
    var total := TotalPages(count);
    if total <= 1 then [] else seq(total, k requires 0 <= k < total => PageButton(k + 1, k + 1 == current))
  }

  function ButtonNumbers(buttons: seq<PageButton>): set<nat>
  {
    set k | 0 <= k < |buttons| :: buttons[k].number
  }

  function ActiveNumbers(buttons: seq<PageButton>): set<nat>
  {
    set k | 0 <= k < |buttons| && buttons[k].active :: buttons[k].number
  }

  /**
   * With two or more pages there is one button per page, numbered 1 to
   * `totalPages` in increasing order; with fewer there is none.
   */
  lemma ButtonsNumberThePages(count: nat, current: int)
    ensures var bs := PaginationButtons(count, current);
            |bs| == (if TotalPages(count) <= 1 then 0 else TotalPages(count))
    ensures var bs := PaginationButtons(count, current);
            forall n: nat :: n in ButtonNumbers(bs) <==> TotalPages(count) > 1 && 1 <= n <= TotalPages(count)
    ensures var bs := PaginationButtons(count, current);
            forall i, j :: 0 <= i < j < |bs| ==> bs[i].number < bs[j].number
  {
    var bs := PaginationButtons(count, current);
    if TotalPages(count) > 1 {
      forall n: nat | 1 <= n <= TotalPages(count)
        ensures n in ButtonNumbers(bs)
      {
        assert bs[n - 1].number == n;
      }
    }
  }

  /** Exactly the current page's button is active when the current page is shown. */
  lemma OneActiveButton(count: nat, current: int)
    requires 1 <= current <= TotalPages(count) && TotalPages(count) > 1
    ensures ActiveNumbers(PaginationButtons(count, current)) == {current}
  {
    var bs := PaginationButtons(count, current);
    assert bs[current - 1].active && bs[current - 1].number == current;
  }

  /** No button is active when the current page has no button. */
  lemma NoActiveButtonOutOfRange(count: nat, current: int)
    requires current < 1 || current > TotalPages(count)
    ensures ActiveNumbers(PaginationButtons(count, current)) == {}
  {
  }
}
