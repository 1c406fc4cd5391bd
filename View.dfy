/**
 * The page's module-level view state (static/script.js lines 2-7): the
 * sorted master list, the filtered list and the current page, with the
 * handlers that reassign them and the values each render derives from them.
 */
module View {
  import opened Wrappers
  import opened JsString
  import opened Programs
  import opened Search
  import opened Pagination
  import opened Labels

  class ViewState {
    /** `allPrograms`: sorted once at start-up and never reassigned. */
    const allPrograms: seq<Program>
    /** `filteredPrograms`. */
    var filteredPrograms: seq<Program>
    /** `currentPage`, counted from 1. */
    var currentPage: int

    /**
     * The filtered list is drawn from the master list in its order, and the
     * page is 1 or one of the pages the pagination bar offers.
     */
    ghost predicate Valid()
      reads this
    {
      IsSubsequence(filteredPrograms, allPrograms) &&
      1 <= currentPage && (currentPage == 1 || currentPage <= TotalPages(|filteredPrograms|))
    }

    /**
     * Start-up: the supplied programs, or none when the page supplied no
     * data, sorted by lower-cased name; every program shown; page 1.
     */
    constructor (programsData: Option<seq<Program>>, before: (string, string) -> bool)
      requires TotalPreorder(before)
      ensures Valid()
      ensures allPrograms == SortByName(if programsData.Some? then programsData.value else [], before)
      ensures SortedByName(allPrograms, before)
      ensures filteredPrograms == allPrograms && currentPage == 1
    {
      var supplied := match programsData case Some(ps) => ps case None => [];
      var sorted := SortByName(supplied, before);
      SubsequenceOfSelf(sorted);
      allPrograms := sorted;
      filteredPrograms := sorted;
      currentPage := 1;
    }

    /** `handleSearch(query)`: keep the matching programs and go back to page 1. */
    method Search(query: string)
      modifies this
      ensures Valid()
      ensures filteredPrograms == Filter(allPrograms, SearchTerm(query))
      ensures currentPage == 1
    {
      var term := Trim(ToLower(query));
      FilterIsSubsequence(allPrograms, term);
      filteredPrograms := Filter(allPrograms, term);
      currentPage := 1;
    }

    /** The click handler of a pagination button, which exists only for pages 1 to `totalPages`. */
    method SelectPage(page: int)
      requires Valid()
      requires 1 <= page <= TotalPages(|filteredPrograms|)
      modifies this`currentPage
      ensures Valid()
      ensures currentPage == page
    {
      currentPage := page;
    }

    /** The programs `renderPrograms` shows: ten at most, consecutive in the filtered list. */
    function VisiblePrograms(): (shown: seq<Program>)
      reads this
      requires Valid()
      ensures |shown| <= ItemsPerPage
      ensures (currentPage - 1) * ItemsPerPage >= |filteredPrograms| ==> shown == []
      ensures forall i :: 0 <= i < |shown| ==>
                (currentPage - 1) * ItemsPerPage + i < |filteredPrograms| &&
                shown[i] == filteredPrograms[(currentPage - 1) * ItemsPerPage + i]
      ensures var start := (currentPage - 1) * ItemsPerPage;
              start < |filteredPrograms| ==>
                shown == filteredPrograms[start..Min(start + ItemsPerPage, |filteredPrograms|)]
      ensures filteredPrograms != [] ==> shown != []
    {
      PageSliceFromStart(filteredPrograms, currentPage);
      PageSlice(filteredPrograms, currentPage)
    }

    /** `renderPagination`'s loop: one button per page, the current one active. */
    method RenderPagination() returns (buttons: seq<PageButton>)
      ensures buttons == PaginationButtons(|filteredPrograms|, currentPage)
    {
      buttons := [];
      var totalPages := TotalPages(|filteredPrograms|);
      if totalPages <= 1 {
        return;
      }
      for i := 1 to totalPages + 1
        invariant |buttons| == i - 1
        invariant forall k :: 0 <= k < i - 1 ==> buttons[k] == PageButton(k + 1, k + 1 == currentPage)
      {
        buttons := buttons + [PageButton(i, i == currentPage)];
      }
    }
  }
}
