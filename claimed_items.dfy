/**
 * The year filter and pagination of the web client's claimed-items page.
 *
 * Items are shown six to a page. The year filter keeps every item when the
 * selection is "All", and otherwise only the items whose claim date exists
 * and whose year, written out as text, equals the selection. The conversion
 * from a claim date to its year text depends on the browser's time zone, so
 * it is the parameter `yearText`.
 */
module ClaimedItems {
  import opened Wrappers

  const ItemsPerPage: int := 6

  /** A claimed item; `dateClaimed` is `None` when the field is missing or empty. */
  datatype ClaimedItem<D> = ClaimedItem(id: string, dateClaimed: Option<D>)

  /** The filter's test for one item. */
  predicate Keeps<D>(item: ClaimedItem<D>, selectedYear: string, yearText: D -> string) {
    if selectedYear == "All" then true
    else if item.dateClaimed.None? then false
    else yearText(item.dateClaimed.value) == selectedYear
  }

  /** `filteredItems`: the items the filter keeps, in their original order. */
  function FilteredItems<D>(items: seq<ClaimedItem<D>>, selectedYear: string, yearText: D -> string)
    : (r: seq<ClaimedItem<D>>)
    ensures |r| <= |items|
    ensures forall i :: 0 <= i < |r| ==> r[i] in items && Keeps(r[i], selectedYear, yearText)
    ensures selectedYear != "All" ==>
      forall i :: 0 <= i < |r| ==>
        r[i].dateClaimed.Some? && yearText(r[i].dateClaimed.value) == selectedYear
    decreases |items|
  {
    if items == [] then []
    else
      (if Keeps(items[0], selectedYear, yearText) then [items[0]] else [])
      + FilteredItems(items[1..], selectedYear, yearText)
  }

  /** `xs` is `ys` with some elements left out and the rest in their order. */
  predicate IsSubsequence<T(==)>(xs: seq<T>, ys: seq<T>)
    decreases |ys|
  {
    xs == [] ||
    (ys != [] &&
     ((xs[0] == ys[0] && IsSubsequence(xs[1..], ys[1..])) || IsSubsequence(xs, ys[1..])))
  }

  /** Math.ceil(n / 6). */
  function TotalPages(n: nat): (r: nat)
    ensures n == 0 ==> r == 0
    ensures n > 0 ==> (r - 1) * ItemsPerPage < n <= r * ItemsPerPage
  {
    (n + ItemsPerPage - 1) / ItemsPerPage
  }

  /** Where a `slice` bound lands in a sequence of length `len`: negative bounds count from the end. */
  function SliceBound(i: int, len: nat): (k: nat)
    ensures k <= len
    ensures 0 <= i ==> k == if i < len then i else len
  {
    if i < 0 then (if len + i < 0 then 0 else len + i)
    else if i < len then i
    else len
  }

  /** `Array.prototype.slice(start, end)`. */
  function Slice<T>(s: seq<T>, start: int, end: int): seq<T> {
    var from, to := SliceBound(start, |s|), SliceBound(end, |s|);
    if from < to then s[from..to] else []
  }

  /** `displayedItems`: the current page of the filtered items. */
  function DisplayedItems<T>(filtered: seq<T>, currentPage: int): (r: seq<T>)
    ensures |r| <= ItemsPerPage
    ensures forall x :: x in r ==> x in filtered
  {
    Slice(filtered, (currentPage - 1) * ItemsPerPage, currentPage * ItemsPerPage)
  }

  /** The guard of `handlePageChange`. */
  predicate PageAccepted(page: int, totalPages: nat) {
    1 <= page <= totalPages
  }

  /** The previous-page button's `disabled` prop. */
  predicate PrevDisabled(currentPage: int) {
    currentPage == 1
  }

  /** The next-page button's `disabled` prop. */
  predicate NextDisabled(currentPage: int, totalPages: nat) {
    currentPage == totalPages
  }

  function Min(a: int, b: int): int {
    if a < b then a else b
  }

  /** Pages 1 to `k` of `s`, one after another. */
  function PagesUpTo<T>(s: seq<T>, k: nat): seq<T> {
    if k == 0 then [] else PagesUpTo(s, k - 1) + DisplayedItems(s, k)
  }

  /** The page's state: the fetched items, the selected year and the current page. */
  class ClaimedListPage<D> {
    const yearText: D -> string
    var items: seq<ClaimedItem<D>>
    var selectedYear: string
    var currentPage: int

    /** Pages are numbered from 1. */
    ghost predicate Valid()
      reads this
    {
      currentPage >= 1
    }

    function Filtered(): seq<ClaimedItem<D>>
      reads this
    {
      FilteredItems(items, selectedYear, yearText)
    }

    function PageCount(): nat
      reads this
    {
      TotalPages(|Filtered()|)
    }

    function Displayed(): seq<ClaimedItem<D>>
      reads this
    {
      DisplayedItems(Filtered(), currentPage)
    }

    constructor (yearText: D -> string)
      ensures Valid()
      ensures this.yearText == yearText && items == [] && selectedYear == "All" && currentPage == 1
    {
      this.yearText := yearText;
      items := [];
      selectedYear := "All";
      currentPage := 1;
    }

    /** `handlePageChange`: only pages 1 to the page count are taken. */
    method HandlePageChange(page: int)
      requires Valid()
      modifies this`currentPage
      ensures Valid()
      ensures currentPage == if PageAccepted(page, PageCount()) then page else old(currentPage)
    {
      if page >= 1 && page <= PageCount() {
        currentPage := page;
      }
    }

    /** A year chosen in the dropdown; the current page is left as it is. */
    method SelectYear(year: string)
      requires Valid()
      modifies this`selectedYear
      ensures Valid()
      ensures selectedYear == year
    {
      selectedYear := year;
    }

    /** The fetched items arrive. */
    method SetItems(claimed: seq<ClaimedItem<D>>)
      requires Valid()
      modifies this`items
      ensures Valid()
      ensures items == claimed
    {
      items := claimed;
    }
  }

  // ---------------------------------------------------------------------
  // Filter

  /** With "All" selected the filter keeps every item. */
  lemma {:induction false} FilterAllKeepsEverything<D>(items: seq<ClaimedItem<D>>, yearText: D -> string)
    ensures FilteredItems(items, "All", yearText) == items
    decreases |items|
  {
    if items != [] {
      FilterAllKeepsEverything(items[1..], yearText);
      assert items == [items[0]] + items[1..];
    }
  }

  /** An item is in the filtered list iff it is in the list and passes the test. */
  lemma {:induction false} FilterKeepsExactly<D>(items: seq<ClaimedItem<D>>, selectedYear: string, yearText: D -> string, x: ClaimedItem<D>)
    ensures x in FilteredItems(items, selectedYear, yearText) <==> x in items && Keeps(x, selectedYear, yearText)
    decreases |items|
  {
    if items != [] {
      FilterKeepsExactly(items[1..], selectedYear, yearText, x);
      assert items == [items[0]] + items[1..];
    }
  }

  /** The filter keeps every copy of an item that passes the test and none of one that fails it. */
  lemma {:induction false} FilterKeepsEveryCopy<D>(items: seq<ClaimedItem<D>>, selectedYear: string, yearText: D -> string, x: ClaimedItem<D>)
    ensures multiset(FilteredItems(items, selectedYear, yearText))[x]
         == if Keeps(x, selectedYear, yearText) then multiset(items)[x] else 0
    decreases |items|
  {
    if items != [] {
      FilterKeepsEveryCopy(items[1..], selectedYear, yearText, x);
      assert items == [items[0]] + items[1..];
      assert multiset(items) == multiset([items[0]]) + multiset(items[1..]);
    }
  }

  /** The filtered list is a subsequence of the items: relative order is preserved. */
  lemma {:induction false} FilterPreservesOrder<D>(items: seq<ClaimedItem<D>>, selectedYear: string, yearText: D -> string)
    ensures IsSubsequence(FilteredItems(items, selectedYear, yearText), items)
    decreases |items|
  {
    if items != [] {
      var rest := FilteredItems(items[1..], selectedYear, yearText);
      FilterPreservesOrder(items[1..], selectedYear, yearText);
      if Keeps(items[0], selectedYear, yearText) {
        assert ([items[0]] + rest)[1..] == rest;
      } else {
        assert FilteredItems(items, selectedYear, yearText) == rest;
      }
    }
  }

  // ---------------------------------------------------------------------
  // Pages

  /** A page from 1 upward is the window [(page - 1) * 6, page * 6) of the list, cut at its end. */
  lemma PageIsWindow<T>(s: seq<T>, page: int)
    requires page >= 1
    ensures DisplayedItems(s, page)
         == s[Min((page - 1) * ItemsPerPage, |s|)..Min(page * ItemsPerPage, |s|)]
  {
  }

  /** Every page from 1 to the page count holds at least one item; every page after it holds none. */
  lemma PagesInRangeAreNonEmpty<T>(s: seq<T>, page: int)
    requires page >= 1
    ensures DisplayedItems(s, page) != [] <==> page <= TotalPages(|s|)
  {
  }

  /** Pages 1 to `k` together are the first `k * 6` items. */
  lemma {:induction false} PagesUpToArePrefix<T>(s: seq<T>, k: nat)
    ensures PagesUpTo(s, k) == s[..Min(k * ItemsPerPage, |s|)]
  {
    if k > 0 {
      PagesUpToArePrefix(s, k - 1);
      PageIsWindow(s, k);
    }
  }

  /** Pages 1 to the page count, put together, give back the filtered list. */
  lemma PagesCoverList<T>(s: seq<T>)
    ensures PagesUpTo(s, TotalPages(|s|)) == s
  {
    PagesUpToArePrefix(s, TotalPages(|s|));
  }

  /** On a page that exists, each navigation button is enabled iff the page change it asks for is taken. */
  lemma NavigationButtonsMatchGuard(currentPage: int, totalPages: nat)
    requires PageAccepted(currentPage, totalPages)
    ensures !PrevDisabled(currentPage) <==> PageAccepted(currentPage - 1, totalPages)
    ensures !NextDisabled(currentPage, totalPages) <==> PageAccepted(currentPage + 1, totalPages)
  {
  }

  /**
   * With nothing to show there are no pages, yet the next-page button on
   * page 1 is enabled; pressing it asks for page 2, which is refused.
   */
  lemma EmptyListNextButtonIsInert()
    ensures TotalPages(0) == 0
    ensures !NextDisabled(1, TotalPages(0)) && !PageAccepted(2, TotalPages(0))
  {
  }

  /**
   * Choosing a year keeps the current page; when the new selection has fewer
   * pages than that, the page shows nothing although items match.
   */
  lemma StalePageShowsNothing<D>(items: seq<ClaimedItem<D>>, year: string, yearText: D -> string, currentPage: int)
    requires currentPage > TotalPages(|FilteredItems(items, year, yearText)|)
    ensures DisplayedItems(FilteredItems(items, year, yearText), currentPage) == []
  {
  }
}
