/** The pagination of the scan history page (HistoryPage.jsx): a page counter over a list shown ten at a time. */
module History {
  const ItemsPerPage: nat := 10

  /** `Math.ceil(length / 10)`. */
  function TotalPages(len: nat): (r: nat)
    ensures r * ItemsPerPage >= len
    ensures r > 0 ==> (r - 1) * ItemsPerPage < len
  {
    (len + ItemsPerPage - 1) / ItemsPerPage
  }

  /** An index argument of JavaScript's `Array.prototype.slice`: negative counts from the end, then clipped to the array. */
  function SliceIndex(i: int, n: nat): (r: nat)
    ensures r <= n
    ensures 0 <= i <= n ==> r == i
    ensures i > n ==> r == n
  {
    if i < 0 then (if n + i < 0 then 0 else n + i) else if i > n then n else i
  }

  /** `s.slice(start, end)`. */
  function JsSlice<T>(s: seq<T>, start: int, end: int): (r: seq<T>)
    ensures 0 <= start <= end ==> |r| <= end - start
    ensures 0 <= start <= end ==>
      r == s[SliceIndex(start, |s|)..if end <= |s| then end else |s|]
  {
    var from, to := SliceIndex(start, |s|), SliceIndex(end, |s|);
    if from < to then s[from..to] else []
  }

  /** `scanHistory.slice(indexOfFirstItem, indexOfLastItem)` for page `page`. */
  function CurrentItems<T>(history: seq<T>, page: int): seq<T> {
    JsSlice(history, (page - 1) * ItemsPerPage, page * ItemsPerPage)
  }

  function Min(a: int, b: int): int {
    if a <= b then a else b
  }

  /** The "Affichage de … à …" line: `indexOfFirstItem + 1` and `Math.min(indexOfLastItem, length)`. */
  function ShownFrom(page: int): int {
    (page - 1) * ItemsPerPage + 1
  }

  function ShownTo(len: nat, page: int): int {
    Min(page * ItemsPerPage, len)
  }

  /** The pages a counter starting at 1 can reach: [1, max(1, totalPages)]. */
  predicate InRange(len: nat, page: int) {
    1 <= page && (page <= TotalPages(len) || page == 1)
  }

  /** A page in range shows at most ten items, exactly the ones the "from … to …" line names. */
  lemma CurrentItemsShown<T>(history: seq<T>, page: int)
    requires InRange(|history|, page)
    ensures |CurrentItems(history, page)| <= ItemsPerPage
    ensures |history| > 0 ==> ShownFrom(page) <= ShownTo(|history|, page)
    ensures |history| > 0 ==>
      CurrentItems(history, page) == history[ShownFrom(page) - 1..ShownTo(|history|, page)]
    ensures |CurrentItems(history, page)| == ShownTo(|history|, page) - ShownFrom(page) + 1 || |history| == 0
  {
    var first := (page - 1) * ItemsPerPage;
    assert first >= 0;
    if |history| > 0 {
      assert first < |history| by {
        if page > 1 {
          assert page <= TotalPages(|history|);
          assert (TotalPages(|history|) - 1) * ItemsPerPage < |history|;
          assert first <= (TotalPages(|history|) - 1) * ItemsPerPage;
        }
      }
    }
  }

  /** The first n pages, one after another. */
  function Pages<T>(history: seq<T>, n: nat): seq<T> {
    if n == 0 then [] else Pages(history, n - 1) + CurrentItems(history, n)
  }

  lemma {:induction false} PagesPrefix<T>(history: seq<T>, n: nat)
    ensures Pages(history, n) == history[..Min(n * ItemsPerPage, |history|)]
  {
    if n > 0 {
      PagesPrefix(history, n - 1);
      var lo, hi := Min((n - 1) * ItemsPerPage, |history|), Min(n * ItemsPerPage, |history|);
      assert CurrentItems(history, n) == history[lo..hi];
      assert history[..lo] + history[lo..hi] == history[..hi];
    }
  }

  /** Paging through all `totalPages` pages shows every entry of the history once, in order. */
  lemma PagesCoverHistory<T>(history: seq<T>)
    ensures Pages(history, TotalPages(|history|)) == history
  {
    PagesPrefix(history, TotalPages(|history|));
  }

  /** The buttons of the pager. */
  datatype Button = Next | Prev

  /** `nextPage` / `prevPage` for a history of `len` entries. */
  function Step(len: nat, page: int, b: Button): int {
    match b
    case Next => if page < TotalPages(len) then page + 1 else page
    case Prev => if page > 1 then page - 1 else page
  }

  function Press(len: nat, page: int, presses: seq<Button>): int
    decreases |presses|
  {
    if presses == [] then page else Press(len, Step(len, page, presses[0]), presses[1..])
  }

  /** Over a fixed history, any sequence of presses from an in-range page stays in range. */
  lemma {:induction false} PressStaysInRange(len: nat, page: int, presses: seq<Button>)
    requires InRange(len, page)
    ensures InRange(len, Press(len, page, presses))
    decreases |presses|
  {
    if presses != [] {
      PressStaysInRange(len, Step(len, page, presses[0]), presses[1..]);
    }
  }

  /** `disabled={currentPage === 1}` and `disabled={currentPage === totalPages}`. */
  predicate PrevDisabled(page: int) {
    page == 1
  }

  predicate NextDisabled(len: nat, page: int) {
    page == TotalPages(len)
  }

  /**
   * On a non-empty history (the only case that shows the pager) and an in-range
   * page, a button is disabled exactly when pressing it would change nothing.
   */
  lemma DisabledMeansNoOp(len: nat, page: int)
    requires len > 0 && InRange(len, page)
    ensures PrevDisabled(page) <==> Step(len, page, Prev) == page
    ensures NextDisabled(len, page) <==> Step(len, page, Next) == page
  {
  }

  /**
   * The page is kept when the list is reloaded after a delete. On the last page,
   * deleting its only entry leaves the counter past `totalPages`: the page shows no
   * entries, its range line runs backwards, Next is enabled but does nothing.
   */
  lemma StalePageAfterDelete<T>(history: seq<T>, page: int)
    requires 1 <= page && page > TotalPages(|history|) && |history| > 0
    ensures CurrentItems(history, page) == []
    ensures ShownFrom(page) > ShownTo(|history|, page)
    ensures !NextDisabled(|history|, page) && Step(|history|, page, Next) == page
  {
    assert (page - 1) * ItemsPerPage >= TotalPages(|history|) * ItemsPerPage;
  }

  /** The state of the history page: the list it was given and its page counter. */
  class HistoryView {
    var history: seq<string>
    var currentPage: int

    /** `useState(1)`. */
    constructor(history: seq<string>)
      ensures this.history == history && currentPage == 1
      ensures InRange(|history|, currentPage)
    {
      this.history := history;
      currentPage := 1;
    }

    method NextPage()
      modifies this
      ensures history == old(history)
      ensures currentPage == Step(|history|, old(currentPage), Next)
    {
      if currentPage < TotalPages(|history|) {
        currentPage := currentPage + 1;
      }
    }

    method PrevPage()
      modifies this
      ensures history == old(history)
      ensures currentPage == Step(|history|, old(currentPage), Prev)
    {
      if currentPage > 1 {
        currentPage := currentPage - 1;
      }
    }

    /** `handleDelete` after a successful delete: the list is reloaded, the page is kept. */
    method Reloaded(newHistory: seq<string>)
      modifies this
      ensures history == newHistory && currentPage == old(currentPage)
    {
      history := newHistory;
    }

    /** `handleReset` after a successful reset: the list is reloaded and the page goes back to 1. */
    method ResetDone(newHistory: seq<string>)
      modifies this
      ensures history == newHistory && currentPage == 1
      ensures InRange(|history|, currentPage)
    {
      history := newHistory;
      currentPage := 1;
    }
  }
}
