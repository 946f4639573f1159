/** The global search box (public/js/search.js): the recent-searches list,
    the query cache, what the results panel shows, and keyboard selection
    in that panel. The search request itself is outside the model; its
    answer is a parameter. */
module Search {
  import opened Optionals
  import opened Strings
  import opened Sorting

  /** One task, note or link the server returned for a query. */
  datatype Hit = Hit(id: int, title: String)

  datatype SearchResults = SearchResults(tasks: seq<Hit>, notes: seq<Hit>, links: seq<Hit>)

  const NoResults := SearchResults([], [], [])

  function Total(r: SearchResults): nat {
    |r.tasks| + |r.notes| + |r.links|
  }

  // ---------------------------------------------------------------------------
  // Recent searches
  // ---------------------------------------------------------------------------

  const MaxRecent: nat := 10

  function Other(query: String): String -> bool {
    (s: String) => s != query
  }

  /** `addToRecentSearches(query)`: drop earlier copies of the query, put it
      in front, keep the first ten. */
  function RecentAfter(recent: seq<String>, query: String): (r: seq<String>)
    ensures r != [] && r[0] == query
    ensures |r| <= MaxRecent
    ensures forall i :: 1 <= i < |r| ==> r[i] != query && r[i] in recent
  {
    var kept := [query] + Filter(recent, Other(query));
    if |kept| <= MaxRecent then kept else kept[..MaxRecent]
  }

  /** `a` is the first `|a|` entries of `b`. */
  predicate IsPrefix(a: seq<String>, b: seq<String>) {
    |a| <= |b| && b[..|a|] == a
  }

  /** The other entries keep their relative order: after the query come the
      earlier entries other than the query, in their order, as many as fit. */
  lemma RecentKeepsOrder(recent: seq<String>, query: String)
    ensures var r := RecentAfter(recent, query);
      IsPrefix(r[1..], Filter(recent, Other(query)))
    ensures |Filter(recent, Other(query))| < MaxRecent ==>
      RecentAfter(recent, query)[1..] == Filter(recent, Other(query))
  {
    var others := Filter(recent, Other(query));
    var kept := [query] + others;
    var r := RecentAfter(recent, query);
    if |kept| <= MaxRecent {
      assert r[1..] == others;
    } else {
      assert r[1..] == others[..MaxRecent - 1];
    }
  }

  /** Nothing is lost while there is room: with fewer than ten other entries
      every one of them stays. */
  lemma RecentKeepsOthersWhileRoom(recent: seq<String>, query: String)
    requires |Filter(recent, Other(query))| < MaxRecent
    ensures forall s :: s in recent && s != query ==> s in RecentAfter(recent, query)
  {
    RecentKeepsOrder(recent, query);
    var r := RecentAfter(recent, query);
    forall s | s in recent && s != query ensures s in r {
      var k :| 0 <= k < |recent| && recent[k] == s;
      assert s in Filter(recent, Other(query));
      assert s in r[1..];
    }
  }

  /** Searching the same query twice in a row records it once. */
  lemma RecentIdempotent(recent: seq<String>, query: String)
    ensures RecentAfter(RecentAfter(recent, query), query) == RecentAfter(recent, query)
  {
    var r := RecentAfter(recent, query);
    var rest := r[1..];
    forall i | 0 <= i < |rest| ensures Other(query)(rest[i]) {
      assert rest[i] == r[i + 1];
    }
    FilterKeepAll(rest, Other(query));
    assert Filter(r, Other(query)) == Filter(rest, Other(query));
    assert [query] + rest == r;
  }

  predicate Distinct(xs: seq<String>) {
    forall i, j :: 0 <= i < j < |xs| ==> xs[i] != xs[j]
  }

  /** A list without repeats stays without repeats. */
  lemma RecentKeepsDistinct(recent: seq<String>, query: String)
    requires Distinct(recent)
    ensures Distinct(RecentAfter(recent, query))
  {
    var others := Filter(recent, Other(query));
    FilterKeepsDistinct(recent, Other(query));
    var kept := [query] + others;
    forall i, j | 0 <= i < j < |kept| ensures kept[i] != kept[j] {
      if i > 0 {
        assert kept[i] == others[i - 1] && kept[j] == others[j - 1];
      } else {
        assert kept[j] == others[j - 1];
      }
    }
  }

  lemma {:induction false} FilterKeepsDistinct(xs: seq<String>, keep: String -> bool)
    requires Distinct(xs)
    ensures Distinct(Filter(xs, keep))
    decreases |xs|
  {
    if xs != [] {
      assert Distinct(xs[1..]) by {
        forall i, j | 0 <= i < j < |xs[1..]| ensures xs[1..][i] != xs[1..][j] {
          assert xs[1..][i] == xs[i + 1] && xs[1..][j] == xs[j + 1];
        }
      }
      FilterKeepsDistinct(xs[1..], keep);
      var rest := Filter(xs[1..], keep);
      if keep(xs[0]) {
        assert xs[0] !in xs[1..];
        var r := [xs[0]] + rest;
        forall i, j | 0 <= i < j < |r| ensures r[i] != r[j] {
          assert r[j] == rest[j - 1];
          if i > 0 {
            assert r[i] == rest[i - 1];
          }
        }
      }
    }
  }

  // ---------------------------------------------------------------------------
  // The results panel and keyboard selection
  // ---------------------------------------------------------------------------

  /** What the results panel shows. */
  datatype Panel =
    | StartTyping                       // no recent searches yet
    | RecentList(items: seq<String>)    // one item per recent search
    | NoResultsFor(query: String)       // a search with no hits
    | ResultList(results: SearchResults)
    | ErrorMessage

  /** The number of selectable items (`.search-item`) in the panel. */
  function ItemCount(p: Panel): nat {
    match p
    case RecentList(items) => |items|
    case ResultList(results) => Total(results)
    case _ => 0
  }

  /** `showRecentSearches()`. */
  function RecentPanel(recent: seq<String>): (p: Panel)
    ensures ItemCount(p) == |recent|
  {
    if |recent| == 0 then StartTyping else RecentList(recent)
  }

  /** `displayResults(query, results)`. */
  function ResultsPanel(query: String, results: SearchResults): (p: Panel)
    ensures p == NoResultsFor(query) <==> Total(results) == 0
    ensures ItemCount(p) == Total(results)
  {
    if Total(results) == 0 then NoResultsFor(query) else ResultList(results)
  }

  /** `navigateResults(direction)` as written, over `n > 0` items: down wraps
      from the last item to the first, up from the first (or from no
      selection) to the last. */
  function NavigateStepAsWritten(index: int, n: nat, direction: int): (r: int)
    requires n > 0 && index >= -1
    ensures direction == 1 ==> 0 <= r < n
    ensures direction != 1 ==> (0 <= r < n <==> index <= n)
  {
    if direction == 1 then (index + 1) % n
    else if index <= 0 then n - 1 else index - 1
  }

  /** The step as written leaves the items when the index is left over from
      a longer list: five results, the fifth selected, then the list of one
      recent search, and ArrowUp selects item 3 of 1. */
  lemma StaleIndexEscapes(index: int, n: nat)
    requires index == 4 && n == 1
    ensures NavigateStepAsWritten(index, n, -1) == 3 && NavigateStepAsWritten(index, n, -1) >= n
  {
  }

  /** The step with an index outside the list read as "nothing selected". */
  function NavigateStep(index: int, n: nat, direction: int): (r: int)
    requires n > 0
    ensures 0 <= r < n
  {
    var current := if 0 <= index < n then index else -1;
    if direction == 1 then (current + 1) % n
    else if current <= 0 then n - 1 else current - 1
  }

  /** Wherever the step as written stays in range it is unchanged: the
      corrected step differs only for a stale index. */
  lemma NavigateStepAgrees(index: int, n: nat, direction: int)
    requires n > 0 && -1 <= index < n
    ensures NavigateStep(index, n, direction) == NavigateStepAsWritten(index, n, direction)
  {
  }

  /** Down from item `i` selects `(i + 1) mod n`; up selects `n - 1` from the
      first item or no selection, else `i - 1`. */
  lemma NavigateWraps(index: int, n: nat)
    requires n > 0 && -1 <= index < n
    ensures NavigateStep(index, n, 1) == if index == n - 1 then 0 else index + 1
    ensures NavigateStep(index, n, -1) == if index <= 0 then n - 1 else index - 1
  {
  }

  /** Up undoes down and down undoes up, on a selected item. */
  lemma NavigateRoundTrip(index: int, n: nat)
    requires 0 <= index < n
    ensures NavigateStep(NavigateStep(index, n, 1), n, -1) == index
    ensures NavigateStep(NavigateStep(index, n, -1), n, 1) == index
  {
    NavigateWraps(index, n);
    NavigateWraps(NavigateStep(index, n, 1), n);
    NavigateWraps(NavigateStep(index, n, -1), n);
  }

  // ---------------------------------------------------------------------------
  // The search box
  // ---------------------------------------------------------------------------

  class GlobalSearch {
    var searchCache: map<String, SearchResults>
    var recentSearches: seq<String>
    var currentResults: SearchResults
    var selectedIndex: int
    var panel: Panel
    var isOpen: bool
    var inputValue: String

    /** The constructor and `init()`: `stored` is what local storage held. */
    constructor (stored: seq<String>)
      ensures searchCache == map[] && recentSearches == stored
      ensures currentResults == NoResults && selectedIndex == -1
      ensures panel == RecentPanel(stored) && !isOpen && inputValue == []
    {
      searchCache := map[];
      recentSearches := stored;
      currentResults := NoResults;
      selectedIndex := -1;
      panel := RecentPanel(stored);
      isOpen := false;
      inputValue := [];
    }

    /** `show()`: an empty box, no selection, the recent searches. */
    method Show()
      modifies this
      ensures isOpen && inputValue == [] && selectedIndex == -1
      ensures panel == RecentPanel(recentSearches)
      ensures searchCache == old(searchCache) && recentSearches == old(recentSearches)
      ensures currentResults == old(currentResults)
    {
      isOpen := true;
      inputValue := [];
      selectedIndex := -1;
      ShowRecentSearches();
    }

    /** `close()`: the selection is dropped. */
    method Close()
      modifies this
      ensures !isOpen && selectedIndex == -1
      ensures panel == old(panel) && inputValue == old(inputValue)
      ensures searchCache == old(searchCache) && recentSearches == old(recentSearches)
      ensures currentResults == old(currentResults)
    {
      isOpen := false;
      selectedIndex := -1;
    }

    /** `showRecentSearches()`: the selection index is left as it was. */
    method ShowRecentSearches()
      modifies this
      ensures panel == RecentPanel(recentSearches)
      ensures selectedIndex == old(selectedIndex) && isOpen == old(isOpen) && inputValue == old(inputValue)
      ensures searchCache == old(searchCache) && recentSearches == old(recentSearches)
      ensures currentResults == old(currentResults)
    {
      panel := RecentPanel(recentSearches);
    }

    /** `displayResults(query, results)`: the selection is dropped. */
    method DisplayResults(query: String, results: SearchResults)
      modifies this
      ensures panel == ResultsPanel(query, results) && selectedIndex == -1
      ensures isOpen == old(isOpen) && inputValue == old(inputValue)
      ensures searchCache == old(searchCache) && recentSearches == old(recentSearches)
      ensures currentResults == old(currentResults)
    {
      selectedIndex := -1;
      panel := ResultsPanel(query, results);
    }

    method AddToRecentSearches(query: String)
      modifies this
      ensures recentSearches == RecentAfter(old(recentSearches), query)
      ensures panel == old(panel) && selectedIndex == old(selectedIndex)
      ensures isOpen == old(isOpen) && inputValue == old(inputValue)
      ensures searchCache == old(searchCache) && currentResults == old(currentResults)
    {
      recentSearches := Filter(recentSearches, Other(query));
      recentSearches := [query] + recentSearches;
      if |recentSearches| > MaxRecent {
        recentSearches := recentSearches[..MaxRecent];
      }
    }

    /** `performSearch(query)`. `fetched` is the server's answer, `None` when
      the request fails; `requested` says whether a request was made. An
      empty query shows the recent searches; a cached query is answered from
      the cache; a fresh answer is cached under its query, becomes the
      current results and is recorded as a recent search. */
    method PerformSearch(query: String, fetched: Option<SearchResults>) returns (requested: bool)
      modifies this
      ensures requested <==> query != [] && query !in old(searchCache)
      ensures query == [] ==>
        && panel == RecentPanel(old(recentSearches)) && selectedIndex == old(selectedIndex)
        && searchCache == old(searchCache) && recentSearches == old(recentSearches)
        && currentResults == old(currentResults)
      ensures query != [] && query in old(searchCache) ==>
        && panel == ResultsPanel(query, old(searchCache)[query]) && selectedIndex == -1
        && searchCache == old(searchCache) && recentSearches == old(recentSearches)
        && currentResults == old(currentResults)
      ensures requested && fetched.Some? ==>
        && searchCache == old(searchCache)[query := fetched.value]
        && currentResults == fetched.value
        && panel == ResultsPanel(query, fetched.value) && selectedIndex == -1
        && recentSearches == RecentAfter(old(recentSearches), query)
      ensures requested && fetched.None? ==>
        && panel == ErrorMessage && selectedIndex == old(selectedIndex)
        && searchCache == old(searchCache) && recentSearches == old(recentSearches)
        && currentResults == old(currentResults)
      ensures isOpen == old(isOpen) && inputValue == old(inputValue)
    {
      if query == [] {
        ShowRecentSearches();
        return false;
      }
      if query in searchCache {
        DisplayResults(query, searchCache[query]);
        return false;
      }
      requested := true;
      match fetched
      case Some(results) =>
        searchCache := searchCache[query := results];
        currentResults := results;
        DisplayResults(query, results);
        AddToRecentSearches(query);
      case None =>
        panel := ErrorMessage;
    }

    /** Typing in the box searches for the trimmed text. */
    method OnInput(value: String, fetched: Option<SearchResults>) returns (requested: bool)
      modifies this
      ensures inputValue == value
      ensures requested <==> Trim(value) != [] && Trim(value) !in old(searchCache)
      ensures Blank(value) ==> panel == RecentPanel(old(recentSearches)) && searchCache == old(searchCache)
    {
      inputValue := value;
      BlankIsTrimEmpty(value);
      requested := PerformSearch(Trim(value), fetched);
    }

    /** `navigateResults(direction)`, with a left-over index read as no
      selection. With no items nothing changes; otherwise the selected
      index is always one of the items. */
    method NavigateResults(direction: int)
      modifies this
      ensures ItemCount(panel) == 0 ==> selectedIndex == old(selectedIndex)
      ensures ItemCount(panel) > 0 ==>
        && selectedIndex == NavigateStep(old(selectedIndex), ItemCount(panel), direction)
        && 0 <= selectedIndex < ItemCount(panel)
      ensures panel == old(panel) && isOpen == old(isOpen) && inputValue == old(inputValue)
      ensures searchCache == old(searchCache) && recentSearches == old(recentSearches)
      ensures currentResults == old(currentResults)
    {
      var n := ItemCount(panel);
      if n == 0 {
        return;
      }
      selectedIndex := NavigateStep(selectedIndex, n, direction);
    }
  }

  /** The stale index is reachable: five results, the last one selected,
      then the query is cleared and the panel lists the one recent search
      while the index still points at the fifth item. */
  method StaleSelection() returns (index: int, items: nat)
    ensures index == 4 && items == 1
    ensures NavigateStepAsWritten(index, items, -1) >= items
  {
    var hits := [Hit(1, "a"), Hit(2, "b"), Hit(3, "c"), Hit(4, "d"), Hit(5, "e")];
    var s := new GlobalSearch([]);
    s.Show();
    var _ := s.PerformSearch("plan", Some(SearchResults(hits, [], [])));
    assert Total(SearchResults(hits, [], [])) == 5;
    s.NavigateResults(1);
    s.NavigateResults(1);
    s.NavigateResults(1);
    s.NavigateResults(1);
    s.NavigateResults(1);
    assert s.selectedIndex == 4;
    var _ := s.PerformSearch([], None);
    assert s.recentSearches == ["plan"];
    index, items := s.selectedIndex, ItemCount(s.panel);
  }
}
