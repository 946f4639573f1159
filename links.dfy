/** The links view (public/js/links.js): the search and sort that
    `applyFilters` runs over the saved links, the sort selector, and the
    payload `saveLinkFromForm` builds from the form. Timestamps are
    milliseconds since the epoch. */
module Links {
  import opened Optionals
  import opened Strings
  import opened Sorting

  datatype Link = Link(
    id: int,
    url: String,
    title: String,
    description: String,
    tags: seq<String>,
    createdAt: int,
    updatedAt: int)

  // ---------------------------------------------------------------------------
  // Search
  // ---------------------------------------------------------------------------

  /** Some tag contains `q` once lower-cased. */
  predicate TagMatches(tags: seq<String>, q: String) {
    exists k :: 0 <= k < |tags| && Contains(ToLower(tags[k]), q)
  }

  /** The lower-cased query `q` occurs in the title, the description, the URL
      or one of the tags, each lower-cased. */
  predicate LinkMatches(l: Link, q: String) {
    || Contains(ToLower(l.title), q)
    || Contains(ToLower(l.description), q)
    || Contains(ToLower(l.url), q)
    || TagMatches(l.tags, q)
  }

  function MatchesQuery(q: String): Link -> bool {
    (l: Link) => LinkMatches(l, q)
  }

  /** The search step of `applyFilters`. The query counts as blank when it
      trims to nothing (`BlankIsTrimEmpty`), but the text searched for is the
      query as typed, lower-cased. */
  function SearchLinks(links: seq<Link>, query: String): (r: seq<Link>)
    ensures Blank(query) ==> r == links
    ensures !Blank(query) ==>
      forall i :: 0 <= i < |r| ==> r[i] in links && LinkMatches(r[i], ToLower(query))
    ensures !Blank(query) ==>
      forall i :: 0 <= i < |links| && LinkMatches(links[i], ToLower(query)) ==> links[i] in r
  {
    if Blank(query) then links
    else Filter(links, MatchesQuery(ToLower(query)))
  }

  /** The search ignores the case of the query. */
  lemma SearchIgnoresCase(links: seq<Link>, query: String)
    ensures SearchLinks(links, ToLower(query)) == SearchLinks(links, query)
  {
    ToLowerIdempotent(query);
    LowerKeepsBlank(query);
  }

  /** Lower-casing changes no whitespace, so a blank query stays blank. */
  lemma LowerKeepsBlank(s: String)
    ensures Blank(ToLower(s)) <==> Blank(s)
  {
    BlankIsAllSpace(s);
    BlankIsAllSpace(ToLower(s));
    forall i | 0 <= i < |s| ensures IsSpace(ToLower(s)[i]) <==> IsSpace(s[i]) {
    }
  }

  /** Searching keeps the stored order: searching a concatenation searches
      each part. */
  lemma SearchAppend(a: seq<Link>, b: seq<Link>, query: String)
    ensures SearchLinks(a + b, query) == SearchLinks(a, query) + SearchLinks(b, query)
  {
    if !Blank(query) {
      FilterAppend(a, b, MatchesQuery(ToLower(query)));
    }
  }

  // ---------------------------------------------------------------------------
  // Sort
  // ---------------------------------------------------------------------------

  /** JavaScript's `a < b` on strings: code-unit order, and not equal. */
  predicate StrLt(a: String, b: String) {
    !LexLe(b, a)
  }

  /** The comparator of `applyFilters`: the sort key picked by `sortBy`
      (titles lower-cased), compared largest first when the order is 'desc'
      and smallest first otherwise; an unknown key compares every pair as 0. */
  function Compare(sortBy: String, sortOrder: Option<String>, a: Link, b: Link): (c: int)
    ensures -1 <= c <= 1
  {
    var desc := sortOrder == Some("desc");
    if sortBy == "title" then
      var va := ToLower(a.title);
      var vb := ToLower(b.title);
      if desc then (if StrLt(vb, va) then -1 else if StrLt(va, vb) then 1 else 0)
      else (if StrLt(vb, va) then 1 else if StrLt(va, vb) then -1 else 0)
    else if sortBy == "created" || sortBy == "updated" then
      var va := if sortBy == "created" then a.createdAt else a.updatedAt;
      var vb := if sortBy == "created" then b.createdAt else b.updatedAt;
      if desc then (if va > vb then -1 else if va < vb then 1 else 0)
      else (if va > vb then 1 else if va < vb then -1 else 0)
    else 0
  }

  function LinkOrder(sortBy: String, sortOrder: Option<String>): (Link, Link) -> bool {
    (a: Link, b: Link) => Compare(sortBy, sortOrder, a, b) <= 0
  }

  /** The sort step of `applyFilters` (a stable sort). */
  function SortLinks(links: seq<Link>, sortBy: String, sortOrder: Option<String>): (r: seq<Link>)
    ensures multiset(r) == multiset(links)
  {
    Sort(links, LinkOrder(sortBy, sortOrder))
  }

  /** What `applyFilters` leaves in `filteredLinks`. */
  function VisibleLinks(links: seq<Link>, query: String, sortBy: String, sortOrder: Option<String>): seq<Link> {
    SortLinks(SearchLinks(links, query), sortBy, sortOrder)
  }

  /** The value a date key sorts by. */
  function DateKey(sortBy: String, l: Link): int {
    if sortBy == "created" then l.createdAt else l.updatedAt
  }

  /** The comparator on a date key, stated on the timestamps. */
  lemma DateLe(sortBy: String, sortOrder: Option<String>, a: Link, b: Link)
    requires sortBy == "created" || sortBy == "updated"
    ensures LinkOrder(sortBy, sortOrder)(a, b) <==>
      if sortOrder == Some("desc") then DateKey(sortBy, a) >= DateKey(sortBy, b)
      else DateKey(sortBy, a) <= DateKey(sortBy, b)
  {
  }

  lemma DateOrderFacts(s: seq<Link>, sortBy: String, sortOrder: Option<String>)
    requires sortBy == "created" || sortBy == "updated"
    ensures TotalOn(s, LinkOrder(sortBy, sortOrder)) && TransitiveOn(s, LinkOrder(sortBy, sortOrder))
  {
    var le := LinkOrder(sortBy, sortOrder);
    forall i, j | 0 <= i < |s| && 0 <= j < |s| ensures le(s[i], s[j]) || le(s[j], s[i]) {
      DateLe(sortBy, sortOrder, s[i], s[j]);
      DateLe(sortBy, sortOrder, s[j], s[i]);
    }
    forall i, j, k |
      0 <= i < |s| && 0 <= j < |s| && 0 <= k < |s| && le(s[i], s[j]) && le(s[j], s[k])
      ensures le(s[i], s[k])
    {
      DateLe(sortBy, sortOrder, s[i], s[j]);
      DateLe(sortBy, sortOrder, s[j], s[k]);
      DateLe(sortBy, sortOrder, s[i], s[k]);
    }
  }

  /** 'created' and 'updated' put the larger timestamp first under 'desc'
      and the smaller first under any other order. */
  lemma SortByDate(links: seq<Link>, sortBy: String, sortOrder: Option<String>)
    requires sortBy == "created" || sortBy == "updated"
    ensures var r := SortLinks(links, sortBy, sortOrder);
      forall i, j :: 0 <= i < j < |r| ==>
        if sortOrder == Some("desc") then DateKey(sortBy, r[i]) >= DateKey(sortBy, r[j])
        else DateKey(sortBy, r[i]) <= DateKey(sortBy, r[j])
  {
    var le := LinkOrder(sortBy, sortOrder);
    DateOrderFacts(links, sortBy, sortOrder);
    SortSorted(links, le);
    var r := SortLinks(links, sortBy, sortOrder);
    DateOrderFacts(r, sortBy, sortOrder);
    SortedPairs(r, le);
    forall i, j | 0 <= i < j < |r|
      ensures if sortOrder == Some("desc") then DateKey(sortBy, r[i]) >= DateKey(sortBy, r[j])
        else DateKey(sortBy, r[i]) <= DateKey(sortBy, r[j])
    {
      DateLe(sortBy, sortOrder, r[i], r[j]);
    }
  }

  /** The comparator on titles, stated as code-unit order of the lower-cased
      titles. */
  lemma TitleLe(sortOrder: Option<String>, a: Link, b: Link)
    ensures LinkOrder("title", sortOrder)(a, b) <==>
      if sortOrder == Some("desc") then LexLe(ToLower(b.title), ToLower(a.title))
      else LexLe(ToLower(a.title), ToLower(b.title))
  {
    LexLeTotal(ToLower(a.title), ToLower(b.title));
  }

  lemma TitleOrderFacts(s: seq<Link>, sortOrder: Option<String>)
    ensures TotalOn(s, LinkOrder("title", sortOrder)) && TransitiveOn(s, LinkOrder("title", sortOrder))
  {
    var le := LinkOrder("title", sortOrder);
    forall i, j | 0 <= i < |s| && 0 <= j < |s| ensures le(s[i], s[j]) || le(s[j], s[i]) {
      TitleLe(sortOrder, s[i], s[j]);
      TitleLe(sortOrder, s[j], s[i]);
      LexLeTotal(ToLower(s[i].title), ToLower(s[j].title));
    }
    forall i, j, k |
      0 <= i < |s| && 0 <= j < |s| && 0 <= k < |s| && le(s[i], s[j]) && le(s[j], s[k])
      ensures le(s[i], s[k])
    {
      TitleLe(sortOrder, s[i], s[j]);
      TitleLe(sortOrder, s[j], s[k]);
      TitleLe(sortOrder, s[i], s[k]);
      var ti, tj, tk := ToLower(s[i].title), ToLower(s[j].title), ToLower(s[k].title);
      if sortOrder == Some("desc") {
        LexLeTransitive(tk, tj, ti);
      } else {
        LexLeTransitive(ti, tj, tk);
      }
    }
  }

  /** 'title' orders the lower-cased titles, last first under 'desc'. */
  lemma SortByTitle(links: seq<Link>, sortOrder: Option<String>)
    ensures var r := SortLinks(links, "title", sortOrder);
      forall i, j :: 0 <= i < j < |r| ==>
        if sortOrder == Some("desc") then LexLe(ToLower(r[j].title), ToLower(r[i].title))
        else LexLe(ToLower(r[i].title), ToLower(r[j].title))
  {
    var le := LinkOrder("title", sortOrder);
    TitleOrderFacts(links, sortOrder);
    SortSorted(links, le);
    var r := SortLinks(links, "title", sortOrder);
    TitleOrderFacts(r, sortOrder);
    SortedPairs(r, le);
    forall i, j | 0 <= i < j < |r|
      ensures if sortOrder == Some("desc") then LexLe(ToLower(r[j].title), ToLower(r[i].title))
        else LexLe(ToLower(r[i].title), ToLower(r[j].title))
    {
      TitleLe(sortOrder, r[i], r[j]);
    }
  }

  /** An unknown key compares every pair as equal, and the stable sort then
      keeps the order the links came in. */
  lemma UnknownKeyKeepsOrder(links: seq<Link>, sortBy: String, sortOrder: Option<String>)
    requires sortBy != "title" && sortBy != "created" && sortBy != "updated"
    ensures SortLinks(links, sortBy, sortOrder) == links
  {
    SortOfSorted(links, LinkOrder(sortBy, sortOrder));
  }

  // ---------------------------------------------------------------------------
  // Sort selector
  // ---------------------------------------------------------------------------

  /** `const [sortBy, sortOrder] = value.split('-')`: the order is `None`
      (undefined) when the value holds no '-'. */
  function SortSelector(value: String): (r: (String, Option<String>))
    ensures '-' !in value ==> r == (value, None)
  {
    var parts := Split(value, '-');
    NoDashOnePart(value);
    (parts[0], if |parts| > 1 then Some(parts[1]) else None)
  }

  lemma NoDashOnePart(value: String)
    ensures '-' !in value ==> Split(value, '-') == [value]
  {
    if '-' !in value {
      SplitNoSeparator(value, '-');
    }
  }

  /** Every option of the selector, 'key-order', reads back as its key and
      its order. */
  lemma SelectorReadsBack(key: String, order: String)
    requires '-' !in key && '-' !in order
    ensures SortSelector(key + "-" + order) == (key, Some(order))
  {
    SplitAtFirstSeparator(key, '-', order);
    SplitNoSeparator(order, '-');
    assert key + "-" + order == key + ['-'] + order;
  }

  // ---------------------------------------------------------------------------
  // Saving from the form
  // ---------------------------------------------------------------------------

  /** The four text fields of the link form. */
  datatype LinkForm = LinkForm(url: String, title: String, description: String, tags: String)

  /** What `saveLinkFromForm` posts. */
  datatype LinkData = LinkData(url: String, title: String, description: String, tags: seq<String>)

  /** `saveLinkFromForm`: rejected with a message, or the payload. */
  datatype Submission = Rejected(message: String) | Accepted(data: LinkData)

  /** The text fields are trimmed, the tags split on ',', trimmed, and the
      empty ones dropped; a blank URL rejects the form. */
  function SavedLink(form: LinkForm): (r: Submission)
    ensures r.Rejected? <==> Trim(form.url) == []
    ensures r.Rejected? ==> r.message == "URL is required"
    ensures r.Accepted? ==>
      && r.data.url != [] && Trimmed(r.data.url)
      && Trimmed(r.data.title) && Trimmed(r.data.description)
      && forall i :: 0 <= i < |r.data.tags| ==> r.data.tags[i] != [] && Trimmed(r.data.tags[i])
  {
    var data := LinkData(Trim(form.url), Trim(form.title), Trim(form.description), SplitTags(form.tags));
    if data.url == [] then Rejected("URL is required") else Accepted(data)
  }

  /** `editLink`: the form shows the link's fields, its tags joined by ", ".
      Saving it unchanged posts the same fields back, when they are already
      in the form saving produces. */
  function EditLinkForm(l: Link): (f: LinkForm)
    ensures f.url == l.url && f.title == l.title && f.description == l.description
    ensures SaveReady(l) ==> SavedLink(f) == Accepted(LinkData(l.url, l.title, l.description, l.tags))
  {
    var f := LinkForm(l.url, l.title, l.description, Join(l.tags, ", "));
    EditThenSaveKeepsLink(l, f);
    f
  }

  /** A link already in the form saving produces. */
  predicate SaveReady(l: Link) {
    && l.url != [] && Trimmed(l.url) && Trimmed(l.title) && Trimmed(l.description)
    && forall i :: 0 <= i < |l.tags| ==> WellFormedTag(l.tags[i])
  }

  lemma EditThenSaveKeepsLink(l: Link, f: LinkForm)
    requires f == LinkForm(l.url, l.title, l.description, Join(l.tags, ", "))
    ensures SaveReady(l) ==> SavedLink(f) == Accepted(LinkData(l.url, l.title, l.description, l.tags))
  {
    if SaveReady(l) {
      TrimOfTrimmed(l.url);
      TrimOfTrimmed(l.title);
      TrimOfTrimmed(l.description);
      SplitJoinTags(l.tags);
    }
  }

  // ---------------------------------------------------------------------------
  // The manager
  // ---------------------------------------------------------------------------

  class LinksManager {
    var links: seq<Link>
    var filteredLinks: seq<Link>
    var currentFilter: String
    var sortBy: String
    var sortOrder: Option<String>
    var searchQuery: String

    constructor ()
      ensures links == [] && filteredLinks == [] && currentFilter == "all"
      ensures sortBy == "created" && sortOrder == Some("desc") && searchQuery == []
    {
      links := [];
      filteredLinks := [];
      currentFilter := "all";
      sortBy := "created";
      sortOrder := Some("desc");
      searchQuery := [];
    }

    /** `applyFilters()`: a searched and sorted copy; `links` itself stays. */
    method ApplyFilters()
      modifies this
      ensures filteredLinks == VisibleLinks(links, searchQuery, sortBy, sortOrder)
      ensures links == old(links) && searchQuery == old(searchQuery)
      ensures sortBy == old(sortBy) && sortOrder == old(sortOrder) && currentFilter == old(currentFilter)
    {
      var shown := links;
      if !Blank(searchQuery) {
        var query := ToLower(searchQuery);
        shown := Filter(shown, MatchesQuery(query));
      }
      filteredLinks := SortLinks(shown, sortBy, sortOrder);
    }

    /** `loadLinks()`: `fetched` is the answer of the request, `None` when it
      failed. A list is stored and filtered again; a failure empties both
      lists. */
    method Load(fetched: Option<seq<Link>>)
      modifies this
      ensures fetched.Some? ==> links == fetched.value
      ensures fetched.Some? ==> filteredLinks == VisibleLinks(fetched.value, searchQuery, sortBy, sortOrder)
      ensures fetched.None? ==> links == [] && filteredLinks == []
      ensures searchQuery == old(searchQuery) && sortBy == old(sortBy) && sortOrder == old(sortOrder)
      ensures currentFilter == old(currentFilter)
    {
      match fetched
      case Some(data) =>
        links := data;
        ApplyFilters();
      case None =>
        links := [];
        filteredLinks := [];
    }

    /** The search box stores its value as typed. */
    method OnSearchInput(value: String)
      modifies this
      ensures searchQuery == value
      ensures filteredLinks == VisibleLinks(links, value, sortBy, sortOrder)
      ensures links == old(links) && sortBy == old(sortBy) && sortOrder == old(sortOrder)
      ensures currentFilter == old(currentFilter)
    {
      searchQuery := value;
      ApplyFilters();
    }

    /** The sort selector's value is split into key and order. */
    method OnSortChange(value: String)
      modifies this
      ensures (sortBy, sortOrder) == SortSelector(value)
      ensures filteredLinks == VisibleLinks(links, searchQuery, sortBy, sortOrder)
      ensures links == old(links) && searchQuery == old(searchQuery) && currentFilter == old(currentFilter)
    {
      var parts := SortSelector(value);
      sortBy := parts.0;
      sortOrder := parts.1;
      ApplyFilters();
    }
  }

  /** With a blank search box every saved link is shown, newest first under
      the initial sort. */
  method BlankSearchShowsAll(m: LinksManager, data: seq<Link>) returns (r: seq<Link>)
    modifies m
    ensures multiset(r) == multiset(data)
  {
    m.Load(Some(data));
    m.OnSearchInput("   ");
    r := m.filteredLinks;
    assert Blank("   ");
  }
}
