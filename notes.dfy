/** The notes view (public/js/notes.js): which notes the list shows and in
    what order, the card preview and word count, the editor form's
    defaults, and the formatting toolbar's splice of the text area. */
module Notes {
  import opened Optionals
  import opened Strings
  import opened Sorting

  /** A stored note; timestamps are milliseconds since the epoch. */
  datatype Note = Note(
    id: int,
    title: String,
    content: String,
    tags: Option<seq<String>>,
    pinned: bool,
    createdAt: int,
    updatedAt: int)

  // ---------------------------------------------------------------------------
  // Filtering
  // ---------------------------------------------------------------------------

  /** The search matches title or content, ignoring case; tags are not
      searched. A tag filter keeps only notes that carry that exact tag. */
  predicate NoteShown(n: Note, query: String, tag: Option<String>) {
    && (query == []
        || Contains(ToLower(n.title), ToLower(query))
        || Contains(ToLower(n.content), ToLower(query)))
    && (tag.None? || tag.value == [] || (n.tags.Some? && tag.value in n.tags.value))
  }

  function NoteFilter(query: String, tag: Option<String>): Note -> bool {
    (n: Note) => NoteShown(n, query, tag)
  }

  /** `getFilteredNotes()`: the shown notes, in stored order. */
  function FilteredNotes(notes: seq<Note>, query: String, tag: Option<String>): (r: seq<Note>)
    ensures forall i :: 0 <= i < |r| ==> r[i] in notes && NoteShown(r[i], query, tag)
    ensures forall i :: 0 <= i < |notes| && NoteShown(notes[i], query, tag) ==> notes[i] in r
  {
    Filter(notes, NoteFilter(query, tag))
  }

  /** With no query and no tag every note is listed, in order. */
  lemma NoFiltersShowAll(notes: seq<Note>)
    ensures FilteredNotes(notes, [], None) == notes
  {
    FilterKeepAll(notes, NoteFilter([], None));
  }

  /** Tags play no part in the text search. */
  lemma SearchIgnoresTags(n: Note, query: String, tags: Option<seq<String>>)
    ensures NoteShown(n.(tags := tags), query, None) == NoteShown(n, query, None)
  {
  }

  /** The search ignores the case of the query. */
  lemma SearchIgnoresCase(n: Note, query: String, tag: Option<String>)
    ensures NoteShown(n, ToLower(query), tag) == NoteShown(n, query, tag)
  {
    ToLowerIdempotent(query);
  }

  // ---------------------------------------------------------------------------
  // Sorting
  // ---------------------------------------------------------------------------

  /** `cmp(a, b) <= 0` for the comparator `sortNotes` picks from `sortBy`. */
  predicate NoteLe(sortBy: String, a: Note, b: Note) {
    if sortBy == "created" then
      b.createdAt - a.createdAt <= 0
    else if sortBy == "title" then
      LexLe(a.title, b.title)
    else if sortBy == "pinned" then
      if a.pinned && !b.pinned then true
      else if !a.pinned && b.pinned then false
      else b.updatedAt - a.updatedAt <= 0
    else
      b.updatedAt - a.updatedAt <= 0
  }

  function NoteOrder(sortBy: String): (Note, Note) -> bool {
    (a: Note, b: Note) => NoteLe(sortBy, a, b)
  }

  /** `sortNotes(notes)`: a sorted copy of the list. */
  function SortNotes(notes: seq<Note>, sortBy: String): (r: seq<Note>)
    ensures multiset(r) == multiset(notes)
  {
    Sort(notes, NoteOrder(sortBy))
  }

  /** 'pinned' lists every pinned note before every unpinned one, and the most
      recently updated first within each group. */
  lemma SortPinnedFirst(notes: seq<Note>)
    ensures var r := SortNotes(notes, "pinned");
      forall i, j :: 0 <= i < j < |r| ==>
        && (r[j].pinned ==> r[i].pinned)
        && (r[i].pinned == r[j].pinned ==> r[i].updatedAt >= r[j].updatedAt)
  {
    var le := NoteOrder("pinned");
    var r := SortNotes(notes, "pinned");
    SortSorted(notes, le);
    SortedPairs(r, le);
  }

  /** 'updated', and any value the selector does not offer, lists the most
      recently updated note first. */
  lemma SortByUpdated(notes: seq<Note>, sortBy: String)
    requires sortBy != "created" && sortBy != "title" && sortBy != "pinned"
    ensures var r := SortNotes(notes, sortBy);
      forall i, j :: 0 <= i < j < |r| ==> r[i].updatedAt >= r[j].updatedAt
  {
    var le := NoteOrder(sortBy);
    SortSorted(notes, le);
    SortedPairs(SortNotes(notes, sortBy), le);
  }

  /** 'created' lists the newest note first. */
  lemma SortByCreated(notes: seq<Note>)
    ensures var r := SortNotes(notes, "created");
      forall i, j :: 0 <= i < j < |r| ==> r[i].createdAt >= r[j].createdAt
  {
    var le := NoteOrder("created");
    SortSorted(notes, le);
    SortedPairs(SortNotes(notes, "created"), le);
  }

  // ---------------------------------------------------------------------------
  // Card preview and word count
  // ---------------------------------------------------------------------------

  const PreviewLength: nat := 150

  /** `getContentPreview(content, maxLength)`. `strip` stands for the
      markdown-removing replacements, which are not part of this model; the
      stripped text is then trimmed and cut to `maxLength` characters plus an
      ellipsis. */
  function ContentPreview(content: String, strip: String -> String, maxLength: nat): (r: String)
    ensures content == [] ==> r == "No content"
    ensures content != [] ==> |r| <= maxLength + 3
  {
    if content == [] then "No content"
    else
      var plain := Trim(strip(content));
      if |plain| > maxLength then plain[..maxLength] + "..." else plain
  }

  /** A preview is the stripped text itself when it is short enough, and
      otherwise its first `maxLength` characters followed by "...". */
  lemma PreviewKeepsStart(content: String, strip: String -> String, maxLength: nat)
    requires content != []
    ensures var plain := Trim(strip(content));
      var r := ContentPreview(content, strip, maxLength);
      && (|plain| <= maxLength ==> r == plain)
      && (|plain| > maxLength ==> |r| == maxLength + 3 && r[..maxLength] == plain[..maxLength])
  {
  }

  /** A card preview never exceeds 153 characters. */
  lemma PreviewBound(content: String, strip: String -> String)
    ensures |ContentPreview(content, strip, PreviewLength)| <= PreviewLength + 3
  {
  }

  /** `s.split(/\s+/)`: the pieces between maximal whitespace runs, always at
      least one (a leading or trailing run gives an empty piece). */
  function SplitOnSpaceRuns(s: String): (r: seq<String>)
    ensures |r| >= 1
    decreases |s|
  {
    if s == [] then [[]]
    else if IsSpace(s[0]) then [[]] + SplitOnSpaceRuns(TrimStart(s[1..]))
    else
      var rest := SplitOnSpaceRuns(s[1..]);
      [[s[0]] + rest[0]] + rest[1..]
  }

  function NonEmpty(w: String): bool {
    w != []
  }

  /** `getWordCount(content)`. */
  function WordCount(content: String): (n: nat)
    ensures content == [] ==> n == 0
  {
    if content == [] then 0
    else |Filter(SplitOnSpaceRuns(Trim(content)), NonEmpty)|
  }

  /** Reference count of words: positions holding a non-space character that
      starts the text or follows a space (`afterSpace` says whether the
      character before `s` was a space, or there was none). */
  function WordStarts(s: String, afterSpace: bool): nat
    decreases |s|
  {
    if s == [] then 0
    else (if afterSpace && !IsSpace(s[0]) then 1 else 0) + WordStarts(s[1..], IsSpace(s[0]))
  }

  /** The word count is the number of word starts: every non-space character
      that begins the content or follows whitespace. */
  lemma WordCountIsWordStarts(content: String)
    ensures WordCount(content) == WordStarts(content, true)
  {
    if content != [] {
      var t := TrimStart(content);
      WordStartsTrimStart(content);
      WordStartsTrimEnd(t, true);
      SplitCountsWordStarts(TrimEnd(t));
    }
  }

  /** Leading whitespace starts no word. */
  lemma {:induction false} WordStartsTrimStart(s: String)
    ensures WordStarts(TrimStart(s), true) == WordStarts(s, true)
    decreases |s|
  {
    if s != [] && IsSpace(s[0]) {
      WordStartsTrimStart(s[1..]);
    }
  }

  /** Trailing whitespace starts no word. */
  lemma {:induction false} WordStartsTrimEnd(s: String, afterSpace: bool)
    ensures WordStarts(TrimEnd(s), afterSpace) == WordStarts(s, afterSpace)
    decreases |s|
  {
    if s != [] && IsSpace(s[|s| - 1]) {
      WordStartsDropLastSpace(s, afterSpace);
      WordStartsTrimEnd(s[..|s| - 1], afterSpace);
    }
  }

  lemma {:induction false} WordStartsDropLastSpace(s: String, afterSpace: bool)
    requires s != [] && IsSpace(s[|s| - 1])
    ensures WordStarts(s[..|s| - 1], afterSpace) == WordStarts(s, afterSpace)
    decreases |s|
  {
    if |s| > 1 {
      var front := s[..|s| - 1];
      assert front[1..] == s[1..][..|s[1..]| - 1];
      WordStartsDropLastSpace(s[1..], IsSpace(s[0]));
    }
  }

  /** The non-empty pieces of the split are exactly the word starts; the
      pieces after the first are those starting after the first character. */
  lemma {:induction false} SplitCountsWordStarts(s: String)
    ensures SplitCounts(s)
    decreases |s|
  {
    if s != [] {
      if IsSpace(s[0]) {
        var t := TrimStart(s[1..]);
        SplitCountsWordStarts(t);
        SplitCountsAfterSpace(s, t);
      } else {
        SplitCountsWordStarts(s[1..]);
        SplitCountsAfterWordChar(s);
      }
    }
  }

  predicate SplitCounts(s: String) {
    && WordStarts(s, true) == |Filter(SplitOnSpaceRuns(s), NonEmpty)|
    && WordStarts(s, false) == |Filter(SplitOnSpaceRuns(s)[1..], NonEmpty)|
  }

  lemma SplitCountsAfterSpace(s: String, t: String)
    requires s != [] && IsSpace(s[0]) && t == TrimStart(s[1..])
    requires SplitCounts(t)
    ensures SplitCounts(s)
  {
    WordStartsTrimStart(s[1..]);
    var pieces := SplitOnSpaceRuns(t);
    assert SplitOnSpaceRuns(s) == [[]] + pieces;
    assert SplitOnSpaceRuns(s)[1..] == pieces;
    FilterAppend([[]], pieces, NonEmpty);
  }

  lemma SplitCountsAfterWordChar(s: String)
    requires s != [] && !IsSpace(s[0])
    requires SplitCounts(s[1..])
    ensures SplitCounts(s)
  {
    var rest := SplitOnSpaceRuns(s[1..]);
    var pieces := SplitOnSpaceRuns(s);
    assert pieces == [[s[0]] + rest[0]] + rest[1..];
    assert pieces[1..] == rest[1..];
    assert rest == [rest[0]] + rest[1..];
    FilterAppend([rest[0]], rest[1..], NonEmpty);
    FilterAppend([[s[0]] + rest[0]], rest[1..], NonEmpty);
  }

  // ---------------------------------------------------------------------------
  // The editor form
  // ---------------------------------------------------------------------------

  /** What `saveNote` sends. */
  datatype NoteDraft = NoteDraft(title: String, content: String, tags: seq<String>)

  /** The three fields of the editor, as `editNote` fills them. */
  datatype EditorForm = EditorForm(title: String, content: String, tags: String)

  /** `saveNote`: the title is trimmed, or 'Untitled Note' when blank; the
      content is trimmed; tags are split on ',', trimmed and the empty ones
      dropped. */
  function SavedDraft(form: EditorForm): (d: NoteDraft)
    ensures d.title != [] && Trimmed(d.title)
    ensures Trimmed(d.content)
    ensures forall i :: 0 <= i < |d.tags| ==> d.tags[i] != [] && Trimmed(d.tags[i])
  {
    NoteDraft(SavedTitle(form.title), Trim(form.content), SavedTags(form.tags))
  }

  /** The title field trimmed, 'Untitled Note' when blank. */
  function SavedTitle(input: String): (r: String)
    ensures r != [] && Trimmed(r)
    ensures Trim(input) == [] ==> r == "Untitled Note"
    ensures Trim(input) != [] ==> r == Trim(input)
  {
    var title := Trim(input);
    var untitled := "Untitled Note";
    assert !IsSpace(untitled[0]) && !IsSpace(untitled[|untitled| - 1]);
    if title == [] then untitled else title
  }

  /** The tags field: trimmed, then no tags when blank and the split list
      otherwise. */
  function SavedTags(input: String): (r: seq<String>)
    ensures forall i :: 0 <= i < |r| ==> r[i] != [] && Trimmed(r[i])
  {
    var tagsInput := Trim(input);
    if tagsInput == [] then [] else SplitTags(tagsInput)
  }

  /** `editNote`: the form shows the note's fields, the tags joined by ", ".
      Saving it without edits sends back the same title, content and tags,
      when they are already in the form saving produces. */
  function EditForm(n: Note): (f: EditorForm)
    ensures f.title == n.title && f.content == n.content
    ensures SaveReady(n) ==> SavedDraft(f) == NoteDraft(n.title, n.content, n.tags.GetOr([]))
  {
    var f := EditorForm(n.title, n.content, if n.tags.Some? then Join(n.tags.value, ", ") else []);
    if SaveReady(n) then EditThenSaveKeeps(n, f); f else f
  }

  /** A note already in the form `saveNote` produces. */
  predicate SaveReady(n: Note) {
    && n.title != [] && Trimmed(n.title) && Trimmed(n.content)
    && (n.tags.Some? ==> forall i :: 0 <= i < |n.tags.value| ==> WellFormedTag(n.tags.value[i]))
  }

  lemma EditThenSaveKeeps(n: Note, form: EditorForm)
    requires SaveReady(n)
    requires form == EditorForm(n.title, n.content, if n.tags.Some? then Join(n.tags.value, ", ") else [])
    ensures SavedDraft(form) == NoteDraft(n.title, n.content, n.tags.GetOr([]))
  {
    SavedTitleOfTrimmed(form.title);
    TrimOfTrimmed(form.content);
    SavedTagsOfShown(n.tags, form.tags);
    SavedDraftOf(form, n.title, n.content, n.tags.GetOr([]));
  }

  lemma SavedTitleOfTrimmed(title: String)
    requires title != [] && Trimmed(title)
    ensures SavedTitle(title) == title
  {
    TrimOfTrimmed(title);
  }

  lemma SavedDraftOf(form: EditorForm, title: String, content: String, tags: seq<String>)
    requires SavedTitle(form.title) == title && Trim(form.content) == content && SavedTags(form.tags) == tags
    ensures SavedDraft(form) == NoteDraft(title, content, tags)
  {
  }

  /** The tags field as the editor fills it is saved back as the note's tags. */
  lemma SavedTagsOfShown(tags: Option<seq<String>>, shown: String)
    requires shown == if tags.Some? then Join(tags.value, ", ") else []
    requires tags.Some? ==> forall i :: 0 <= i < |tags.value| ==> WellFormedTag(tags.value[i])
    ensures SavedTags(shown) == tags.GetOr([])
  {
    if tags.Some? {
      SavedTagsOfJoin(tags.value);
    } else {
      assert Trim(shown) == [];
    }
  }

  /** Tags shown joined by ", " are saved back unchanged. */
  lemma SavedTagsOfJoin(tags: seq<String>)
    requires forall i :: 0 <= i < |tags| ==> WellFormedTag(tags[i])
    ensures SavedTags(Join(tags, ", ")) == tags
  {
    if tags != [] {
      JoinTagsTrimmed(tags);
      SavedTagsOfTrimmed(Join(tags, ", "));
      SplitJoinTags(tags);
    }
  }

  lemma SavedTagsOfTrimmed(s: String)
    requires s != [] && Trimmed(s)
    ensures SavedTags(s) == SplitTags(s)
  {
    TrimOfTrimmed(s);
  }

  /** Well-formed tags joined by ", " give a trimmed text, empty only when
      there are no tags. */
  lemma {:induction false} JoinTagsTrimmed(tags: seq<String>)
    requires forall i :: 0 <= i < |tags| ==> WellFormedTag(tags[i])
    ensures Trimmed(Join(tags, ", "))
    ensures tags != [] ==> Join(tags, ", ") != []
  {
    if |tags| > 1 {
      JoinTagsTrimmed(tags[1..]);
      var rest := Join(tags[1..], ", ");
      var whole := tags[0] + ", " + rest;
      assert whole[0] == tags[0][0];
      assert whole[|whole| - 1] == rest[|rest| - 1];
    }
  }

  // ---------------------------------------------------------------------------
  // Formatting toolbar
  // ---------------------------------------------------------------------------

  /** The markers a toolbar action puts around (or, with an empty closing
      marker, in front of) the selection; the link action is separate. */
  function Markers(action: String): Option<(String, String)> {
    if action == "bold" then Some(("**", "**"))
    else if action == "italic" then Some(("*", "*"))
    else if action == "heading" then Some(("# ", ""))
    else if action == "list" then Some(("- ", ""))
    else if action == "code" then Some(("`", "`"))
    else None
  }

  /** The text `applyFormatting` writes over the selection, empty when it
      writes nothing (an unknown action, or a link whose URL prompt was
      cancelled or left blank). */
  function Replacement(action: String, selected: String, url: Option<String>): String {
    if action == "link" then
      if url.Some? && url.value != [] then
        "[" + (if selected == [] then "Link text" else selected) + "](" + url.value + ")"
      else []
    else match Markers(action)
      case Some((open, close)) => open + selected + close
      case None => []
  }

  /** Where the cursor goes: bold, italic and code with an empty selection
      put it just inside the opening marker, every other case after the
      replacement. */
  function CursorAfter(action: String, selected: String, start: nat, replacement: String): nat {
    if action == "bold" && selected == [] then start + 2
    else if (action == "italic" || action == "code") && selected == [] then start + 1
    else start + |replacement|
  }

  /** The new text and cursor of `applyFormatting`, or `None` when it leaves
      the text area alone. */
  function Formatted(text: String, start: nat, end: nat, action: String, url: Option<String>): (r: Option<(String, nat)>)
    requires start <= end <= |text|
    ensures r.None? <==> Replacement(action, text[start..end], url) == []
    ensures r.Some? ==> var (t, cursor) := r.value;
      && |t| >= start + |text| - end
      && t[..start] == text[..start]
      && t[|t| - (|text| - end)..] == text[end..]
      && start <= cursor <= |t| - (|text| - end)
  {
    var selected := text[start..end];
    var replacement := Replacement(action, selected, url);
    if replacement == [] then None
    else
      var t := text[..start] + replacement + text[end..];
      assert t[..start] == text[..start];
      assert t[|t| - (|text| - end)..] == text[end..];
      Some((t, CursorAfter(action, selected, start, replacement)))
  }

  /** For the marker actions the replacement is the selection wrapped in the
      markers, and the cursor lands between the markers when nothing was
      selected and after the closing marker otherwise. */
  lemma FormattingWraps(text: String, start: nat, end: nat, action: String, url: Option<String>, open: String, close: String)
    requires start <= end <= |text|
    requires Markers(action) == Some((open, close))
    ensures var selected := text[start..end];
      Formatted(text, start, end, action, url)
      == Some((text[..start] + open + selected + close + text[end..],
               if selected == [] then start + |open| else start + |open + selected + close|))
  {
    var selected := text[start..end];
    var rep := open + selected + close;
    assert action != "link";
    assert Replacement(action, selected, url) == rep;
    assert text[..start] + rep + text[end..] == text[..start] + open + selected + close + text[end..];
    assert Formatted(text, start, end, action, url)
      == Some((text[..start] + rep + text[end..], CursorAfter(action, selected, start, rep)));
    if action == "bold" {
      assert open == "**";
    } else if action == "italic" || action == "code" {
      assert |open| == 1;
    } else {
      assert close == [];
    }
  }

  /** `t` with the `openLen` characters before and the `closeLen`
      characters after its `len` characters from `start + openLen` cut out. */
  function Unwrap(t: String, start: nat, len: nat, openLen: nat, closeLen: nat): (r: String)
    requires start + openLen + len + closeLen <= |t|
    ensures |r| == |t| - openLen - closeLen
  {
    t[..start] + t[start + openLen..start + openLen + len] + t[start + openLen + len + closeLen..]
  }

  /** Taking the markers back out of a formatted text gives the original. */
  lemma FormattingUnwraps(text: String, start: nat, end: nat, action: String, url: Option<String>, open: String, close: String)
    requires start <= end <= |text|
    requires Markers(action) == Some((open, close))
    ensures Formatted(text, start, end, action, url).Some?
    ensures var t := Formatted(text, start, end, action, url).value.0;
      && start + |open| + (end - start) + |close| <= |t|
      && Unwrap(t, start, end - start, |open|, |close|) == text
  {
    var t := text[..start] + open + text[start..end] + close + text[end..];
    FormattingWraps(text, start, end, action, url, open, close);
    assert Formatted(text, start, end, action, url).value.0 == t;
    SpliceUnwraps(text, start, end, open, close, t);
  }

  /** Cutting the two markers back out of the spliced text. */
  lemma SpliceUnwraps(text: String, start: nat, end: nat, open: String, close: String, t: String)
    requires start <= end <= |text|
    requires t == text[..start] + open + text[start..end] + close + text[end..]
    ensures start + |open| + (end - start) + |close| <= |t|
    ensures Unwrap(t, start, end - start, |open|, |close|) == text
  {
    SpliceParts(text[..start], open, text[start..end], close, text[end..], t);
    assert text == text[..start] + text[start..end] + text[end..];
  }

  lemma SpliceParts(a: String, open: String, s: String, close: String, b: String, t: String)
    requires t == a + open + s + close + b
    ensures t[..|a|] == a
    ensures t[|a| + |open|..|a| + |open| + |s|] == s
    ensures t[|a| + |open| + |s| + |close|..] == b
  {
  }

  /** A note found by id, as `notes.find(n => n.id === id)`. */
  function FindNote(notes: seq<Note>, id: int): (r: Option<Note>)
    ensures r.Some? ==> r.value in notes && r.value.id == id
    ensures r.Some? ==>
      exists i :: 0 <= i < |notes| && notes[i] == r.value && forall j :: 0 <= j < i ==> notes[j].id != id
    ensures r.None? ==> forall i :: 0 <= i < |notes| ==> notes[i].id != id
  {
    if notes == [] then None
    else if notes[0].id == id then Some(notes[0])
    else FindNote(notes[1..], id)
  }

  /** The list view's state. */
  class NotesManager {
    var selectedNote: Option<Note>
    var editingMode: bool
    var searchQuery: String
    var filterTag: Option<String>
    var sortBy: String

    constructor ()
      ensures selectedNote.None? && !editingMode
      ensures searchQuery == [] && filterTag.None? && sortBy == "updated"
    {
      selectedNote := None;
      editingMode := false;
      searchQuery := [];
      filterTag := None;
      sortBy := "updated";
    }

    /** The search box stores its value trimmed. */
    method OnSearchInput(value: String)
      modifies this
      ensures searchQuery == Trim(value)
      ensures filterTag == old(filterTag) && sortBy == old(sortBy)
      ensures selectedNote == old(selectedNote) && editingMode == old(editingMode)
    {
      searchQuery := Trim(value);
    }

    /** The tag selector's empty option clears the tag filter. */
    method OnTagFilterChange(value: String)
      modifies this
      ensures filterTag == if value == [] then None else Some(value)
      ensures searchQuery == old(searchQuery) && sortBy == old(sortBy)
      ensures selectedNote == old(selectedNote) && editingMode == old(editingMode)
    {
      filterTag := if value == [] then None else Some(value);
    }

    method OnSortChange(value: String)
      modifies this
      ensures sortBy == value
      ensures searchQuery == old(searchQuery) && filterTag == old(filterTag)
      ensures selectedNote == old(selectedNote) && editingMode == old(editingMode)
    {
      sortBy := value;
    }

    /** `clearFilters()`: no query and no tag; the sort order stays. */
    method ClearFilters()
      modifies this
      ensures searchQuery == [] && filterTag.None?
      ensures sortBy == old(sortBy)
      ensures selectedNote == old(selectedNote) && editingMode == old(editingMode)
    {
      searchQuery := [];
      filterTag := None;
    }

    /** `renderNotes()`: the filtered notes in the chosen order. */
    method VisibleNotes(notes: seq<Note>) returns (r: seq<Note>)
      ensures r == SortNotes(FilteredNotes(notes, searchQuery, filterTag), sortBy)
      ensures multiset(r) <= multiset(notes)
    {
      var shown := FilteredNotes(notes, searchQuery, filterTag);
      r := SortNotes(shown, sortBy);
    }

    /** `editNote(id)`: an unknown id does nothing; otherwise the note becomes
      the selected one and its fields fill the form. */
    method EditNote(notes: seq<Note>, id: int) returns (form: Option<EditorForm>)
      modifies this
      ensures FindNote(notes, id).None? ==>
        form.None? && selectedNote == old(selectedNote) && editingMode == old(editingMode)
      ensures FindNote(notes, id).Some? ==>
        && selectedNote == FindNote(notes, id) && editingMode
        && form == Some(EditForm(FindNote(notes, id).value))
      ensures searchQuery == old(searchQuery) && filterTag == old(filterTag) && sortBy == old(sortBy)
    {
      var found := FindNote(notes, id);
      if found.None? {
        form := None;
      } else {
        selectedNote := found;
        editingMode := true;
        form := Some(EditForm(found.value));
      }
    }

    /** `closeEditor()`. */
    method CloseEditor()
      modifies this
      ensures selectedNote.None? && !editingMode
      ensures searchQuery == old(searchQuery) && filterTag == old(filterTag) && sortBy == old(sortBy)
    {
      selectedNote := None;
      editingMode := false;
    }
  }

  /** After clearing the filters every note is listed again. */
  method ClearFiltersShowsAll(m: NotesManager, notes: seq<Note>) returns (r: seq<Note>)
    modifies m
    ensures multiset(r) == multiset(notes)
  {
    m.ClearFilters();
    r := m.VisibleNotes(notes);
    NoFiltersShowAll(notes);
  }

  /** The note editor's text area: its text and selection. */
  class NoteEditor {
    var value: String
    var selectionStart: nat
    var selectionEnd: nat

    predicate Valid()
      reads this
    {
      selectionStart <= selectionEnd <= |value|
    }

    constructor (text: String)
      ensures value == text && selectionStart == 0 && selectionEnd == 0
      ensures Valid()
    {
      value := text;
      selectionStart := 0;
      selectionEnd := 0;
    }

    /** `applyFormatting(action)`; `url` is the answer to the link prompt,
      `None` when it was cancelled. */
    method ApplyFormatting(action: String, url: Option<String>)
      requires Valid()
      modifies this
      ensures Valid()
      ensures var r := Formatted(old(value), old(selectionStart), old(selectionEnd), action, url);
        && (r.None? ==> value == old(value) && selectionStart == old(selectionStart) && selectionEnd == old(selectionEnd))
        && (r.Some? ==> value == r.value.0 && selectionStart == r.value.1 && selectionEnd == r.value.1)
    {
      var start := selectionStart;
      var end := selectionEnd;
      var selectedText := value[start..end];
      var replacement := Replacement(action, selectedText, url);
      if replacement != [] {
        var newCursorPos := CursorAfter(action, selectedText, start, replacement);
        value := value[..start] + replacement + value[end..];
        selectionStart := newCursorPos;
        selectionEnd := newCursorPos;
      }
    }
  }
}
