# Mission Control in Dafny

Mission Control is a personal productivity tool. It has a Kanban task board, notes and bookmarked links, and it serves two named users. This project models its decision logic in Dafny and proves properties of that model. Three parts are modelled:

- **The server's task document** (`server.js`). The document holds the columns, the tasks, the categories and the id counter. Its create, update, delete and comment handlers are methods of the class `TaskStore.TaskDocument`. The class invariant says that task ids strictly increase along the list and stay below the counter.
- **The quick-capture box** (`public/js/capture.js`). This covers the natural-language task parser `parseTaskText`, link normalisation, type detection and the `quickAddTask` payload.
  - Each regular expression is re-expressed as a matcher at one position of a `seq<char>` (module `TextPatterns`).
  - `TextPatterns` gives the three JavaScript ways of applying a pattern: leftmost match, all matches with `g`, and deletion with `g`.
  - Dates are day numbers (days since 1970-01-01, module `Dates`). "Today" is a parameter.
- **The list logic of the front end** (`public/js/*.js`). This is what each view computes before rendering:
  - board filters, sort comparators and collapsed columns (`Board`);
  - note search, sort, preview, word count, save and formatting (`Notes`);
  - link search, sort, sort selector and save (`Links`);
  - recent searches, result navigation and the search cache (`Search`);
  - dashboard counts, completion toggle, upcoming order and icons (`Dashboard`);
  - the shared helpers (`Utils`);
  - the application controller's view, theme and quick-capture state (`App`).

Stateful source objects are classes whose methods carry `modifies` clauses and state the whole new state. These are `TaskDocument`, `KanbanBoard`, `NotesManager`, the note editor's text area, `LinksManager`, `GlobalSearch`, `QuickCapture` and `MissionControlApp`. Pure computations are functions with lemmas about them.

JavaScript's `Array.prototype.sort` is stable. It is modelled as a stable insertion sort over the test `cmp(a, b) <= 0` (module `Sorting`). Text is `seq<char>`. `\w` is `[A-Za-z0-9_]`, `\s` is the set `trim` removes, and case folding is ASCII. Timestamps are integer milliseconds since the epoch. The local time zone is a fixed offset parameter.

Some behaviour of the code is easy to misread. The model follows the code:

- **Numeric dates.** `parseTaskText` reads the first number of a date as the month and the second as the day (`public/js/capture.js:284-286`). The comment at `public/js/capture.js:281` names both "MM/DD" and "DD/MM", but only month first is implemented.
- **Date precedence.** The numeric date test is a separate `if` after the keyword chain (`public/js/capture.js:282-292`). A numeric date later than today therefore overrides 'tomorrow', 'today' or 'next week' (`Capture.ParsedDueDate`).
- **Priority tokens.** The title loses every priority token in one `g` pass (`public/js/capture.js:246`), not just the first one that set the priority. A token that the deletion itself creates survives (`TextPatterns.PriorityRemovalIsSinglePass`).
- **Stored document.** `server.js` keeps only columns, tasks, categories and one `nextId` (`server.js:16-21`), and implements endpoints only for tasks (`server.js:28-88`). The client's notes, links, settings and search requests go to endpoints that `server.js` does not define.
- **Initial view.** `getInitialView` accepts a view only when its table entry is truthy (`public/js/app.js:64-78`). The three placeholder entries are `null` (`public/js/app.js:11-13`), so `focus`, `activity` and `settings` are never restored from the hash or the settings (`App.PlaceholderHashFallsBack`). The same test passes for a property every object inherits, such as `constructor` or `toString`. `navigateToView` then refuses that name with its `hasOwnProperty` test (`public/js/app.js:147`), so the start page stays 'dashboard' with nothing rendered (`App.InheritedNameWins`).
- **View table.** The table reads `window.dashboardManager` and `window.kanbanBoard` (`public/js/app.js:7-8`). The scripts publish `window.dashboard` and `window.board` (`public/js/dashboard.js:368`, `public/js/board.js:547`), so only the notes and links entries hold a manager (see "## Findings").

## Model

| member | source | states |
|---|---|---|
| TaskStore.OrElse | server.js:38-43 | `value \|\| fallback`: the fallback exactly when the field is absent or empty, otherwise the given value |
| TaskStore.NewTask | server.js:36-48 | a created task has the given id, no comments, no tags and both stamps equal to now |
| TaskStore.EmptyBodyDefaults | server.js:38-45 | an empty body gives 'Untitled', '', 'Backlog', 'medium', 'Personal', 'Adam', a null due date and no comments |
| TaskStore.CreateKeepsGivenFields | server.js:38-45 | for each of title, description, column, priority, category and assignee, a non-empty body field is kept and a missing or empty one gets its default; the due date is the body's, or `null` when missing |
| TaskStore.Merge | server.js:60 | the spread merge always re-stamps `updatedAt` and keeps the id unless the body carries one |
| TaskStore.MergeFieldwise | server.js:60 | each field comes from the body when the body has it, otherwise from the stored task |
| TaskStore.MergeOnlyRestamps | server.js:60 | an empty body changes only `updatedAt`, and a body's own `updatedAt` is overridden |
| TaskStore.MergeIdempotent | server.js:60 | merging the same body twice equals merging it once |
| TaskStore.FindIndex | server.js:57 | `findIndex`: the first task with the id, or none when no task has it |
| TaskStore.RemoveById | server.js:68 | the filter keeps exactly the tasks whose id differs |
| TaskStore.RemoveAbsentId | server.js:68-70 | deleting an id that no task has leaves the list unchanged |
| TaskStore.RemoveKeepsIdsIncreasing | server.js:68 | deletion keeps the survivors in order, so ids still strictly increase |
| TaskStore.TaskDocument.constructor | server.js:16-21 | a fresh document has the five columns, no tasks, the four categories and `nextId` 1, and is valid |
| TaskStore.TaskDocument.Create | server.js:34-52 | the new task takes the counter as its id, the counter grows by one, the new task is appended, nothing else changes, and validity is kept |
| TaskStore.TaskDocument.Update | server.js:55-63 | an unknown id returns not-found and leaves the document unchanged; otherwise only that task is replaced by the merge |
| TaskStore.TaskDocument.Delete | server.js:66-71 | always succeeds; the list of tasks becomes the filtered list, and validity is kept |
| TaskStore.TaskDocument.AddComment | server.js:74-88 | an unknown id returns not-found and changes nothing; otherwise one comment with author defaulting to 'Adam' is appended and that task re-stamped |
| TaskStore.CreateTwice | server.js:37 | two successive creates give consecutive, strictly increasing ids, both appended |
| Sorting.Filter | public/js/board.js:319 | `filter` keeps exactly the elements that pass the test, and no others |
| Sorting.FilterAppend | public/js/notes.js:300 | filtering distributes over concatenation, so the stored order is kept |
| Sorting.Sort | public/js/board.js:340 | the sort returns a permutation of its input |
| Sorting.SortSorted | public/js/board.js:340 | with a comparator that decides every pair, the sort's output is in order |
| Sorting.SortOfSorted | public/js/board.js:340 | stability: an input already in order is returned unchanged |
| Strings.ToLower | public/js/notes.js:303 | `toLowerCase` keeps the length and lower-cases each character |
| Strings.ToLowerIdempotent | public/js/notes.js:303-305 | lower-casing twice equals lower-casing once |
| Strings.Trim | public/js/notes.js:426 | `trim` gives a string with no whitespace at either end, empty exactly when the input is all whitespace |
| Strings.TrimOfTrimmed | public/js/notes.js:426 | trimming a trimmed string changes nothing |
| Strings.BlankIsTrimEmpty | public/js/app.js:323-324 | the blank test is exactly `s.trim() === ''` |
| Strings.RemoveFirst | public/js/capture.js:290 | `replace` with a string pattern deletes only its first occurrence |
| Strings.Split | public/js/links.js:218 | `split` always gives at least one piece; no piece contains the separator; joining the pieces with the separator gives back the input |
| Strings.SplitTags | public/js/notes.js:429 | the tags of a comma-separated field are non-empty and trimmed |
| Strings.SplitJoinTags | public/js/notes.js:409-429 | tags shown joined by ', ' split back into the same tags |
| Strings.LexLeTotal | public/js/links.js:281-283 | JavaScript string order decides every pair |
| Strings.LexLeTransitive | public/js/links.js:281-283 | JavaScript string order is transitive |
| TextPatterns.First | public/js/capture.js:243 | a match without `g` is the leftmost one: it matches there, and nothing matches earlier |
| TextPatterns.Starts | public/js/capture.js:236 | `match` with `g` reports matches left to right without overlap; it is empty exactly when `test` fails, and its first entry is the leftmost match |
| TextPatterns.RemoveAllConserves | public/js/capture.js:239 | `replace(/…/g, '')` shortens the text by exactly the characters of the reported matches |
| TextPatterns.RemoveAllNoMatch | public/js/capture.js:239 | without a match the deletion is the identity |
| TextPatterns.SigilMatchShape | public/js/capture.js:236 | a `#\w+` match is the sigil plus the longest following run of word characters |
| TextPatterns.SigilWord | public/js/capture.js:252 | the `(\w+)` group of a sigil match is a non-empty run of word characters |
| TextPatterns.SigilRemoveAllLeavesNone | public/js/capture.js:239 | after deleting every `#\w+` (or `@\w+`) none is left |
| TextPatterns.PriorityWord | public/js/capture.js:245 | the lower-cased priority group is 'high', 'medium' or 'low' |
| TextPatterns.PriorityRemovalIsSinglePass | public/js/capture.js:246 | the one-pass deletion turns "!hi!highgh" into "!high", which still holds a priority token |
| TextPatterns.RemoveAllIsOutside | public/js/capture.js:239 | `replace(/…/g, '')` keeps exactly the text outside the reported matches, in order |
| TextPatterns.WholeRemovalLeavesNone | public/js/capture.js:264 | deleting every `\bword\b` of a lower-case word, then trimming, leaves no such word |
| TextPatterns.NextWeekRemovalIsSinglePass | public/js/capture.js:278 | the one-pass deletion turns "next next week week" into "next  week", which still holds a `next week` |
| TextPatterns.SigilOnce | public/js/capture.js:236-253 | a text with one sigil, before a word: that word is the one match, the leftmost match and its group, and the deletion leaves the text around it |
| TextPatterns.HighOnce | public/js/capture.js:243-246 | a text whose only '!' starts "!high": one match, its group is 'high', and the deletion leaves the text around it |
| TextPatterns.WholeAtEnd | public/js/capture.js:260-264 | a lower-case word closing a text after a non-word character is a whole-word match, and its deletion leaves the text before it |
| Dates.JsDateDay | public/js/capture.js:286 | `new Date(y, m, d)` for a year from 100 on and a month index in range is the day number of that calendar date |
| Dates.NextDay | public/js/capture.js:261-262 | adding one to a day number steps to the next calendar day, across month and year ends |
| Dates.EpochIsDayZero | public/js/capture.js:286 | 1970-01-01 is day 0 and 2000-03-01 is day 11017 |
| Capture.DateAt | public/js/capture.js:282 | a date-pattern match at a position is well formed: 1-2 digit month and day, optional 2-4 digit year, and the groups are the text it covers |
| Capture.FirstDate | public/js/capture.js:282 | `text.match(datePattern)` is the leftmost well-formed match, and none when no position matches |
| Capture.TagsOf | public/js/capture.js:236-238 | one tag per `#word` token, in order; each is a non-empty lower-case run of word characters |
| Capture.TagStep | public/js/capture.js:236-240 | without tags the title is untouched; otherwise it is trimmed and holds no `#word` |
| Capture.TagStepTitle | public/js/capture.js:236-240 | with tags, the title is the trimmed text outside the `#word` tokens |
| Capture.PriorityStep | public/js/capture.js:243-247 | the priority is high, medium or low; without a token it is 'medium' and the title is untouched; otherwise it is the lower-cased word of the leftmost token |
| Capture.PriorityStepTitle | public/js/capture.js:243-247 | with a priority token, the title is trimmed and is the trimmed text outside the title's tokens |
| Capture.AssigneeStep | public/js/capture.js:250-254 | without an `@word` the assignee is 'Atticus' and the title is untouched; otherwise it is the non-empty word of the leftmost `@word`, with its case kept |
| Capture.AssigneeStepTitle | public/js/capture.js:250-254 | with an `@word`, the title is trimmed, holds no `@word`, and is the trimmed text outside the title's `@word` tokens |
| Capture.KeywordDateStep | public/js/capture.js:259-279 | 'tomorrow' (today + 1) wins over 'today', which wins over 'next week' (today + 7); with none of them the due date and the title are unchanged |
| Capture.KeywordDateStepTitle | public/js/capture.js:259-279 | the winning keyword leaves the title: for 'tomorrow' and 'today' the title is the trimmed text outside their matches and holds none; for 'next week' it is the trimmed text outside the matches |
| Capture.KeywordRemoval | public/js/capture.js:264-270 | deleting 'tomorrow' or 'today' with `gi` and trimming keeps the text outside the matches and leaves no whole word of it |
| Capture.NumericDateStep | public/js/capture.js:282-292 | without a date match nothing changes; a matched date later than today becomes the due date and its first occurrence leaves the title, which is then trimmed; an earlier or equal date changes nothing |
| Capture.CategoryOf | public/js/capture.js:295-301 | 'ICON' exactly for an icon tag or word; 'Capstone' exactly for a capstone tag or word without an icon cue; 'Atticus Setup' exactly for a setup or config tag with neither cue before it; 'Personal' exactly when no cue is present |
| Capture.CollapseSpaces | public/js/capture.js:304 | after `replace(/\s+/g, ' ')` the only whitespace is single spaces |
| Capture.CleanTitle | public/js/capture.js:304 | the final title is trimmed and single-spaced |
| Capture.CollapseKeepsSingleSpaced | public/js/capture.js:304 | the whitespace collapse leaves a single-spaced text unchanged |
| Capture.ParseTaskText | public/js/capture.js:227-314 | the title is trimmed and single-spaced; tags, priority, assignee and category are those of the steps above (the title's content is stated by `Capture.ParseBySteps`) |
| Capture.ParsedDueDate | public/js/capture.js:259-292 | a later numeric date overrides any keyword date; otherwise the keyword precedence decides |
| Capture.ParsedDueDateNotPast | public/js/capture.js:288 | a parsed due date is never before today |
| Capture.ParseExample | public/js/capture.js:227-314 | "Fix bug #urgent !high @Adam tomorrow" parses to the title 'Fix bug', the tags ['urgent'], priority 'high', assignee 'Adam' and a due date of tomorrow |
| Capture.ParseBySteps | public/js/capture.js:227-314 | the parsed task is what the tag, priority, assignee, keyword and numeric date steps give in turn, with the last title cleaned; with the step title lemmas this states what the title holds |
| Capture.SingleTag | public/js/capture.js:236-240 | a text whose only '#' starts a lower-case tag gives that one tag, and the title is the text around it |
| Capture.SingleHigh | public/js/capture.js:243-247 | a text and a title whose only '!' starts "!high" give priority 'high', and the title loses the token |
| Capture.SingleAssignee | public/js/capture.js:250-254 | a text and a title whose only '@' starts `@w` give the assignee `w`, and the title loses the token |
| Capture.TomorrowAtEnd | public/js/capture.js:260-265 | 'tomorrow' closing the text and the title gives tomorrow's day, and the title loses the word |
| Capture.NoDigitNoDate | public/js/capture.js:282 | a text without a digit has no numeric date |
| Capture.TagCanReappear | public/js/capture.js:236-247 | the tag step leaves no `#word`, but deleting "!high" from "#!higha" creates the tag "#a" in the title |
| Capture.NormalizeUrl | public/js/capture.js:158-161 | the posted URL is trimmed and starts with 'http'; trimmed text already starting with 'http' is kept; any other text becomes 'https://' followed by the trimmed text, with a leading 'www.' dropped |
| Capture.NormalizeUrlIdempotent | public/js/capture.js:158-161 | normalising twice equals normalising once |
| Capture.IsUrl | public/js/capture.js:59-66 | a text that `new URL` accepts is a URL; otherwise a URL is at least 4 characters long and starts with 'h' or 'w' in either case |
| Capture.TaskKeywordsIgnoreCase | public/js/capture.js:75-76 | the keyword test ignores case |
| Capture.HasTaskKeywords | public/js/capture.js:68-77 | any '#' makes the text look like a task |
| Capture.DetectedType | public/js/capture.js:47-57 | 'link' exactly for a URL; 'note' exactly for a non-URL with a newline or over 100 characters; no change exactly when no rule applies |
| Capture.QuickCapture.constructor | public/js/capture.js:4-9 | the type starts as 'task' |
| Capture.QuickCapture.SetType | public/js/capture.js:79-88 | the current type becomes the given one |
| Capture.QuickCapture.DetectType | public/js/capture.js:47-57 | the type becomes the detected type of the trimmed input, or stays as it was |
| Capture.QuickCapture.OnPaste | public/js/capture.js:37-44 | only a URL switches the type, to 'link' |
| Capture.QuickAddBody | public/js/capture.js:184-194 | the posted body has no id, comments or stamps, and always carries tags |
| Capture.QuickAddCreates | public/js/capture.js:184-194 | the server keeps the client defaults 'To Do' and 'Atticus' and drops the tags |
| Board.FilteredTasks | public/js/board.js:316-337 | a task is listed exactly when it is in the column and passes every active filter |
| Board.NoFiltersShowColumn | public/js/board.js:316-337 | with no filter set a column shows exactly its tasks, in order |
| Board.MoreFiltersShowFewer | public/js/board.js:333 | setting the tag filter never lengthens a column |
| Board.PriorityRank | public/js/board.js:343 | only high, medium and low are ranked, from 3 down to 1 |
| Board.TaskLe | public/js/board.js:339-360 | by priority, a higher rank comes first and an unknown priority ties; by due date, a dated task comes before an undated one; by default, the newer `createdAt` comes first |
| Board.SortTasks | public/js/board.js:339-360 | the sorted copy is a permutation of the tasks |
| Board.SortByPriority | public/js/board.js:342-344 | high before medium before low |
| Board.SortByDueDate | public/js/board.js:346-350 | dated tasks earliest first, and every undated task after every dated one |
| Board.SortByTitle | public/js/board.js:352-353 | titles in ascending string order |
| Board.SortByCreated | public/js/board.js:355-357 | the default order is newest `createdAt` first |
| Board.IndexOf | public/js/board.js:380 | `indexOf` gives the first occurrence, or none exactly when absent |
| Board.Toggled | public/js/board.js:379-386 | the toggled column's membership flips (removal takes one copy); no other column's membership changes |
| Board.ToggleFlips | public/js/board.js:379-386 | on a duplicate-free list the toggle flips membership and keeps the list duplicate-free |
| Board.ToggleTwice | public/js/board.js:379-386 | toggling twice restores the set of collapsed columns, and the list itself when the column was not collapsed |
| Board.TotalTasks | public/js/board.js:492-495 | the total never exceeds the number of tasks |
| Board.TotalTasksPartition | public/js/board.js:492-495 | the total and the 'Done' count add up to all tasks |
| Board.DuplicateBody | public/js/board.js:437-444 | the copy's title is the original plus ' (Copy)', with empty comments and no id or stamps |
| Board.DuplicateCreates | public/js/board.js:433-451 | the server gives the copy a fresh id and stamps and keeps the copied fields |
| Board.KanbanBoard.constructor | public/js/board.js:4-14 | no filters, sort 'created', and the stored collapsed columns |
| Board.KanbanBoard.SetFilter | public/js/board.js:213-231 | `value \|\| null` goes into the one chosen filter; the other filters and the rest of the state stay |
| Board.KanbanBoard.SetSortBy | public/js/board.js:234-237 | the sort key becomes the selected value |
| Board.KanbanBoard.ClearFilters | public/js/board.js:367-377 | all four filters become null; the sort and collapsed columns stay |
| Board.KanbanBoard.ToggleColumn | public/js/board.js:379-390 | the collapsed list becomes the toggled list and stays duplicate-free |
| Notes.FilteredNotes | public/js/notes.js:297-317 | a note is listed exactly when it passes the search and the tag filter |
| Notes.NoFiltersShowAll | public/js/notes.js:297-317 | with no query and no tag every note is listed, in order |
| Notes.SearchIgnoresTags | public/js/notes.js:302-307 | tags play no part in the text search |
| Notes.SearchIgnoresCase | public/js/notes.js:303-305 | the search ignores the case of the query |
| Notes.SortNotes | public/js/notes.js:319-338 | the sorted copy is a permutation of the notes |
| Notes.SortPinnedFirst | public/js/notes.js:328-331 | every pinned note comes before every unpinned one, and within a group the most recently updated comes first |
| Notes.SortByUpdated | public/js/notes.js:333-335 | 'updated' and unknown keys list the most recently updated first |
| Notes.SortByCreated | public/js/notes.js:322-323 | 'created' lists the newest first |
| Notes.ContentPreview | public/js/notes.js:340-356 | empty content gives 'No content'; otherwise the preview has at most the maximum plus three characters |
| Notes.PreviewKeepsStart | public/js/notes.js:353-355 | a short text is its own preview; a long one is its first 150 characters plus '...' |
| Notes.PreviewBound | public/js/notes.js:340-355 | a card preview never exceeds 153 characters |
| Notes.SplitOnSpaceRuns | public/js/notes.js:360 | `split(/\s+/)` gives at least one piece |
| Notes.WordCount | public/js/notes.js:358-361 | empty content counts 0 words |
| Notes.WordCountIsWordStarts | public/js/notes.js:358-361 | the count equals the number of non-space characters that follow whitespace or the start of the text |
| Notes.SplitCountsWordStarts | public/js/notes.js:360 | the non-empty pieces of the whitespace split correspond one to one with the word starts |
| Notes.SavedDraft | public/js/notes.js:425-429 | the saved title is non-empty and trimmed, the content is trimmed, and the tags are non-empty and trimmed |
| Notes.SavedTitle | public/js/notes.js:426 | a blank title saves as 'Untitled Note'; any other title is saved trimmed |
| Notes.SavedTags | public/js/notes.js:428-429 | the saved tags are non-empty and trimmed |
| Notes.SavedTagsOfJoin | public/js/notes.js:409-429 | tags shown joined by ', ' are saved back unchanged |
| Notes.EditForm | public/js/notes.js:398-429 | the form shows the note's title and content; saving it without edits sends the same title, content and tags when the note is already in the saved form |
| Notes.Formatted | public/js/notes.js:562-611 | an empty replacement changes nothing; otherwise only `[start, end)` is replaced, and the cursor follows the source's rule |
| Notes.FormattingWraps | public/js/notes.js:572-600 | bold, italic and code wrap the selection in their markers; with an empty selection the cursor sits between the markers |
| Notes.FormattingUnwraps | public/js/notes.js:606-607 | cutting the markers back out of the formatted text gives the original text |
| Notes.FindNote | public/js/notes.js:399 | `find` gives the first note with the id (no earlier note has it), or none when no note has it |
| Notes.NotesManager.constructor | public/js/notes.js:4-10 | nothing selected, no query, no tag, sort 'updated' |
| Notes.NotesManager.OnSearchInput | public/js/notes.js:155-158 | the query is stored trimmed; nothing else changes |
| Notes.NotesManager.OnTagFilterChange | public/js/notes.js:161-164 | the empty option clears the tag filter |
| Notes.NotesManager.OnSortChange | public/js/notes.js:166-169 | the sort becomes the selected value |
| Notes.NotesManager.ClearFilters | public/js/notes.js:669-677 | no query and no tag; the sort stays |
| Notes.NotesManager.VisibleNotes | public/js/notes.js:237-249 | the list is the sorted filtered notes, a sub-multiset of the stored notes |
| Notes.NotesManager.EditNote | public/js/notes.js:398-412 | an unknown id does nothing; otherwise the note is selected, editing starts and the form shows its fields |
| Notes.NotesManager.CloseEditor | public/js/notes.js:419-423 | nothing selected and not editing; the filters stay |
| Notes.ClearFiltersShowsAll | public/js/notes.js:669-677 | after clearing the filters every note is listed again |
| Notes.NoteEditor.constructor | public/js/notes.js:562-566 | the text area holds the text with an empty selection at 0 |
| Notes.NoteEditor.ApplyFormatting | public/js/notes.js:562-611 | the text and cursor become those of `Formatted`, or stay when the replacement is empty |
| Links.SearchLinks | public/js/links.js:249-257 | a blank query keeps every link; otherwise a link is kept exactly when the lower-cased query occurs in its title, description, URL or a tag |
| Links.SearchIgnoresCase | public/js/links.js:250-255 | the search ignores the case of the query |
| Links.SearchAppend | public/js/links.js:251-256 | the search keeps the stored order |
| Links.Compare | public/js/links.js:260-284 | the comparator returns -1, 0 or 1 |
| Links.SortLinks | public/js/links.js:260-285 | the sort is a permutation of its input |
| Links.DateLe | public/js/links.js:268-283 | on a date key, 'desc' puts larger timestamps first and any other order smaller ones |
| Links.SortByDate | public/js/links.js:268-283 | 'created' and 'updated' sort largest first under 'desc' and smallest first otherwise |
| Links.TitleLe | public/js/links.js:264-283 | on titles the comparator is the string order of the lower-cased titles |
| Links.SortByTitle | public/js/links.js:264-283 | 'title' orders the lower-cased titles, last first under 'desc' |
| Links.UnknownKeyKeepsOrder | public/js/links.js:276-277 | an unknown key keeps the input order |
| Links.SortSelector | public/js/links.js:218-220 | a value without '-' gives that key and no order |
| Links.SelectorReadsBack | public/js/links.js:218-220 | 'key-order' splits into that key and order |
| Links.SavedLink | public/js/links.js:413-426 | rejected with 'URL is required' exactly when the trimmed URL is empty; otherwise the fields are trimmed and the tags are non-empty and trimmed |
| Links.EditLinkForm | public/js/links.js:413-461 | the form shows the link's URL, title and description; saving it without edits posts the same fields and tags when the link is already in the saved form |
| Links.LinksManager.constructor | public/js/links.js:4-11 | no links, filter 'all', sort 'created' 'desc', empty query |
| Links.LinksManager.ApplyFilters | public/js/links.js:245-286 | the shown list is the searched and sorted copy; the stored links are not modified |
| Links.LinksManager.Load | public/js/links.js:26-36 | a fetched list is stored and filtered again; a failed request empties both lists |
| Links.LinksManager.OnSearchInput | public/js/links.js:210-214 | the query is stored as typed and the list filtered again |
| Links.LinksManager.OnSortChange | public/js/links.js:217-222 | key and order come from the selector value, and the list is sorted again |
| Links.BlankSearchShowsAll | public/js/links.js:249 | with a blank search box every stored link is shown |
| Search.RecentAfter | public/js/search.js:249-257 | the query comes first and appears once; the list has at most 10 entries, all taken from the old list |
| Search.RecentKeepsOrder | public/js/search.js:251-257 | the other entries keep their relative order, and all of them stay while there is room |
| Search.RecentKeepsOthersWhileRoom | public/js/search.js:251-257 | an older query survives while fewer than ten others are recorded |
| Search.RecentIdempotent | public/js/search.js:249-257 | recording the same query twice equals recording it once |
| Search.RecentKeepsDistinct | public/js/search.js:251-257 | the recent list never holds a duplicate |
| Search.RecentPanel | public/js/search.js:221-247 | the recent panel lists one item per recent search |
| Search.ResultsPanel | public/js/search.js:94-107 | the panel reports no results exactly when the three counts sum to 0, and lists one item per result |
| Search.StaleIndexEscapes | public/js/search.js:274 | moving up from a stale index 4 over one item selects index 3, outside the list |
| Search.NavigateStepAsWritten | public/js/search.js:270-275 | the step as written: down always stays within `[0, n)`; up stays within it exactly when the old index is at most `n` |
| Search.NavigateStep | public/js/search.js:263-275 | the corrected step always selects an index in `[0, n)` |
| Search.NavigateStepAgrees | public/js/search.js:270-275 | on every index the source can reach legitimately, the corrected step is the source's step |
| Search.NavigateWraps | public/js/search.js:270-275 | down is `(i + 1) mod n`; up from the top (or no selection) goes to `n - 1`, otherwise `i - 1` |
| Search.NavigateRoundTrip | public/js/search.js:270-275 | down then up, and up then down, return to the selected item |
| Search.GlobalSearch.constructor | public/js/search.js:4-13 | an empty cache, the stored recent searches, no results and no selection |
| Search.GlobalSearch.Show | public/js/search.js:55-61 | opening clears the input, resets the selection to -1 and shows the recent searches |
| Search.GlobalSearch.Close | public/js/search.js:63-66 | closing resets the selection to -1 |
| Search.GlobalSearch.ShowRecentSearches | public/js/search.js:221-247 | the panel shows the recent searches, and the selection is not reset |
| Search.GlobalSearch.DisplayResults | public/js/search.js:94-96 | the panel shows the results and the selection is reset |
| Search.GlobalSearch.AddToRecentSearches | public/js/search.js:249-261 | the recent list becomes `RecentAfter` of the old list |
| Search.GlobalSearch.PerformSearch | public/js/search.js:68-92 | a request is made exactly for a non-empty, uncached query; the empty query shows recent searches; a cached query is answered from the cache; a fresh answer is cached, shown and recorded; a failure shows the error |
| Search.GlobalSearch.OnInput | public/js/search.js:22-24 | the input is searched trimmed; blank input shows the recent searches and sends no request |
| Search.GlobalSearch.NavigateResults | public/js/search.js:263-286 | no items changes nothing; otherwise the selection moves by the corrected step |
| Search.StaleSelection | public/js/search.js:263-279 | results navigated to index 4, then recent searches with one item shown: moving up leaves the list |
| Dashboard.CompletedThisWeek | public/js/dashboard.js:127-136 | the count never exceeds the number of tasks in 'Done' |
| Dashboard.CompletedThisWeekSingle | public/js/dashboard.js:131-135 | a task counts exactly when it is in 'Done' and changed strictly after now minus seven days |
| Dashboard.CompletedThisWeekAppend | public/js/dashboard.js:131-135 | the count adds up over a split of the list |
| Dashboard.InProgressCount | public/js/dashboard.js:121 | the in-progress count never exceeds the number of tasks |
| Dashboard.InProgressCountAppend | public/js/dashboard.js:121 | the count adds up over a split of the list |
| Dashboard.InProgressCountSingle | public/js/dashboard.js:121 | a task counts exactly when it is in 'In Progress' |
| Dashboard.InProgressPositive | public/js/dashboard.js:121 | the count is positive exactly when some task is 'In Progress' |
| Dashboard.CalculateStats | public/js/dashboard.js:114-125 | the today, overdue and upcoming counts are the lengths of those lists (0 when a list or the data is missing); with tasks, the in-progress count is the number of 'In Progress' tasks, the completed count is `CompletedThisWeek` and the total is the number of tasks; without tasks all three are 0; in progress plus completed never exceeds the total |
| Dashboard.StatsWithinTotal | public/js/dashboard.js:121-124 | no task is both in progress and completed, so both counts fit in the total |
| Dashboard.StatsCountTasks | public/js/dashboard.js:121-124 | one more task adds one to the total, one to the in-progress count exactly when it is 'In Progress', and one to the completed count exactly when it is 'Done' and changed this week |
| Dashboard.ToggledColumn | public/js/dashboard.js:286 | the new column is 'Done' exactly when the old one is not, else 'To Do' |
| Dashboard.ToggleRequest | public/js/dashboard.js:283-290 | an unknown id sends nothing; otherwise the request carries the id and the flipped column of the first task with that id |
| Dashboard.ToggleCrossesDone | public/js/dashboard.js:286-290 | applied by the server, the toggle moves that task across the 'Done' line, in or out of the completed-this-week count |
| Dashboard.ToggleTwiceRestores | public/js/dashboard.js:286 | two clicks bring a 'Done' or 'To Do' task back |
| Dashboard.UpcomingOrder | public/js/dashboard.js:170-171 | the upcoming list is a permutation of the upcoming tasks |
| Dashboard.UpcomingAscending | public/js/dashboard.js:170-171 | the upcoming list runs from the earliest due date to the latest |
| Dashboard.UpcomingOfSorted | public/js/dashboard.js:170-171 | a list already in date order is listed as it is |
| Dashboard.ActivityIcon | public/js/dashboard.js:240-257 | the pin exactly for an unlisted type; every deletion shows the wastebasket |
| Dashboard.Sections | public/js/dashboard.js:58-108 | the overdue section appears exactly when the overdue count is positive, between today and upcoming |
| Utils.ApiUrl | public/js/utils.js:13 | an endpoint starting with 'http' is used as is; any other is prefixed with '/api' |
| Utils.ApiUrlAbsoluteIffAbsolute | public/js/utils.js:13 | the URL is absolute exactly when the endpoint is, and prefixing an absolute URL again changes nothing |
| Utils.StartOfLocalDay | public/js/utils.js:172 | local midnight is at or before the instant and less than a day before it |
| Utils.EndOfLocalDay | public/js/utils.js:173 | the last millisecond of the local day is at or after the instant and less than a day after it |
| Utils.DateOnlyEastOfUtc | public/js/utils.js:170 | east of UTC a date-only string falls on its own local day |
| Utils.DateOnlyWestOfUtc | public/js/utils.js:170 | west of UTC a date-only string falls on the local day before |
| Utils.IsOverdueAsWritten | public/js/utils.js:167-176 | the test as written holds exactly when there is a due date and its instant's local day is before today's |
| Utils.DueTodayOverdueWestOfUtc | public/js/utils.js:167-176 | west of UTC a task due today is reported overdue |
| Utils.DueTodayOverdueExample | public/js/utils.js:167-176 | in UTC-5, '2024-01-15' is overdue at 10:00 local time that same day |
| Utils.IsOverdue | public/js/utils.js:167-176 | the corrected test: overdue only with a due date |
| Utils.OverdueBoundary | public/js/utils.js:167-176 | due today is not overdue, due yesterday is, and no date never is |
| Utils.OverdueAgreesEastOfUtc | public/js/utils.js:167-176 | at UTC and east of it the corrected test equals the test as written |
| Utils.ParseRelativeLabel | public/js/utils.js:142-144 | a phrase reads back as fewer than seven days |
| Utils.RelativeLabelRoundTrip | public/js/utils.js:142-144 | each phrase ('Today', 'Yesterday', 'd days ago') names its own number of days |
| Utils.FormatDate | public/js/utils.js:133-153 | no date gives nothing; the phrase appears exactly with the relative option and under seven whole days, and reads back as that distance; otherwise the calendar text of the date |
| Utils.FutureReadsAsPast | public/js/utils.js:138-144 | a date k ms ahead reads the same as one k ms back, 'ago' included |
| Utils.GetTagColor | public/js/utils.js:267-270 | the colour of the first entry with the name; none exactly when no entry has it |
| Utils.GetTagColorAppend | public/js/utils.js:268 | entries after the first match never matter |
| Utils.PriorityIcon | public/js/utils.js:277-284 | the black circle exactly for a priority other than high, medium and low |
| Utils.PriorityIconsMatchRanks | public/js/utils.js:277-284 | a priority has its own icon exactly when the board ranks it, and the three icons differ |
| Utils.PriorityClass | public/js/utils.js:273-275 | the class is 'priority-' followed by the priority |
| Utils.PriorityClassInjective | public/js/utils.js:273-275 | different priorities get different classes |
| Utils.HashName | public/js/utils.js:399 | the hash without its first character, empty for an empty hash |
| Utils.CurrentView | public/js/utils.js:398-401 | the hash's name when non-empty, otherwise 'dashboard' |
| Utils.CurrentViewOfHash | public/js/utils.js:398-401 | the hash written for a view reads back as that view |
| Utils.ToggledTheme | public/js/utils.js:96-100 | 'light' exactly from 'dark'; the result is always 'dark' or 'light' |
| Utils.ToggleThemeTwice | public/js/utils.js:96-100 | on the two themes the toggle is its own inverse |
| App.InitialView | public/js/app.js:64-78 | for a table whose manager entries are `wired`: the hash's name when its entry is truthy (a manager or an inherited `Object` property), else the saved default view when its entry is, else 'dashboard'; the result is a view of the table exactly when it is a wired view or 'dashboard' |
| App.InheritedNameWins | public/js/app.js:64-78 | an inherited name such as 'constructor' in the hash, or as the saved default with an empty hash, becomes the start name, and it is no view of the table |
| App.InitialViewOfPushedHash | public/js/app.js:64-78 | reloading a hash that navigation wrote restores that view, when the view has a manager |
| App.PlaceholderHashFallsBack | public/js/app.js:64-78 | a placeholder view in the hash is ignored on reload |
| App.RenderView | public/js/app.js:193-229 | a view with a manager renders its page; a placeholder view without one gets its placeholder; any other view leaves the page unchanged |
| App.UnwiredViewsRenderNothing | public/js/app.js:4-14 | with the table as written, the dashboard and board render nothing, and a reload of '#board' falls back to the saved view or the dashboard |
| App.EveryViewRendersWhenWired | public/js/app.js:4-14 | with the published names, every view renders a page and every manager view is restored from its hash |
| App.ThemeOrDark | public/js/app.js:81 | `theme \|\| 'dark'` is never empty |
| App.ShouldRefresh | public/js/app.js:366-373 | the dashboard always refreshes; for a task, exactly the board or the dashboard |
| App.ShouldRefreshListing | public/js/app.js:366-371 | a view refreshes exactly when it is the dashboard or lists the captured type |
| App.MissionControlApp.constructor | public/js/app.js:4-48 | when the initial name is a view of the table, it becomes the view, with its hash in the history and its page rendered; an inherited name is refused, so the view stays 'dashboard' with no history and no page; the page shows the settings' theme or 'dark'; capture hidden, type 'task' |
| App.MissionControlApp.NavigateToView | public/js/app.js:146-171 | an unknown name changes nothing; a known one becomes the active view and its hash is pushed when asked |
| App.MissionControlApp.OnPopState | public/js/app.js:140-143 | back and forward go to the hash's view, or to the initial name for an empty hash; a name outside the table, an inherited one included, keeps the view; the page is re-rendered when the view has one; the history is not pushed |
| App.MissionControlApp.ToggleTheme | public/js/app.js:96-118 | the setting flips at once; the page follows only when the save succeeds |
| App.MissionControlApp.ShowQuickCapture | public/js/app.js:333-339 | afterwards the panel is shown; showing it while shown changes nothing |
| App.MissionControlApp.HideQuickCapture | public/js/app.js:341-347 | afterwards the panel is hidden; hiding it while hidden changes nothing |
| App.MissionControlApp.IsViewActive | public/js/app.js:433-435 | a view is active exactly when it is the current view; `NavigateToView` leaves every view of the table it navigates to active |
| App.MissionControlApp.TypeCapture | public/js/app.js:322 | stands for the capture box's value that the Enter handler reads: typing sets it and nothing else |
| App.MissionControlApp.SelectCaptureType | public/js/app.js:303-316 | a type button sets the capture type |
| App.MissionControlApp.OnCaptureEnter | public/js/app.js:320-330 | blank input submits nothing; otherwise the trimmed text is sent with the type, the view refreshes by the rule after a success, and the box is cleared and hidden |
| App.ThemeAfterFailedSave | public/js/app.js:96-118 | after a failed save the setting says 'light' while the page stays 'dark' |

## Left out

- File I/O, JSON serialisation, Express routing and `parseInt` of route parameters in `server.js`. The document is in-memory state and ids are integers.
- The lost-update race between overlapping requests. The model is single-threaded.
- The server endpoints that the client calls but `server.js` does not implement (`/quick-capture`, `/today`, `/search`, `/notes`, `/links`, `/settings`, `/data` and the activity log). Their answers are parameters (`fetched`, `succeeded`, `saved`, the `TodayData` value).
- All DOM work: HTML templates, `innerHTML`, listeners, modals, toasts, loading indicators, `prompt` and `confirm` (the link prompt's answer is a parameter), `renderMarkdown` and `highlightText`.
- Network calls through `fetch` and `API`, and the service worker `public/sw.js`, which is only caching and fetch strategies.
- The legacy client `public/app.js`. Its one filter duplicates `getFilteredTasks`.
- Timers and storage: `debounce`, `throttle`, `setTimeout`, the dashboard's auto-refresh, and `localStorage`. The stored recent searches and collapsed columns are constructor parameters.
- `new URL` parsing in `isURL`. Whether it succeeds is the parameter `parses`.
- `localeCompare`, `toLocaleDateString`, and Unicode case mapping. String order is code-unit order, and case folding is ASCII only.
- UTF-16 lengths: a `char` stands for one code unit.
- Time zones beyond a fixed offset, and daylight saving time.
- `DragDropManager`, its geometry and `onTaskDrop`.
- The markdown-stripping regexes of `getContentPreview`. They are the parameter `strip`, and only the truncation rule is modelled.
- The dashboard's render and refresh cycle and its `data` and `refreshInterval` fields.
- `handleCapture`, `captureTask`, `captureNote`, `quickAddNote` and `quickAddLink` in `capture.js`. They only post text to endpoints whose behaviour is not in these files.
- `hideLoading` and `utils.hideAllModals`, which these files call but never define, and the `window.globalSearch.hide` call, where the search object defines only `close`.
- Lookups of inherited `Object` property names in the icon tables (a type named `toString`, say). The model treats any unlisted type as unknown.
- `Capture.ParseTaskText`: the due date is the local calendar day. The source writes it with `toISOString`, whose UTC date is a day earlier east of UTC for a numeric date and can differ for the keyword dates.
- `Board.SortByPriority`: stated only for lists whose priorities are all high, medium or low. With any other priority the comparator returns `NaN`, and the result depends on the engine.
- `Board.SortByTitle`: code-unit order of the titles, not `localeCompare`.
- `Notes.SortNotes`: for the 'title' key (`localeCompare`) only the permutation property is proved.
- `Dashboard.CompletedThisWeek`: a week is 7 × 24 hours, not seven calendar days across a daylight-saving change. Every task is taken to have an `updatedAt` stamp.
- `Dashboard.UpcomingOrder`: a `null` due date sorts as the epoch, which is what `new Date(null)` gives. An unparsable date (`NaN`) is not modelled.
- `Links.SearchLinks`: the description is taken to be a string. A link stored without one makes `toLowerCase` throw in the source.
- `Search.GlobalSearch.PerformSearch`: the request completes before the next input. Interleaved answers from overlapping searches are not modelled.
- `App.MissionControlApp.ToggleTheme`: the failed save's toast, and an interleaving of two toggles while a save is pending, are not modelled.
- `App.MissionControlApp.constructor`: a failed initial `loadData` (the error state) is not modelled. `hideLoading`, called in the `finally` of `loadData` (`public/js/app.js:60`), is assumed to be defined outside these files. Without it the call throws, every `loadData` rejects, and `init` shows the error state without setting up navigation or the initial view.
- `App.MissionControlApp.OnCaptureEnter`: `hideLoading`, called in the `finally` of `processQuickCapture` (`public/js/app.js:379`), is assumed to be defined outside these files. Without it every capture rejects after its request, and `public/js/app.js:325-326` never clear or hide the box.
- `Capture.KeywordDateStepTitle`: for 'next week' no absence is promised. One `g` pass can leave a `next week` that the deletion itself creates (`TextPatterns.NextWeekRemovalIsSinglePass`).
- `Capture.PriorityStepTitle`: no absence of priority tokens is promised, for the same reason (`TextPatterns.PriorityRemovalIsSinglePass`).
- `Capture.ParseExample`: stated for one line. Other single-token lines are covered by `Capture.SingleTag`, `Capture.SingleHigh`, `Capture.SingleAssignee` and `Capture.TomorrowAtEnd`.

## Findings

| source | as written | input that shows it | evidently intended | confidence | as-written member | corrected member |
|---|---|---|---|---|---|---|
| public/js/search.js:263-279 | `showRecentSearches` (reached from `performSearch('')`) does not reset `selectedIndex`. `navigateResults(-1)` then steps down from a stale index that can exceed the new item count, and `items[selectedIndex]` is `undefined`, so `selectedItem.classList` throws | five results shown and navigated down to index 4, the input cleared with one recent search listed, then ArrowUp: index 3 over 1 item | the selection always stays within the listed items | not executed | Search.StaleSelection | Search.NavigateStep |
| public/js/utils.js:167-176 | `new Date('YYYY-MM-DD')` is midnight UTC, but `setHours` works in local time. West of UTC the due instant falls on the previous local day, so a task due today is overdue | UTC-5, due '2024-01-15', now 2024-01-15 10:00 local time | overdue exactly when the due date is before today's date | not executed | Utils.DueTodayOverdueExample | Utils.OverdueBoundary |
| public/js/app.js:4-14 | The view table reads `window.dashboardManager` and `window.kanbanBoard`, but the scripts publish `window.dashboard` (`public/js/dashboard.js:368`) and `window.board` (`public/js/board.js:547`). Both entries are `undefined`, so the dashboard and the board render nothing and are never restored from the hash | reload with hash '#board' and saved default view 'notes': the notes view opens; navigating to 'dashboard' leaves the page as it was | every view in the table renders, and a manager view is restored from its hash | not executed | App.UnwiredViewsRenderNothing | App.EveryViewRendersWhenWired |
