/** The quick-capture box (public/js/capture.js): the natural-language task
    parser `parseTaskText`, the link normalisation of `captureLink`, the
    type auto-detection, and the payload of `quickAddTask`. "Today" is a
    calendar date the caller supplies; due dates are day numbers. */
module Capture {
  import opened Optionals
  import opened Strings
  import opened TextPatterns
  import opened Dates
  import TaskStore

  // ---------------------------------------------------------------------------
  // The numeric date pattern `\b(\d{1,2})[\/\-](\d{1,2})(?:[\/\-](\d{2,4}))?\b`
  // ---------------------------------------------------------------------------

  /** A match of the numeric date pattern: where it is and its three groups. */
  datatype DateMatch = DateMatch(start: nat, len: nat, month: String, day: String, year: Option<String>)

  predicate DigitsAt(s: String, i: nat, n: nat) {
    i + n <= |s| && AllDigits(s[i..i + n])
  }

  predicate SeparatorAt(s: String, i: nat) {
    i < |s| && (s[i] == '/' || s[i] == '-')
  }

  /** The optional year group with `n` digits fits at `q`, followed by `\b`. */
  predicate YearFits(s: String, q: nat, n: nat) {
    SeparatorAt(s, q) && DigitsAt(s, q + 1, n) && Boundary(s, q + 1 + n)
  }

  predicate WellFormedDateMatch(s: String, m: DateMatch) {
    && m.start + m.len <= |s|
    && 1 <= |m.month| <= 2 && AllDigits(m.month)
    && 1 <= |m.day| <= 2 && AllDigits(m.day)
    && (m.year.Some? ==> 2 <= |m.year.value| <= 4 && AllDigits(m.year.value))
    && m.len == |m.month| + 1 + |m.day| + (if m.year.Some? then 1 + |m.year.value| else 0)
    && m.month == s[m.start..m.start + |m.month|]
    && m.day == s[m.start + |m.month| + 1..m.start + |m.month| + 1 + |m.day|]
    && (m.year.Some? ==> m.year.value == s[m.start + m.len - |m.year.value|..m.start + m.len])
  }

  /** With month digits `[i, i + mn)` and day digits after one separator,
      the greedy optional year group tries 4, 3 and 2 digits, then no year. */
  function DateTail(s: String, i: nat, mn: nat, dn: nat): (r: Option<DateMatch>)
    requires DigitsAt(s, i, mn) && SeparatorAt(s, i + mn) && DigitsAt(s, i + mn + 1, dn)
    requires 1 <= mn <= 2 && 1 <= dn <= 2
    ensures r.Some? ==> r.value.start == i && WellFormedDateMatch(s, r.value)
  {
    var q := i + mn + 1 + dn;
    if YearFits(s, q, 4) then Some(DateWith(s, i, mn, dn, 4))
    else if YearFits(s, q, 3) then Some(DateWith(s, i, mn, dn, 3))
    else if YearFits(s, q, 2) then Some(DateWith(s, i, mn, dn, 2))
    else if q <= |s| && Boundary(s, q) then Some(DateWith(s, i, mn, dn, 0))
    else None
  }

  /** The match of month, day and a year of `n` digits (`n == 0`: no year). */
  function DateWith(s: String, i: nat, mn: nat, dn: nat, n: nat): (r: DateMatch)
    requires DigitsAt(s, i, mn) && SeparatorAt(s, i + mn) && DigitsAt(s, i + mn + 1, dn)
    requires 1 <= mn <= 2 && 1 <= dn <= 2
    requires n == 0 || (2 <= n <= 4 && DigitsAt(s, i + mn + 1 + dn + 1, n))
    requires n == 0 ==> i + mn + 1 + dn <= |s|
    ensures r.start == i && WellFormedDateMatch(s, r)
    ensures r.year.Some? <==> n != 0
  {
    var q := i + mn + 1 + dn;
    var month := s[i..i + mn];
    var day := s[i + mn + 1..q];
    if n == 0 then DateMatch(i, q - i, month, day, None)
    else DateMatch(i, q + 1 + n - i, month, day, Some(s[q + 1..q + 1 + n]))
  }

  function TryMonthDay(s: String, i: nat, mn: nat, dn: nat): (r: Option<DateMatch>)
    requires 1 <= mn <= 2 && 1 <= dn <= 2
    ensures r.Some? ==> r.value.start == i && WellFormedDateMatch(s, r.value)
  {
    if DigitsAt(s, i, mn) && SeparatorAt(s, i + mn) && DigitsAt(s, i + mn + 1, dn)
    then DateTail(s, i, mn, dn)
    else None
  }

  /** The date pattern's match starting at `i`, trying the greedy choices of
      `\d{1,2}` in the order a backtracking matcher does. */
  function DateAt(s: String, i: nat): (r: Option<DateMatch>)
    requires i <= |s|
    ensures r.Some? ==> r.value.start == i && WellFormedDateMatch(s, r.value)
  {
    if !Boundary(s, i) then None
    else if TryMonthDay(s, i, 2, 2).Some? then TryMonthDay(s, i, 2, 2)
    else if TryMonthDay(s, i, 2, 1).Some? then TryMonthDay(s, i, 2, 1)
    else if TryMonthDay(s, i, 1, 2).Some? then TryMonthDay(s, i, 1, 2)
    else TryMonthDay(s, i, 1, 1)
  }

  function FirstDateFrom(s: String, i: nat): (r: Option<DateMatch>)
    requires i <= |s|
    ensures r.Some? ==> i <= r.value.start && WellFormedDateMatch(s, r.value)
    ensures r.Some? ==> DateAt(s, r.value.start) == r
    ensures r.Some? ==> forall j :: i <= j < r.value.start ==> DateAt(s, j).None?
    ensures r.None? ==> forall j :: i <= j <= |s| ==> DateAt(s, j).None?
    decreases |s| - i
  {
    if DateAt(s, i).Some? then DateAt(s, i)
    else if i == |s| then None
    else FirstDateFrom(s, i + 1)
  }

  /** `text.match(datePattern)`: the leftmost match. */
  function FirstDate(s: String): (r: Option<DateMatch>)
    ensures r.Some? ==> WellFormedDateMatch(s, r.value) && DateAt(s, r.value.start) == r
    ensures r.Some? ==> forall j :: 0 <= j < r.value.start ==> DateAt(s, j).None?
    ensures r.None? ==> forall j :: 0 <= j <= |s| ==> DateAt(s, j).None?
  {
    FirstDateFrom(s, 0)
  }

  /** The day number the source builds from a date match:
      `new Date(targetYear, month - 1, day)`, where a 2-digit year means
      2000 + yy and a missing year means the current one. */
  function MatchedDay(m: DateMatch, today: CivilDate): int
    requires AllDigits(m.month) && AllDigits(m.day)
    requires m.year.Some? ==> AllDigits(m.year.value)
  {
    var targetYear :=
      match m.year
      case None => today.year
      case Some(y) => if |y| == 2 then 2000 + DigitsValue(y) else DigitsValue(y);
    JsDateDay(targetYear, DigitsValue(m.month) - 1, DigitsValue(m.day))
  }

  // ---------------------------------------------------------------------------
  // parseTaskText, one step per block of the source
  // ---------------------------------------------------------------------------

  datatype ParsedTask = ParsedTask(
    title: String,
    priority: String,
    tags: seq<String>,
    dueDate: Option<int>,
    category: String,
    assignee: String)

  /** The words of every `#word` token of `text`, in order, lower-cased. */
  function TagsOf(text: String): (tags: seq<String>)
    ensures |tags| == |Starts(Sigil('#'), text)|
    ensures forall k :: 0 <= k < |tags| ==> tags[k] != [] && forall j :: 0 <= j < |tags[k]| ==>
      IsWordChar(tags[k][j]) && !('A' <= tags[k][j] <= 'Z')
  {
    var starts := Starts(Sigil('#'), text);
    seq(|starts|, k requires 0 <= k < |starts| => TagWord(text, starts[k]))
  }

  /** The lower-cased word of the `#word` token at `j`. */
  function TagWord(text: String, j: nat): (w: String)
    requires j < |text| && MatchesAt(Sigil('#'), text, j)
    ensures w != [] && forall i :: 0 <= i < |w| ==> IsWordChar(w[i]) && !('A' <= w[i] <= 'Z')
  {
    LowerKeepsWordChars(SigilWord('#', text, j));
    ToLower(SigilWord('#', text, j))
  }

  /** The tag step: the tags, and the title with every `#word` deleted. */
  function TagStep(text: String): (r: (seq<String>, String))
    ensures r.0 == [] ==> r.1 == text
    ensures r.0 != [] ==> Trimmed(r.1) && NoMatch(Sigil('#'), r.1)
  {
    var tags := TagsOf(text);
    if tags == [] then (tags, text)
    else
      SigilRemoveAllLeavesNone('#', text);
      TrimKeepsNoSigil('#', RemoveAll(Sigil('#'), text));
      (tags, Trim(RemoveAll(Sigil('#'), text)))
  }

  /** The priority step: the first `!high|!medium|!low` of `text` decides the
      priority, and every such token is deleted from the title. */
  function PriorityStep(text: String, title: String): (r: (String, String))
    ensures r.0 == "high" || r.0 == "medium" || r.0 == "low"
    ensures First(PriorityToken, text).None? ==> r == ("medium", title)
    ensures First(PriorityToken, text).Some? ==> r.0 == PriorityWord(text, First(PriorityToken, text).value)
  {
    match First(PriorityToken, text)
    case None => ("medium", title)
    case Some(k) => (PriorityWord(text, k), Trim(RemoveAll(PriorityToken, title)))
  }

  /** The assignee step: the first `@word` of `text`, case kept, defaulting
      to 'Atticus'; every `@word` is deleted from the title. */
  function AssigneeStep(text: String, title: String): (r: (String, String))
    ensures First(Sigil('@'), text).None? ==> r == ("Atticus", title)
    ensures First(Sigil('@'), text).Some? ==>
      r.0 == SigilWord('@', text, First(Sigil('@'), text).value) && r.0 != []
  {
    match First(Sigil('@'), text)
    case None => ("Atticus", title)
    case Some(k) => (SigilWord('@', text, k), Trim(RemoveAll(Sigil('@'), title)))
  }

  /** The keyword date step: 'tomorrow' before 'today' before 'next week';
      the keyword that decides is deleted from the title. */
  function KeywordDateStep(text: String, title: String, todayNumber: int): (r: (Option<int>, String))
    ensures Test(Whole("tomorrow"), text) ==> r.0 == Some(todayNumber + 1)
    ensures !Test(Whole("tomorrow"), text) && Test(Whole("today"), text) ==> r.0 == Some(todayNumber)
    ensures !Test(Whole("tomorrow"), text) && !Test(Whole("today"), text) && Test(NextWeek, text) ==>
      r.0 == Some(todayNumber + 7)
    ensures !Test(Whole("tomorrow"), text) && !Test(Whole("today"), text) && !Test(NextWeek, text) ==>
      r == (None, title)
  {
    if Test(Whole("tomorrow"), text) then (Some(todayNumber + 1), Trim(RemoveAll(Whole("tomorrow"), title)))
    else if Test(Whole("today"), text) then (Some(todayNumber), Trim(RemoveAll(Whole("today"), title)))
    else if Test(NextWeek, text) then (Some(todayNumber + 7), Trim(RemoveAll(NextWeek, title)))
    else (None, title)
  }

  /** The numeric date step, a separate `if` after the keyword dates: a
      matched date later than today replaces the due date, and its text is
      deleted from the title once. */
  function NumericDateStep(text: String, title: String, due: Option<int>, today: CivilDate): (r: (Option<int>, String))
    requires 1 <= today.month <= 12
    ensures FirstDate(text).None? ==> r == (due, title)
    ensures FirstDate(text).Some? ==>
      var m := FirstDate(text).value;
      var day := MatchedDay(m, today);
      if day > DayNumber(today) then r == (Some(day), Trim(RemoveFirst(title, DateText(text, m))))
      else r == (due, title)
  {
    match FirstDate(text)
    case None => (due, title)
    case Some(m) =>
      var day := MatchedDay(m, today);
      if day > DayNumber(today) then (Some(day), Trim(RemoveFirst(title, DateText(text, m))))
      else (due, title)
  }

  /** The text a date match covers. */
  function DateText(text: String, m: DateMatch): (d: String)
    requires WellFormedDateMatch(text, m)
    ensures |d| == m.len && d == text[m.start..m.start + m.len]
  {
    text[m.start..m.start + m.len]
  }

  // ---------------------------------------------------------------------------
  // What each step does to the title
  // ---------------------------------------------------------------------------

  /** With a tag, the title is the text outside every `#word`, trimmed. */
  lemma TagStepTitle(text: String)
    ensures var r := TagStep(text);
      r.0 != [] ==> r.1 == Trim(Outside(Sigil('#'), text))
  {
    RemoveAllIsOutside(Sigil('#'), text);
  }

  /** With a priority token in the text, the title keeps what lies outside
      every `!high|!medium|!low` token, trimmed. */
  lemma PriorityStepTitle(text: String, title: String)
    ensures var r := PriorityStep(text, title);
      First(PriorityToken, text).Some? ==> Trimmed(r.1) && r.1 == Trim(Outside(PriorityToken, title))
  {
    RemoveAllIsOutside(PriorityToken, title);
  }

  /** With an `@word` in the text, the title keeps what lies outside every
      `@word`, trimmed, and holds no `@word` any more. */
  lemma AssigneeStepTitle(text: String, title: String)
    ensures var r := AssigneeStep(text, title);
      First(Sigil('@'), text).Some? ==>
        && Trimmed(r.1) && NoMatch(Sigil('@'), r.1)
        && r.1 == Trim(Outside(Sigil('@'), title))
  {
    RemoveAllIsOutside(Sigil('@'), title);
    SigilRemoveAllLeavesNone('@', title);
    TrimKeepsNoSigil('@', RemoveAll(Sigil('@'), title));
  }

  /** The deciding keyword is deleted from the title as a whole word and
      none of it is left; one deletion pass can leave a 'next week' behind
      (`NextWeekRemovalIsSinglePass`), so that branch promises no absence. */
  lemma KeywordDateStepTitle(text: String, title: String, todayNumber: int)
    ensures var r := KeywordDateStep(text, title, todayNumber);
      && (Test(Whole("tomorrow"), text) ==>
            r.1 == Trim(Outside(Whole("tomorrow"), title)) && NoMatch(Whole("tomorrow"), r.1))
      && (!Test(Whole("tomorrow"), text) && Test(Whole("today"), text) ==>
            r.1 == Trim(Outside(Whole("today"), title)) && NoMatch(Whole("today"), r.1))
      && (!Test(Whole("tomorrow"), text) && !Test(Whole("today"), text) && Test(NextWeek, text) ==>
            r.1 == Trim(Outside(NextWeek, title)))
  {
    KeywordRemoval("tomorrow", title);
    KeywordRemoval("today", title);
    RemoveAllIsOutside(NextWeek, title);
  }

  /** Deleting a date keyword keeps the text outside its matches and leaves
      none of it behind. */
  lemma KeywordRemoval(w: String, title: String)
    requires w == "tomorrow" || w == "today"
    ensures var r := Trim(RemoveAll(Whole(w), title));
      r == Trim(Outside(Whole(w), title)) && NoMatch(Whole(w), r)
  {
    RemoveAllIsOutside(Whole(w), title);
    LowerWordOfLetters(w);
    WholeRemovalLeavesNone(w, title);
  }

  /** The category: an icon tag or word, else a capstone tag or word, else a
      setup or config tag, else 'Personal'. */
  function CategoryOf(tags: seq<String>, text: String): (c: String)
    ensures c in {"ICON", "Capstone", "Atticus Setup", "Personal"}
    ensures c == "ICON" <==> "icon" in tags || Test(Whole("icon"), text)
    ensures c == "Capstone" <==> c != "ICON" && ("capstone" in tags || Test(Whole("capstone"), text))
    ensures c == "Atticus Setup" <==> c !in {"ICON", "Capstone"} && ("setup" in tags || "config" in tags)
    ensures c == "Personal" <==>
      && "icon" !in tags && !Test(Whole("icon"), text)
      && "capstone" !in tags && !Test(Whole("capstone"), text)
      && "setup" !in tags && "config" !in tags
  {
    if "icon" in tags || Test(Whole("icon"), text) then "ICON"
    else if "capstone" in tags || Test(Whole("capstone"), text) then "Capstone"
    else if "setup" in tags || "config" in tags then "Atticus Setup"
    else "Personal"
  }

  /** `s.replace(/\s+/g, ' ')`: every whitespace run becomes one space. */
  function CollapseSpaces(s: String): (r: String)
    ensures SingleSpaced(r)
    ensures s != [] && !IsSpace(s[0]) ==> r != [] && r[0] == s[0]
    decreases |s|
  {
    if s == [] then []
    else if IsSpace(s[0]) then
      var n := SpaceRun(s);
      [' '] + CollapseSpaces(s[n..])
    else [s[0]] + CollapseSpaces(s[1..])
  }

  /** The only whitespace is the plain space, and never two in a row. */
  predicate SingleSpaced(s: String) {
    && (forall i :: 0 <= i < |s| && IsSpace(s[i]) ==> s[i] == ' ')
    && (forall i, j :: 0 <= i < |s| && 0 <= j < |s| && j == i + 1 && IsSpace(s[j]) ==> !IsSpace(s[i]))
  }

  /** Trimming a single-spaced string keeps it single-spaced. */
  lemma TrimKeepsSingleSpaced(s: String)
    requires SingleSpaced(s)
    ensures SingleSpaced(Trim(s))
  {
    var lo, t := TrimIsSlice(s);
    SliceSingleSpaced(s, t, lo);
  }

  /** Any piece of a single-spaced string is single-spaced. */
  lemma SliceSingleSpaced(s: String, t: String, lo: nat)
    requires lo + |t| <= |s| && t == s[lo..lo + |t|] && SingleSpaced(s)
    ensures SingleSpaced(t)
  {
    forall i | 0 <= i < |t| ensures t[i] == s[lo + i] {
    }
  }

  /** The final clean-up of the title. */
  function CleanTitle(title: String): (r: String)
    ensures Trimmed(r) && SingleSpaced(r)
  {
    var c := CollapseSpaces(title);
    TrimKeepsSingleSpaced(c);
    Trim(c)
  }

  /** `QuickCapture.parseTaskText(text)` on the given day. */
  function ParseTaskText(text: String, today: CivilDate): (p: ParsedTask)
    requires ValidDate(today)
    ensures Trimmed(p.title) && SingleSpaced(p.title)
    ensures p.tags == TagsOf(text)
    ensures p.priority == PriorityStep(text, []).0
    ensures p.assignee == AssigneeStep(text, []).0
    ensures p.category == CategoryOf(TagsOf(text), text)
  {
    var (tags, t1) := TagStep(text);
    var (priority, t2) := PriorityStep(text, t1);
    var (assignee, t3) := AssigneeStep(text, t2);
    var (keywordDue, t4) := KeywordDateStep(text, t3, DayNumber(today));
    var (due, t5) := NumericDateStep(text, t4, keywordDue, today);
    ParsedTask(CleanTitle(t5), priority, tags, due, CategoryOf(tags, text), assignee)
  }

  /** The keyword and numeric date rules combined: a later numeric date
      wins over any keyword; otherwise the keyword precedence decides. */
  lemma ParsedDueDate(text: String, today: CivilDate)
    requires ValidDate(today)
    ensures var p := ParseTaskText(text, today);
      var kw := KeywordDateStep(text, [], DayNumber(today)).0;
      && (FirstDate(text).Some? && MatchedDay(FirstDate(text).value, today) > DayNumber(today) ==>
            p.dueDate == Some(MatchedDay(FirstDate(text).value, today)))
      && (FirstDate(text).None? || MatchedDay(FirstDate(text).value, today) <= DayNumber(today) ==>
            p.dueDate == kw)
  {
  }

  /** A parsed due date is never before today. */
  lemma ParsedDueDateNotPast(text: String, today: CivilDate)
    requires ValidDate(today)
    ensures var p := ParseTaskText(text, today);
      p.dueDate.Some? ==> p.dueDate.value >= DayNumber(today)
  {
    ParsedDueDate(text, today);
  }

  /** A line with every kind of marker: "Fix bug #urgent !high @Adam
      tomorrow" is the task "Fix bug", tagged 'urgent', of high priority,
      assigned to Adam and due tomorrow. */
  lemma ParseExample(today: CivilDate)
    requires ValidDate(today)
    ensures var p := ParseTaskText("Fix bug #urgent !high @Adam tomorrow", today);
      && p.title == "Fix bug" && p.tags == ["urgent"] && p.priority == "high"
      && p.assignee == "Adam" && p.dueDate == Some(DayNumber(today) + 1)
  {
    var text := "Fix bug #urgent !high @Adam tomorrow";
    var t1, t2, t3, t4 := "Fix bug  !high @Adam tomorrow", "Fix bug   @Adam tomorrow", "Fix bug    tomorrow", "Fix bug";
    ExampleTag(text, t1);
    ExamplePriority(text, t1, t2);
    ExampleAssignee(text, t2, t3);
    ExampleTomorrow(text, t3, t4, DayNumber(today));
    ExampleNoDate(text);
    var due := Some(DayNumber(today) + 1);
    ParseBySteps(text, today, ["urgent"], t1, "high", t2, "Adam", t3, due, t4, due, t4);
    ExampleCleanTitle(t4);
  }

  /** The parsed task is what the five steps give, the last title cleaned:
      with the step title lemmas above, this says what the title holds. */
  lemma ParseBySteps(text: String, today: CivilDate, tags: seq<String>, t1: String, priority: String,
                     t2: String, assignee: String, t3: String, keywordDue: Option<int>, t4: String,
                     due: Option<int>, t5: String)
    requires ValidDate(today)
    requires TagStep(text) == (tags, t1) && PriorityStep(text, t1) == (priority, t2)
    requires AssigneeStep(text, t2) == (assignee, t3)
    requires KeywordDateStep(text, t3, DayNumber(today)) == (keywordDue, t4)
    requires NumericDateStep(text, t4, keywordDue, today) == (due, t5)
    ensures var p := ParseTaskText(text, today);
      && p.title == CleanTitle(t5) && p.tags == tags && p.priority == priority
      && p.assignee == assignee && p.dueDate == due
  {
  }

  /** The example line's tag step: the one tag, and the title around it. */
  lemma ExampleTag(text: String, t1: String)
    requires text == "Fix bug #urgent !high @Adam tomorrow"
    requires t1 == "Fix bug  !high @Adam tomorrow"
    ensures TagStep(text) == (["urgent"], t1)
  {
    var a, w, b := "Fix bug ", "urgent", " !high @Adam tomorrow";
    ExampleTagParts(text, t1, a, w, b);
    ExampleTagChars(t1, a, w, b);
    SingleTag(a, w, b);
  }

  /** Where the example line splits around its tag. */
  lemma ExampleTagParts(text: String, t1: String, a: String, w: String, b: String)
    requires text == "Fix bug #urgent !high @Adam tomorrow"
    requires t1 == "Fix bug  !high @Adam tomorrow"
    requires a == "Fix bug " && w == "urgent" && b == " !high @Adam tomorrow"
    ensures text == a + ['#'] + w + b && t1 == a + b
  {
  }

  lemma ExampleTagChars(t1: String, a: String, w: String, b: String)
    requires t1 == "Fix bug  !high @Adam tomorrow" && t1 == a + b
    requires a == "Fix bug " && w == "urgent" && b == " !high @Adam tomorrow"
    ensures '#' !in a && '#' !in b && Trimmed(a + b)
    ensures w != [] && forall x :: x in w ==> IsWordChar(x) && !('A' <= x <= 'Z')
    ensures b == [] || !IsWordChar(b[0])
  {
  }

  /** The example line's priority step. */
  lemma ExamplePriority(text: String, t1: String, t2: String)
    requires text == "Fix bug #urgent !high @Adam tomorrow"
    requires t1 == "Fix bug  !high @Adam tomorrow" && t2 == "Fix bug   @Adam tomorrow"
    ensures PriorityStep(text, t1) == ("high", t2)
  {
    var a1, b1, a2, b2 := "Fix bug #urgent ", " @Adam tomorrow", "Fix bug  ", " @Adam tomorrow";
    ExamplePriorityParts(text, t1, t2, a1, b1, a2, b2);
    SingleHigh(text, a1, b1, t1, a2, b2);
  }

  lemma ExamplePriorityParts(text: String, t1: String, t2: String, a1: String, b1: String, a2: String, b2: String)
    requires text == "Fix bug #urgent !high @Adam tomorrow"
    requires t1 == "Fix bug  !high @Adam tomorrow" && t2 == "Fix bug   @Adam tomorrow"
    requires a1 == "Fix bug #urgent " && b1 == " @Adam tomorrow" && a2 == "Fix bug  " && b2 == b1
    ensures text == a1 + "!high" + b1 && '!' !in a1 && '!' !in b1
    ensures t1 == a2 + "!high" + b2 && '!' !in a2 && '!' !in b2 && Trimmed(a2 + b2)
    ensures t2 == a2 + b2
  {
  }

  /** The example line's assignee step. */
  lemma ExampleAssignee(text: String, t2: String, t3: String)
    requires text == "Fix bug #urgent !high @Adam tomorrow"
    requires t2 == "Fix bug   @Adam tomorrow" && t3 == "Fix bug    tomorrow"
    ensures AssigneeStep(text, t2) == ("Adam", t3)
  {
    var a1, w, b1, a2, b2 := "Fix bug #urgent !high ", "Adam", " tomorrow", "Fix bug   ", " tomorrow";
    ExampleAssigneeParts(text, t2, t3, a1, w, b1, a2, b2);
    SingleAssignee(text, a1, w, b1, t2, a2, b2);
  }

  lemma ExampleAssigneeParts(text: String, t2: String, t3: String, a1: String, w: String, b1: String, a2: String, b2: String)
    requires text == "Fix bug #urgent !high @Adam tomorrow"
    requires t2 == "Fix bug   @Adam tomorrow" && t3 == "Fix bug    tomorrow"
    requires a1 == "Fix bug #urgent !high " && w == "Adam" && b1 == " tomorrow" && a2 == "Fix bug   " && b2 == b1
    ensures w != [] && forall x :: x in w ==> IsWordChar(x)
    ensures text == a1 + ['@'] + w + b1 && '@' !in a1 && '@' !in b1 && (b1 == [] || !IsWordChar(b1[0]))
    ensures t2 == a2 + ['@'] + w + b2 && '@' !in a2 && '@' !in b2 && (b2 == [] || !IsWordChar(b2[0]))
    ensures Trimmed(a2 + b2) && t3 == a2 + b2
  {
  }

  /** The example line's keyword step: due tomorrow, and the title trimmed. */
  lemma ExampleTomorrow(text: String, t3: String, t4: String, todayNumber: int)
    requires text == "Fix bug #urgent !high @Adam tomorrow"
    requires t3 == "Fix bug    tomorrow" && t4 == "Fix bug"
    ensures KeywordDateStep(text, t3, todayNumber) == (Some(todayNumber + 1), t4)
  {
    var a1, a2, sp := "Fix bug #urgent !high @Adam ", "Fix bug    ", "    ";
    ExampleTomorrowParts(text, t3, t4, a1, a2, sp);
    TomorrowAtEnd(text, a1, t3, a2, todayNumber);
    TrimTrailingSpaces(t4, sp);
  }

  lemma ExampleTomorrowParts(text: String, t3: String, t4: String, a1: String, a2: String, sp: String)
    requires text == "Fix bug #urgent !high @Adam tomorrow"
    requires t3 == "Fix bug    tomorrow" && t4 == "Fix bug"
    requires a1 == "Fix bug #urgent !high @Adam " && a2 == "Fix bug    " && sp == "    "
    ensures text == a1 + "tomorrow" && (a1 == [] || !IsWordChar(a1[|a1| - 1]))
    ensures t3 == a2 + "tomorrow" && (a2 == [] || !IsWordChar(a2[|a2| - 1]))
    ensures 't' !in a2 && 'T' !in a2
    ensures a2 == t4 + sp && t4 != [] && Trimmed(t4) && AllSpace(sp)
  {
  }

  /** A text whose only '#' starts the tag `w`: that is the one tag, and the
      title is the text around it. */
  lemma SingleTag(a: String, w: String, b: String)
    requires '#' !in a && '#' !in b && Trimmed(a + b)
    requires w != [] && forall x :: x in w ==> IsWordChar(x) && !('A' <= x <= 'Z')
    requires b == [] || !IsWordChar(b[0])
    ensures TagStep(a + ['#'] + w + b) == ([w], a + b)
  {
    var text := a + ['#'] + w + b;
    SigilOnce('#', a, w, b);
    ToLowerOfLower(w);
    assert TagsOf(text) == [TagWord(text, |a|)];
    TrimOfTrimmed(a + b);
  }

  /** A text whose only '!' starts "!high", and a title of the same shape:
      the priority is high and "!high" leaves the title. */
  lemma SingleHigh(text: String, a1: String, b1: String, title: String, a2: String, b2: String)
    requires text == a1 + "!high" + b1 && '!' !in a1 && '!' !in b1
    requires title == a2 + "!high" + b2 && '!' !in a2 && '!' !in b2 && Trimmed(a2 + b2)
    ensures PriorityStep(text, title) == ("high", a2 + b2)
  {
    HighOnce(a1, b1);
    HighOnce(a2, b2);
    TrimOfTrimmed(a2 + b2);
  }

  /** A text whose only '@' starts `@w`, and a title of the same shape: the
      assignee is `w` and `@w` leaves the title. */
  lemma SingleAssignee(text: String, a1: String, w: String, b1: String, title: String, a2: String, b2: String)
    requires w != [] && forall x :: x in w ==> IsWordChar(x)
    requires text == a1 + ['@'] + w + b1 && '@' !in a1 && '@' !in b1 && (b1 == [] || !IsWordChar(b1[0]))
    requires title == a2 + ['@'] + w + b2 && '@' !in a2 && '@' !in b2 && (b2 == [] || !IsWordChar(b2[0]))
    requires Trimmed(a2 + b2)
    ensures AssigneeStep(text, title) == (w, a2 + b2)
  {
    SigilOnce('@', a1, w, b1);
    SigilOnce('@', a2, w, b2);
    TrimOfTrimmed(a2 + b2);
  }

  /** 'tomorrow' closing the text and the title: due the next day, and the
      word leaves the title. */
  lemma TomorrowAtEnd(text: String, a1: String, title: String, a2: String, todayNumber: int)
    requires text == a1 + "tomorrow" && (a1 == [] || !IsWordChar(a1[|a1| - 1]))
    requires title == a2 + "tomorrow" && (a2 == [] || !IsWordChar(a2[|a2| - 1]))
    requires 't' !in a2 && 'T' !in a2
    ensures KeywordDateStep(text, title, todayNumber) == (Some(todayNumber + 1), Trim(a2))
  {
    LowerWordOfLetters("tomorrow");
    WholeMatchAtEnd("tomorrow", a1);
    WholeAtEnd("tomorrow", a2);
  }

  /** Trailing whitespace after trimmed text is what `trim` removes. */
  lemma TrimTrailingSpaces(x: String, sp: String)
    requires x != [] && Trimmed(x) && AllSpace(sp)
    ensures Trim(x + sp) == x
  {
    assert TrimStart(x + sp) == x + sp by {
      assert (x + sp)[0] == x[0];
    }
    TrimEndSpaces(x, sp);
  }

  lemma {:induction false} TrimEndSpaces(x: String, sp: String)
    requires x != [] && !IsSpace(x[|x| - 1]) && AllSpace(sp)
    ensures TrimEnd(x + sp) == x
    decreases |sp|
  {
    var y := x + sp;
    if sp == [] {
      assert y == x;
    } else {
      var sp' := sp[..|sp| - 1];
      assert y[..|y| - 1] == x + sp';
      assert IsSpace(y[|y| - 1]) by {
        assert y[|y| - 1] == sp[|sp| - 1];
      }
      TrimEndSpaces(x, sp');
    }
  }

  /** No digit, no date. */
  lemma NoDigitNoDate(text: String)
    requires forall x :: '0' <= x <= '9' ==> x !in text
    ensures FirstDate(text).None?
  {
    DateNeedsDigit(text);
  }

  /** A date match starts with a digit. */
  lemma DateNeedsDigit(text: String)
    ensures FirstDate(text).Some? ==> text[FirstDate(text).value.start] in text && IsDigit(text[FirstDate(text).value.start])
  {
    if FirstDate(text).Some? {
      var m := FirstDate(text).value;
      assert m.month[0] == text[m.start];
    }
  }

  /** The example line has no numeric date. */
  lemma ExampleNoDate(text: String)
    requires text == "Fix bug #urgent !high @Adam tomorrow"
    ensures FirstDate(text).None?
  {
    assert forall x :: '0' <= x <= '9' ==> x !in text;
    NoDigitNoDate(text);
  }

  lemma ExampleCleanTitle(t: String)
    requires t == "Fix bug"
    ensures CleanTitle(t) == t
  {
    CollapseKeepsSingleSpaced(t);
    TrimOfTrimmed(t);
  }

  /** `replace(/\s+/g, ' ')` leaves a text whose only whitespace is single
      plain spaces as it is. */
  lemma {:induction false} CollapseKeepsSingleSpaced(s: String)
    requires SingleSpaced(s)
    ensures CollapseSpaces(s) == s
    decreases |s|
  {
    if s != [] {
      SliceSingleSpaced(s, s[1..], 1);
      CollapseKeepsSingleSpaced(s[1..]);
      if IsSpace(s[0]) {
        assert SpaceRun(s) == 1 by {
          assert |s| > 1 ==> !IsSpace(s[1]);
          assert s[1..] == [] || !IsSpace(s[1..][0]);
        }
      }
    }
  }

  /** The tag step leaves no `#word` behind, but the later deletions can
      join a '#' to a word: in "#!higha" the '#' is followed by '!', so it
      is no tag, and deleting "!high" leaves the tag "#a" in the title. */
  lemma TagCanReappear()
    ensures TagStep("#!higha") == ([], "#!higha")
    ensures PriorityStep("#!higha", "#!higha") == ("high", "#a")
    ensures MatchesAt(Sigil('#'), "#a", 0)
  {
    var s := "#!higha";
    NoTagStep(s);
    PriorityStepDeletes(s);
    HashTagMatches("#a");
  }

  lemma NoTagStep(s: String)
    requires s == "#!higha"
    ensures TagStep(s) == ([], s)
  {
    NoTagIn(s);
    assert |TagsOf(s)| == 0;
  }

  lemma PriorityStepDeletes(s: String)
    requires s == "#!higha"
    ensures PriorityStep(s, s) == ("high", "#a")
  {
    PriorityTokenAtOne(s);
    var r: String := "#a";
    assert !IsSpace(r[0]) && !IsSpace(r[1]);
    TrimOfTrimmed(r);
  }

  lemma HashTagMatches(r: String)
    requires r == "#a"
    ensures MatchesAt(Sigil('#'), r, 0)
  {
    assert WordRun(r[0..][1..]) == 1;
  }

  lemma NoTagIn(s: String)
    requires s == "#!higha"
    ensures Starts(Sigil('#'), s) == []
  {
    forall j | 0 <= j < |s| ensures !MatchesAt(Sigil('#'), s, j) {
      SigilAt('#', s, j);
    }
  }

  lemma PriorityTokenAtOne(s: String)
    requires s == "#!higha"
    ensures First(PriorityToken, s) == Some(1)
    ensures PriorityWord(s, 1) == "high"
    ensures RemoveAll(PriorityToken, s) == "#a"
  {
    var lens := MatchLens(PriorityToken, s);
    NoPriorityAt(s, 0);
    HighAt(s, 1);
    NoPriorityAt(s, 6);
    assert FirstIn(lens, 1) == Some(1);
    assert s[1..][1..5] == "high";
    HashARemoval(lens, s);
  }

  lemma HashARemoval(lens: seq<nat>, s: String)
    requires s == "#!higha" && |lens| == |s| && Fits(lens)
    requires lens[0] == 0 && lens[1] == 5 && lens[6] == 0
    ensures RemoveIn(lens, s, 0) == "#a"
  {
    assert RemoveIn(lens, s, 6) == "a";
    assert RemoveIn(lens, s, 1) == "a";
  }

  // ---------------------------------------------------------------------------
  // Link normalisation, URL test, keywords, type detection
  // ---------------------------------------------------------------------------

  /** The text `captureLink` posts: trimmed, and when it does not start with
      'http', prefixed with 'https://' after dropping one leading 'www.'. */
  function NormalizeUrl(text: String): (url: String)
    ensures StartsWith(url, "http")
    ensures Trimmed(url)
    ensures StartsWith(Trim(text), "http") ==> url == Trim(text)
    ensures var t := Trim(text);
      !StartsWith(t, "http") ==>
        && StartsWith(url, "https://")
        && (StartsWith(t, "www.") ==> "www." + url[8..] == t)
        && (!StartsWith(t, "www.") ==> url[8..] == t)
  {
    var u := Trim(text);
    if StartsWith(u, "http") then u
    else
      var rest := if StartsWith(u, "www.") then u[4..] else u;
      PrefixedTrimmed(u, rest)
  }

  function PrefixedTrimmed(u: String, rest: String): (url: String)
    requires Trimmed(u) && |rest| <= |u| && rest == u[|u| - |rest|..]
    ensures url == "https://" + rest
    ensures StartsWith(url, "http") && Trimmed(url)
  {
    var url := "https://" + rest;
    assert url[..4] == "http";
    assert rest != [] ==> url[|url| - 1] == u[|u| - 1];
    url
  }

  /** Normalising twice is normalising once. */
  lemma NormalizeUrlIdempotent(text: String)
    ensures NormalizeUrl(NormalizeUrl(text)) == NormalizeUrl(text)
  {
    TrimOfTrimmed(NormalizeUrl(text));
  }

  /** `isURL`: `new URL(text)` succeeds (`parses`, which this model does not
      compute) or the text starts with http://, https:// or www., ignoring case. */
  predicate IsUrl(text: String, parses: bool): (r: bool)
    ensures parses ==> r
    ensures r && !parses ==> 4 <= |text| && (LowerChar(text[0]) == 'h' || LowerChar(text[0]) == 'w')
  {
    parses
    || StartsIgnoringCase(text, "http://")
    || StartsIgnoringCase(text, "https://")
    || StartsIgnoringCase(text, "www.")
  }

  const TaskKeywords: seq<String> := [
    "todo", "task", "do", "call", "email", "meeting", "deadline", "due",
    "tomorrow", "today", "!high", "!medium", "!low", "#", "remind", "schedule"]

  /** `hasTaskKeywords`: some keyword occurs in the lower-cased text; any
      '#' is one. */
  predicate HasTaskKeywords(text: String): (r: bool)
    ensures '#' in text ==> r
  {
    HashInLower(text);
    exists k :: 0 <= k < |TaskKeywords| && Contains(ToLower(text), TaskKeywords[k])
  }

  /** The keyword test ignores case. */
  lemma TaskKeywordsIgnoreCase(text: String)
    ensures HasTaskKeywords(ToLower(text)) == HasTaskKeywords(text)
  {
    ToLowerIdempotent(text);
  }

  /** A '#' survives lower-casing. */
  lemma HashInLower(text: String)
    ensures '#' in text ==> Contains(ToLower(text), TaskKeywords[13])
  {
    if '#' in text {
      var i :| 0 <= i < |text| && text[i] == '#';
      assert ToLower(text)[i..i + 1] == "#";
      assert OccursAt(ToLower(text), "#", i);
    }
  }

  /** `detectType` on the trimmed input: `None` leaves the type as it was. */
  function DetectedType(text: String, parses: bool): (r: Option<String>)
    ensures IsUrl(text, parses) <==> r == Some("link")
    ensures r == Some("note") <==> !IsUrl(text, parses) && ('\n' in text || |text| > 100)
    ensures r.None? <==> !IsUrl(text, parses) && '\n' !in text && |text| <= 100 && !HasTaskKeywords(text)
  {
    if IsUrl(text, parses) then Some("link")
    else if '\n' in text || |text| > 100 then Some("note")
    else if HasTaskKeywords(text) then Some("task")
    else None
  }

  /** The capture box's type selector. */
  class QuickCapture {
    var currentType: String

    constructor ()
      ensures currentType == "task"
    {
      currentType := "task";
    }

    method SetType(t: String)
      modifies this
      ensures currentType == t
    {
      currentType := t;
    }

    /** The input listener: detect on the trimmed value; `parses` is what
      `new URL` makes of it. */
    method DetectType(value: String, parses: bool)
      modifies this
      ensures currentType == DetectedType(Trim(value), parses).GetOr(old(currentType))
    {
      var text := Trim(value);
      match DetectedType(text, parses)
      case Some(t) => SetType(t);
      case None =>
    }

    /** The paste listener: only a URL switches the type. */
    method OnPaste(value: String, parses: bool)
      modifies this
      ensures IsUrl(Trim(value), parses) ==> currentType == "link"
      ensures !IsUrl(Trim(value), parses) ==> currentType == old(currentType)
    {
      var text := Trim(value);
      if IsUrl(text, parses) {
        SetType("link");
      }
    }
  }

  // ---------------------------------------------------------------------------
  // quickAddTask
  // ---------------------------------------------------------------------------

  datatype TaskOptions = TaskOptions(
    description: Option<String>,
    column: Option<String>,
    priority: Option<String>,
    category: Option<String>,
    assignee: Option<String>,
    dueDate: Option<int>,
    tags: Option<seq<String>>)

  /** The body `quickAddTask` posts to /tasks. */
  function QuickAddBody(title: String, o: TaskOptions): (b: TaskStore.TaskBody)
    ensures b.id.None? && b.comments.None? && b.createdAt.None? && b.updatedAt.None?
    ensures b.tags.Some?
  {
    TaskStore.TaskBody(
      None,
      Some(title),
      Some(TaskStore.OrElse(o.description, "")),
      Some(TaskStore.OrElse(o.column, "To Do")),
      Some(TaskStore.OrElse(o.priority, "medium")),
      Some(TaskStore.OrElse(o.category, "Personal")),
      Some(TaskStore.OrElse(o.assignee, "Atticus")),
      Some(o.dueDate),
      Some(o.tags.GetOr([])),
      None, None, None)
  }

  /** What the server makes of a quick-added task: the client's defaults
      ('To Do', 'Atticus') win over the server's ('Backlog', 'Adam'), and the
      tags are dropped because the create handler does not read them. */
  lemma QuickAddCreates(id: int, title: String, o: TaskOptions, now: int)
    ensures var t := TaskStore.NewTask(id, QuickAddBody(title, o), now);
      && t.column == TaskStore.OrElse(o.column, "To Do")
      && t.assignee == TaskStore.OrElse(o.assignee, "Atticus")
      && t.title == TaskStore.OrElse(Some(title), "Untitled")
      && t.dueDate == o.dueDate
      && t.tags.None? && t.comments == []
  {
  }
}
