/** The shared helpers of the front end (public/js/utils.js): request URLs,
    the overdue test, relative dates, tag colours, priority icons and
    classes, the current view and the theme toggle. The clock and the local
    time zone are parameters: `now` is milliseconds since the epoch and the
    zone is a fixed offset in milliseconds (local time = UTC + offset). */
module Utils {
  import opened Optionals
  import opened Strings
  import opened Dates
  import opened Board

  // ---------------------------------------------------------------------------
  // Request URLs
  // ---------------------------------------------------------------------------

  /** `API.request(endpoint)`'s URL: absolute URLs as they are, anything else
      under `/api`. */
  function ApiUrl(endpoint: String): (url: String)
    ensures StartsWith(endpoint, "http") ==> url == endpoint
    ensures !StartsWith(endpoint, "http") ==> StartsWith(url, "/api") && url[4..] == endpoint
  {
    if StartsWith(endpoint, "http") then endpoint else "/api" + endpoint
  }

  /** The prefix never turns a path into an absolute URL, so a second pass
      changes only what the first one prefixed. */
  lemma ApiUrlAbsoluteIffAbsolute(endpoint: String)
    ensures StartsWith(ApiUrl(endpoint), "http") <==> StartsWith(endpoint, "http")
    ensures StartsWith(endpoint, "http") ==> ApiUrl(ApiUrl(endpoint)) == ApiUrl(endpoint)
  {
    var url := ApiUrl(endpoint);
    if !StartsWith(endpoint, "http") {
      assert url[0] == '/';
    }
  }

  // ---------------------------------------------------------------------------
  // Days in the local time zone
  // ---------------------------------------------------------------------------

  /** The local calendar day (a day number) of the instant `ms`. */
  function LocalDay(ms: int, offset: int): int {
    (ms + offset) / DayMs
  }

  /** `d.setHours(0, 0, 0, 0)`: local midnight of the instant's day. */
  function StartOfLocalDay(ms: int, offset: int): (r: int)
    ensures r <= ms < r + DayMs
  {
    LocalDay(ms, offset) * DayMs - offset
  }

  /** `d.setHours(23, 59, 59, 999)`: the last millisecond of the instant's
      local day. */
  function EndOfLocalDay(ms: int, offset: int): (r: int)
    ensures ms <= r < ms + DayMs
  {
    StartOfLocalDay(ms, offset) + DayMs - 1
  }

  /** A date-only string `YYYY-MM-DD` denotes midnight UTC of that day. East
      of UTC (and at UTC) that instant falls on the same local day... */
  lemma DateOnlyEastOfUtc(day: int, offset: int)
    requires 0 <= offset < DayMs
    ensures LocalDay(day * DayMs, offset) == day
  {
  }

  /** ...and west of UTC on the local day before. */
  lemma DateOnlyWestOfUtc(day: int, offset: int)
    requires -DayMs <= offset < 0
    ensures LocalDay(day * DayMs, offset) == day - 1
  {
  }

  // ---------------------------------------------------------------------------
  // The overdue test
  // ---------------------------------------------------------------------------

  /** `isOverdue(dateString)` as written: `due` is the instant
      `new Date(dateString)` denotes (`None` for a missing date); the end of
      its local day is compared with the start of today's local day, which
      amounts to comparing local calendar days: overdue exactly when the due
      instant's local day is before today's. */
  function IsOverdueAsWritten(due: Option<int>, now: int, offset: int): (r: bool)
    ensures r <==> due.Some? && LocalDay(due.value, offset) < LocalDay(now, offset)
  {
    if due.None? then false
    else
      EndBeforeStartIffEarlierDay(due.value, now, offset);
      EndOfLocalDay(due.value, offset) < StartOfLocalDay(now, offset)
  }

  /** The end of one local day precedes the start of another exactly when
      the first day is the earlier one. */
  lemma EndBeforeStartIffEarlierDay(due: int, now: int, offset: int)
    ensures EndOfLocalDay(due, offset) < StartOfLocalDay(now, offset) <==> LocalDay(due, offset) < LocalDay(now, offset)
  {
    var a := LocalDay(due, offset);
    var b := LocalDay(now, offset);
    assert EndOfLocalDay(due, offset) == a * DayMs - offset + DayMs - 1;
    assert StartOfLocalDay(now, offset) == b * DayMs - offset;
    if a < b {
      assert (a + 1) * DayMs <= b * DayMs;
    } else {
      assert b * DayMs <= a * DayMs;
    }
  }

  /** West of UTC a task due today reads as overdue: the date-only string
      lands on yesterday's local day. For instance in UTC-5
      (offset -18000000), `2024-01-15` (day 19737) at 10:00 local time. */
  lemma DueTodayOverdueWestOfUtc(day: int, now: int, offset: int)
    requires -DayMs <= offset < 0
    requires LocalDay(now, offset) == day
    ensures IsOverdueAsWritten(Some(day * DayMs), now, offset)
  {
    DateOnlyWestOfUtc(day, offset);
  }

  lemma DueTodayOverdueExample()
    ensures IsOverdueAsWritten(Some(19737 * DayMs), 19737 * DayMs + 15 * 3600000, -18000000)
  {
    DueTodayOverdueWestOfUtc(19737, 19737 * DayMs + 15 * 3600000, -18000000);
  }

  /** The overdue test on calendar days: `due` is the due date's day number
      and `today` the local day number of now. */
  function IsOverdue(due: Option<int>, today: int): (r: bool)
    ensures r ==> due.Some?
  {
    due.Some? && due.value < today
  }

  /** A task due today is never overdue and one due yesterday always is. */
  lemma OverdueBoundary(today: int)
    ensures !IsOverdue(Some(today), today) && IsOverdue(Some(today - 1), today)
    ensures !IsOverdue(None, today)
  {
  }

  /** Where the date-only instant lies on its own day, at UTC and east of it,
      the calendar-day test agrees with the test as written. */
  lemma OverdueAgreesEastOfUtc(day: int, now: int, offset: int)
    requires 0 <= offset < DayMs
    ensures IsOverdue(Some(day), LocalDay(now, offset)) == IsOverdueAsWritten(Some(day * DayMs), now, offset)
  {
    DateOnlyEastOfUtc(day, offset);
  }

  // ---------------------------------------------------------------------------
  // Relative dates
  // ---------------------------------------------------------------------------

  /** What `formatDate` produces: nothing, a relative phrase, or the
      calendar text of an instant (`toLocaleDateString` is not modelled). */
  datatype DateText = NoDate | RelativeText(text: String) | CalendarText(instant: int)

  function Abs(x: int): nat {
    if x < 0 then -x else x
  }

  /** Whole days between two instants, in either direction. */
  function DiffDays(date: int, now: int): nat {
    Abs(now - date) / DayMs
  }

  /** The phrase for `d` whole days, `d < 7`. */
  function RelativeLabel(d: nat): (phrase: String)
    requires d < 7
  {
    if d == 0 then "Today"
    else if d == 1 then "Yesterday"
    else [DigitChar(d)] + " days ago"
  }

  /** Reading a phrase back. */
  function ParseRelativeLabel(phrase: String): (d: Option<nat>)
    ensures d.Some? ==> d.value < 7
  {
    if phrase == "Today" then Some(0)
    else if phrase == "Yesterday" then Some(1)
    else if |phrase| == 10 && phrase[1..] == " days ago" && '2' <= phrase[0] <= '6' then
      Some(phrase[0] as int - '0' as int)
    else None
  }

  /** Each phrase names its own number of days. */
  lemma RelativeLabelRoundTrip(d: nat)
    requires d < 7
    ensures ParseRelativeLabel(RelativeLabel(d)) == Some(d)
  {
    if d >= 2 {
      var phrase := RelativeLabel(d);
      assert phrase[1..] == " days ago";
      assert phrase != "Today" && phrase != "Yesterday" by {
        assert phrase[0] != 'T' && phrase[0] != 'Y';
      }
    }
  }

  /** `formatDate(date, {relative})` at time `now`. */
  function FormatDate(date: Option<int>, now: int, relative: bool): (r: DateText)
    ensures r == NoDate <==> date.None?
    ensures r.RelativeText? <==> date.Some? && relative && DiffDays(date.value, now) < 7
    ensures r.RelativeText? ==> ParseRelativeLabel(r.text) == Some(DiffDays(date.value, now))
    ensures r.CalendarText? ==> r.instant == date.value
  {
    if date.None? then NoDate
    else
      var d := DiffDays(date.value, now);
      if relative && d < 7 then
        RelativeLabelRoundTrip(d);
        RelativeText(RelativeLabel(d))
      else CalendarText(date.value)
  }

  /** The distance is absolute: a date `k` milliseconds ahead reads the same
      as one `k` milliseconds back, "ago" included. */
  lemma FutureReadsAsPast(now: int, k: nat)
    ensures FormatDate(Some(now + k), now, true).RelativeText? == FormatDate(Some(now - k), now, true).RelativeText?
    ensures FormatDate(Some(now + k), now, true).RelativeText? ==>
      FormatDate(Some(now + k), now, true).text == FormatDate(Some(now - k), now, true).text
  {
    assert DiffDays(now + k, now) == DiffDays(now - k, now);
  }

  // ---------------------------------------------------------------------------
  // Tags and priorities
  // ---------------------------------------------------------------------------

  /** An entry of the tag catalogue. */
  datatype TagInfo = TagInfo(name: String, color: String)

  /** `getTagColor(name, tags)`: the colour of the first entry with the name. */
  function GetTagColor(name: String, tags: seq<TagInfo>): (r: Option<String>)
    ensures r.None? <==> forall i :: 0 <= i < |tags| ==> tags[i].name != name
    ensures r.Some? ==> exists i :: 0 <= i < |tags| && tags[i].name == name && tags[i].color == r.value &&
                                    forall j :: 0 <= j < i ==> tags[j].name != name
  {
    if tags == [] then None
    else if tags[0].name == name then Some(tags[0].color)
    else
      var r := GetTagColor(name, tags[1..]);
      if r.Some? then
        ghost var i :| 0 <= i < |tags[1..]| && tags[1..][i].name == name && tags[1..][i].color == r.value
          && forall j :: 0 <= j < i ==> tags[1..][j].name != name;
        assert tags[i + 1].name == name && tags[i + 1].color == r.value;
        assert forall j :: 1 <= j < i + 1 ==> tags[j].name != name by {
          forall j | 1 <= j < i + 1 ensures tags[j].name != name {
            assert tags[j] == tags[1..][j - 1];
          }
        }
        r
      else r
  }

  /** Entries after the first match never matter; before any match, the
      result comes from the later entries. */
  lemma {:induction false} GetTagColorAppend(name: String, a: seq<TagInfo>, b: seq<TagInfo>)
    ensures GetTagColor(name, a).Some? ==> GetTagColor(name, a + b) == GetTagColor(name, a)
    ensures GetTagColor(name, a).None? ==> GetTagColor(name, a + b) == GetTagColor(name, b)
    decreases |a|
  {
    if a != [] {
      assert (a + b)[0] == a[0];
      assert (a + b)[1..] == a[1..] + b;
      GetTagColorAppend(name, a[1..], b);
    } else {
      assert a + b == b;
    }
  }

  const HighIcon: String := "\U{1F534}"
  const MediumIcon: String := "\U{1F7E1}"
  const LowIcon: String := "\U{1F7E2}"
  const UnknownPriorityIcon: String := "\U{26AB}"

  /** `getPriorityIcon(priority)`. */
  function PriorityIcon(priority: String): (icon: String)
    ensures icon == UnknownPriorityIcon <==> priority != "high" && priority != "medium" && priority != "low"
  {
    if priority == "high" then HighIcon
    else if priority == "medium" then MediumIcon
    else if priority == "low" then LowIcon
    else UnknownPriorityIcon
  }

  /** The icons tell the three priorities apart, and a priority gets its own
      icon exactly when the board can rank it. */
  lemma PriorityIconsMatchRanks(p: String, q: String)
    ensures PriorityIcon(p) != UnknownPriorityIcon <==> PriorityRank(p).Some?
    ensures PriorityRank(p).Some? && PriorityRank(q).Some? ==>
      (PriorityIcon(p) == PriorityIcon(q) <==> p == q)
  {
  }

  /** `getPriorityClass(priority)`. */
  function PriorityClass(priority: String): (c: String)
    ensures StartsWith(c, "priority-") && c[9..] == priority
  {
    "priority-" + priority
  }

  /** Different priorities get different classes. */
  lemma PriorityClassInjective(p: String, q: String)
    requires PriorityClass(p) == PriorityClass(q)
    ensures p == q
  {
    assert PriorityClass(p)[9..] == p && PriorityClass(q)[9..] == q;
  }

  // ---------------------------------------------------------------------------
  // Views and theme
  // ---------------------------------------------------------------------------

  /** `location.hash.substring(1)`. */
  function HashName(hash: String): (name: String)
    ensures |hash| > 0 ==> name == hash[1..]
    ensures |hash| == 0 ==> name == []
  {
    if |hash| == 0 then [] else hash[1..]
  }

  /** `getCurrentView()`: the hash without its `#`, or the dashboard. */
  function CurrentView(hash: String): (view: String)
    ensures view != []
    ensures HashName(hash) != [] ==> view == HashName(hash)
  {
    var name := HashName(hash);
    if name == [] then "dashboard" else name
  }

  /** The hash written for a view reads back as that view. */
  lemma CurrentViewOfHash(view: String)
    requires view != []
    ensures CurrentView("#" + view) == view
  {
    assert ("#" + view)[1..] == view;
  }

  /** `toggleTheme()`: dark becomes light and anything else dark. */
  function ToggledTheme(theme: String): (t: String)
    ensures t == "light" <==> theme == "dark"
    ensures t == "dark" || t == "light"
  {
    if theme == "dark" then "light" else "dark"
  }

  /** On the two themes the toggle is its own inverse. */
  lemma ToggleThemeTwice(theme: String)
    requires theme == "dark" || theme == "light"
    ensures ToggledTheme(ToggledTheme(theme)) == theme
  {
  }
}
