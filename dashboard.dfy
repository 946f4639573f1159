/** The dashboard (public/js/dashboard.js): the headline counts, the
    completed-this-week count, the completion toggle, the order of upcoming
    deadlines, the activity icons and which sections appear. The `/today`
    answer and the loaded task list are parameters. */
module Dashboard {
  import opened Optionals
  import opened Strings
  import opened Sorting
  import opened Dates
  import opened TaskStore

  /** The `/today` answer; a list the answer lacks is `None`. */
  datatype TodayData = TodayData(
    todayTasks: Option<seq<Task>>,
    overdueTasks: Option<seq<Task>>,
    upcomingTasks: Option<seq<Task>>)

  datatype Stats = Stats(
    todayCount: nat,
    overdueCount: nat,
    upcomingCount: nat,
    inProgressCount: nat,
    completedThisWeek: nat,
    totalTasks: nat)

  /** `list?.length || 0`. */
  function LengthOrZero(list: Option<seq<Task>>): nat {
    if list.Some? then |list.value| else 0
  }

  function InColumn(column: String): Task -> bool {
    (t: Task) => t.column == column
  }

  // ---------------------------------------------------------------------------
  // Completed this week
  // ---------------------------------------------------------------------------

  const WeekMs: int := 7 * DayMs

  /** Done and last changed strictly after `since`. */
  predicate DoneSince(t: Task, since: int) {
    t.column == "Done" && t.updatedAt > since
  }

  function CompletedAfter(since: int): Task -> bool {
    (t: Task) => DoneSince(t, since)
  }

  /** `getCompletedThisWeek(tasks)` at time `now`: the tasks in 'Done' whose
      last change is less than a week old. */
  function CompletedThisWeek(tasks: seq<Task>, now: int): (n: nat)
    ensures n <= |Filter(tasks, InColumn("Done"))|
  {
    FilterNarrower(tasks, InColumn("Done"), CompletedAfter(now - WeekMs));
    |Filter(tasks, CompletedAfter(now - WeekMs))|
  }

  /** The count adds up over a split of the list. */
  lemma CompletedThisWeekAppend(a: seq<Task>, b: seq<Task>, now: int)
    ensures CompletedThisWeek(a + b, now) == CompletedThisWeek(a, now) + CompletedThisWeek(b, now)
  {
    FilterAppend(a, b, CompletedAfter(now - WeekMs));
  }

  /** A task counts exactly when it is in 'Done' with a change in the last
      seven days. */
  lemma CompletedThisWeekSingle(t: Task, now: int)
    ensures CompletedThisWeek([t], now) == (if t.column == "Done" && t.updatedAt > now - WeekMs then 1 else 0)
  {
    assert [t][1..] == [];
  }

  // ---------------------------------------------------------------------------
  // In progress
  // ---------------------------------------------------------------------------

  /** The number of tasks in 'In Progress'. */
  function InProgressCount(tasks: seq<Task>): (n: nat)
    ensures n <= |tasks|
  {
    |Filter(tasks, InColumn("In Progress"))|
  }

  /** The count adds up over a split of the list. */
  lemma InProgressCountAppend(a: seq<Task>, b: seq<Task>)
    ensures InProgressCount(a + b) == InProgressCount(a) + InProgressCount(b)
  {
    FilterAppend(a, b, InColumn("In Progress"));
  }

  /** A task counts exactly when it is in 'In Progress'. */
  lemma InProgressCountSingle(t: Task)
    ensures InProgressCount([t]) == (if t.column == "In Progress" then 1 else 0)
  {
    assert [t][1..] == [];
  }

  /** Two tests no task passes together keep at most the whole list between
      them. */
  lemma {:induction false} DisjointFilters(s: seq<Task>, p: Task -> bool, q: Task -> bool)
    requires forall i :: 0 <= i < |s| ==> !(p(s[i]) && q(s[i]))
    ensures |Filter(s, p)| + |Filter(s, q)| <= |s|
  {
    if s != [] {
      DisjointFilters(s[1..], p, q);
    }
  }

  // ---------------------------------------------------------------------------
  // Stats
  // ---------------------------------------------------------------------------

  /** `calculateStats()`: `data` is the dashboard's `/today` answer (`None`
      before it arrives) and `allTasks` the loaded task list (`None` when
      nothing is loaded). */
  function CalculateStats(data: Option<TodayData>, allTasks: Option<seq<Task>>, now: int): (s: Stats)
    ensures data.None? ==> s.todayCount == 0 && s.overdueCount == 0 && s.upcomingCount == 0
    ensures data.Some? ==>
      && s.todayCount == LengthOrZero(data.value.todayTasks)
      && s.overdueCount == LengthOrZero(data.value.overdueTasks)
      && s.upcomingCount == LengthOrZero(data.value.upcomingTasks)
    ensures allTasks.None? ==> s.inProgressCount == 0 && s.completedThisWeek == 0 && s.totalTasks == 0
    ensures allTasks.Some? ==>
      && s.inProgressCount == InProgressCount(allTasks.value)
      && s.completedThisWeek == CompletedThisWeek(allTasks.value, now)
      && s.totalTasks == |allTasks.value|
    ensures s.inProgressCount + s.completedThisWeek <= s.totalTasks
  {
    var tasks := allTasks.GetOr([]);
    var today := if data.Some? then data.value else TodayData(None, None, None);
    StatsWithinTotal(tasks, now);
    Stats(
      LengthOrZero(today.todayTasks),
      LengthOrZero(today.overdueTasks),
      LengthOrZero(today.upcomingTasks),
      InProgressCount(tasks),
      CompletedThisWeek(tasks, now),
      |tasks|)
  }

  /** A task is never both in progress and completed, so the two counts fit
      in the total. */
  lemma StatsWithinTotal(tasks: seq<Task>, now: int)
    ensures InProgressCount(tasks) + CompletedThisWeek(tasks, now) <= |tasks|
  {
    DisjointFilters(tasks, InColumn("In Progress"), CompletedAfter(now - WeekMs));
  }

  /** The counts of the loaded tasks, task by task: each task adds one to the
      total, one to the in-progress count exactly when it is in 'In Progress',
      and one to the completed count exactly when it is done with a change
      this week. */
  lemma StatsCountTasks(data: Option<TodayData>, t: Task, tasks: seq<Task>, now: int)
    ensures var s := CalculateStats(data, Some([t] + tasks), now);
      var s' := CalculateStats(data, Some(tasks), now);
      && s.totalTasks == s'.totalTasks + 1
      && s.inProgressCount == s'.inProgressCount + (if t.column == "In Progress" then 1 else 0)
      && s.completedThisWeek == s'.completedThisWeek + (if DoneSince(t, now - WeekMs) then 1 else 0)
  {
    InProgressCountAppend([t], tasks);
    InProgressCountSingle(t);
    CompletedThisWeekAppend([t], tasks, now);
    CompletedThisWeekSingle(t, now);
  }

  /** The in-progress count is positive exactly when some task is in
      progress. */
  lemma InProgressPositive(tasks: seq<Task>)
    ensures InProgressCount(tasks) > 0 <==> exists u :: u in tasks && u.column == "In Progress"
  {
    var inProgress := Filter(tasks, InColumn("In Progress"));
    if inProgress != [] {
      assert inProgress[0] in tasks && inProgress[0].column == "In Progress";
    }
    forall u | u in tasks && u.column == "In Progress" ensures |inProgress| > 0 {
      var k :| 0 <= k < |tasks| && tasks[k] == u;
      assert tasks[k] in inProgress;
    }
  }

  // ---------------------------------------------------------------------------
  // Completion toggle
  // ---------------------------------------------------------------------------

  /** The column the checkbox moves a task to. */
  function ToggledColumn(column: String): (c: String)
    ensures c == "Done" <==> column != "Done"
    ensures c == "Done" || c == "To Do"
  {
    if column == "Done" then "To Do" else "Done"
  }

  /** `toggleTaskComplete(id)`: the update request it sends, as the id
      and its new column, or `None` when no loaded task has the id. */
  function ToggleRequest(tasks: seq<Task>, id: int): (r: Option<(int, String)>)
    ensures r.None? <==> forall j :: 0 <= j < |tasks| ==> tasks[j].id != id
    ensures r.Some? ==>
      && r.value.0 == id
      && exists j :: 0 <= j < |tasks| && tasks[j].id == id && r.value.1 == ToggledColumn(tasks[j].column)
           && forall k :: 0 <= k < j ==> tasks[k].id != id
  {
    match FindIndex(tasks, id)
    case None => None
    case Some(j) => Some((id, ToggledColumn(tasks[j].column)))
  }

  /** The update body of the request. */
  function ToggleBody(column: String): TaskBody {
    EmptyBody.(column := Some(column))
  }

  /** Applied by the server at time `now`, the request moves that task across
      the Done line: a task that was not done now counts as completed this
      week, and a done one no longer does. */
  lemma ToggleCrossesDone(t: Task, now: int)
    ensures var u := Merge(t, ToggleBody(ToggledColumn(t.column)), now);
      && (t.column != "Done" ==> DoneSince(u, now - WeekMs))
      && (t.column == "Done" ==> u.column == "To Do" && !DoneSince(u, now - WeekMs))
      && u.id == t.id && u.title == t.title && u.dueDate == t.dueDate
  {
  }

  /** Two clicks bring a task in 'Done' or 'To Do' back to its column. */
  lemma ToggleTwiceRestores(column: String)
    requires column == "Done" || column == "To Do"
    ensures ToggledColumn(ToggledColumn(column)) == column
  {
  }

  // ---------------------------------------------------------------------------
  // Upcoming deadlines
  // ---------------------------------------------------------------------------

  /** `new Date(task.dueDate)` as a day number: a `null` due date is the
      epoch, day 0. */
  function DueDay(t: Task): int {
    match t.dueDate
    case None => 0
    case Some(d) => d
  }

  predicate DueLe(a: Task, b: Task) {
    DueDay(a) - DueDay(b) <= 0
  }

  function DueOrder(): (Task, Task) -> bool {
    (a: Task, b: Task) => DueLe(a, b)
  }

  /** `renderUpcomingTasks()`: the upcoming tasks in the order they are
      listed. */
  function UpcomingOrder(tasks: seq<Task>): (r: seq<Task>)
    ensures multiset(r) == multiset(tasks)
  {
    Sort(tasks, DueOrder())
  }

  /** The upcoming list runs from the earliest due date to the latest. */
  lemma UpcomingAscending(tasks: seq<Task>)
    ensures var r := UpcomingOrder(tasks);
      forall i, j :: 0 <= i < j < |r| ==> DueDay(r[i]) <= DueDay(r[j])
  {
    var le := DueOrder();
    DueOrderFacts(tasks);
    SortSorted(tasks, le);
    var r := UpcomingOrder(tasks);
    DueOrderFacts(r);
    SortedPairs(r, le);
  }

  lemma DueOrderFacts(s: seq<Task>)
    ensures TotalOn(s, DueOrder()) && TransitiveOn(s, DueOrder())
  {
  }

  /** A list already in date order is listed as it is. */
  lemma UpcomingOfSorted(tasks: seq<Task>)
    requires forall i :: 0 <= i < |tasks| - 1 ==> DueDay(tasks[i]) <= DueDay(tasks[i + 1])
    ensures UpcomingOrder(tasks) == tasks
  {
    assert SortedBy(tasks, DueOrder()) by {
      forall i, j | 0 <= i < |tasks| && 0 <= j < |tasks| && j == i + 1
        ensures DueOrder()(tasks[i], tasks[j])
      {
        assert DueDay(tasks[i]) <= DueDay(tasks[i + 1]);
      }
    }
    SortOfSorted(tasks, DueOrder());
  }

  // ---------------------------------------------------------------------------
  // Activity icons and sections
  // ---------------------------------------------------------------------------

  /** The activity types `getActivityIcon` has an icon for. */
  const KnownActivities: set<String> := {
    "task_created", "task_updated", "task_moved", "task_completed", "task_deleted",
    "note_created", "note_updated", "note_deleted",
    "link_created", "link_updated", "link_deleted", "comment_added"}

  const DefaultIcon: String := "\U{1F4CC}"
  const TrashIcon: String := "\U{1F5D1}\U{FE0F}"

  /** `getActivityIcon(type)`: the table's icon, or the pin for any other
      type. Every deletion shows the wastebasket. */
  function ActivityIcon(activityType: String): (icon: String)
    ensures icon == DefaultIcon <==> activityType !in KnownActivities
    ensures activityType in {"task_deleted", "note_deleted", "link_deleted"} ==> icon == TrashIcon
  {
    if activityType == "task_created" then "\U{2705}"
    else if activityType == "task_updated" then "\U{1F4DD}"
    else if activityType == "task_moved" then "\U{27A1}\U{FE0F}"
    else if activityType == "task_completed" then "\U{1F389}"
    else if activityType == "task_deleted" then TrashIcon
    else if activityType == "note_created" then "\U{1F4DD}"
    else if activityType == "note_updated" then "\U{270F}\U{FE0F}"
    else if activityType == "note_deleted" then TrashIcon
    else if activityType == "link_created" then "\U{1F517}"
    else if activityType == "link_updated" then "\U{1F517}"
    else if activityType == "link_deleted" then TrashIcon
    else if activityType == "comment_added" then "\U{1F4AC}"
    else DefaultIcon
  }

  datatype Section = TodaySection | OverdueSection | UpcomingSection | ActivitySection

  /** The sections of the dashboard, in page order. */
  function Sections(s: Stats): (r: seq<Section>)
    ensures OverdueSection in r <==> s.overdueCount > 0
    ensures 3 <= |r| <= 4
    ensures r[0] == TodaySection && r[|r| - 2] == UpcomingSection && r[|r| - 1] == ActivitySection
  {
    [TodaySection] + (if s.overdueCount > 0 then [OverdueSection] else []) + [UpcomingSection, ActivitySection]
  }
}
