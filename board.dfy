/** The Kanban board's list logic (public/js/board.js): which tasks a column
    shows under the current filters, the four sort orders, column collapsing,
    the open-task total and the payload of "duplicate". */
module Board {
  import opened Optionals
  import opened Strings
  import opened Sorting
  import opened TaskStore

  /** The four filter selectors; `None` is `null`. */
  datatype Filters = Filters(category: Option<String>, assignee: Option<String>,
                             priority: Option<String>, tag: Option<String>)

  const NoFilters := Filters(None, None, None, None)

  datatype FilterField = CategoryField | AssigneeField | PriorityField | TagField

  /** A filter takes part when it holds a non-empty string (JavaScript truthiness). */
  predicate Active(f: Option<String>) {
    f.Some? && f.value != []
  }

  /** One task passes the column test and every active filter. */
  predicate Shown(t: Task, column: String, f: Filters) {
    && t.column == column
    && (Active(f.category) ==> t.category == f.category.value)
    && (Active(f.assignee) ==> t.assignee == f.assignee.value)
    && (Active(f.priority) ==> t.priority == f.priority.value)
    && (Active(f.tag) ==> t.tags.Some? && f.tag.value in t.tags.value)
  }

  function ShownIn(column: String, f: Filters): Task -> bool {
    (t: Task) => Shown(t, column, f)
  }

  /** `getFilteredTasks(column)`. */
  function FilteredTasks(tasks: seq<Task>, column: String, f: Filters): (r: seq<Task>)
    ensures forall i :: 0 <= i < |r| ==> r[i] in tasks && Shown(r[i], column, f)
    ensures forall i :: 0 <= i < |tasks| && Shown(tasks[i], column, f) ==> tasks[i] in r
  {
    Filter(tasks, ShownIn(column, f))
  }

  /** With no filter set, a column shows exactly its own tasks, in order. */
  lemma NoFiltersShowColumn(tasks: seq<Task>, column: String)
    ensures FilteredTasks(tasks, column, NoFilters) == Filter(tasks, (t: Task) => t.column == column)
  {
    FilterSameTest(tasks, ShownIn(column, NoFilters), (t: Task) => t.column == column);
  }

  lemma {:induction false} FilterSameTest<T>(s: seq<T>, f: T -> bool, g: T -> bool)
    requires forall i :: 0 <= i < |s| ==> f(s[i]) == g(s[i])
    ensures Filter(s, f) == Filter(s, g)
  {
    if s != [] {
      FilterSameTest(s[1..], f, g);
    }
  }

  /** Setting one more filter can only shrink a column. */
  lemma MoreFiltersShowFewer(tasks: seq<Task>, column: String, f: Filters, tag: String)
    ensures |FilteredTasks(tasks, column, f.(tag := Some(tag)))| <= |FilteredTasks(tasks, column, f.(tag := None))|
  {
    FilterNarrower(tasks, ShownIn(column, f.(tag := None)), ShownIn(column, f.(tag := Some(tag))));
  }

  // ---------------------------------------------------------------------------
  // sortTasks
  // ---------------------------------------------------------------------------

  /** `{high: 3, medium: 2, low: 1}[priority]`; `None` is `undefined`. */
  function PriorityRank(p: String): (r: Option<int>)
    ensures r.Some? <==> p == "high" || p == "medium" || p == "low"
    ensures r.Some? ==> 1 <= r.value <= 3
  {
    if p == "high" then Some(3) else if p == "medium" then Some(2) else if p == "low" then Some(1) else None
  }

  /** `cmp(a, b) <= 0` for the comparator `sortTasks` picks from `sortBy`. An
      unknown priority makes the difference `NaN`, which the sort treats as 0. */
  predicate TaskLe(sortBy: String, a: Task, b: Task): (r: bool)
    ensures sortBy == "priority" ==>
      var ra, rb := PriorityRank(a.priority), PriorityRank(b.priority);
      (ra.None? || rb.None? ==> r) && (ra.Some? && rb.Some? ==> (r <==> ra.value >= rb.value))
    ensures sortBy == "dueDate" && a.dueDate.None? && b.dueDate.Some? ==> !r
    ensures sortBy == "dueDate" && a.dueDate.Some? && b.dueDate.None? ==> r
    ensures sortBy !in ["priority", "dueDate", "title"] ==> (r <==> a.createdAt >= b.createdAt)
  {
    if sortBy == "priority" then
      var ra := PriorityRank(a.priority);
      var rb := PriorityRank(b.priority);
      ra.None? || rb.None? || rb.value - ra.value <= 0
    else if sortBy == "dueDate" then
      b.dueDate.None? || (a.dueDate.Some? && a.dueDate.value <= b.dueDate.value)
    else if sortBy == "title" then
      LexLe(a.title, b.title)
    else
      b.createdAt - a.createdAt <= 0
  }

  /** The comparator `sortTasks` picks from `sortBy`, as a `<=` test. */
  function TaskOrder(sortBy: String): (Task, Task) -> bool {
    (a: Task, b: Task) => TaskLe(sortBy, a, b)
  }

  /** `sortTasks(tasks)`: a sorted copy; the board's own list is not touched. */
  function SortTasks(tasks: seq<Task>, sortBy: String): (r: seq<Task>)
    ensures multiset(r) == multiset(tasks)
  {
    Sort(tasks, TaskOrder(sortBy))
  }

  /** Sorting by priority puts high before medium before low, when every
      priority is one of the three. */
  lemma SortByPriority(tasks: seq<Task>)
    requires forall i :: 0 <= i < |tasks| ==> PriorityRank(tasks[i].priority).Some?
    ensures var r := SortTasks(tasks, "priority");
      forall i, j :: 0 <= i < j < |r| ==>
        PriorityRank(r[i].priority).GetOr(0) >= PriorityRank(r[j].priority).GetOr(0)
  {
    var le := TaskOrder("priority");
    var r := SortTasks(tasks, "priority");
    PriorityOrderTotal(tasks);
    SortSorted(tasks, le);
    forall i | 0 <= i < |r| ensures PriorityRank(r[i].priority).Some? {
      assert r[i] in multiset(tasks);
    }
    PriorityOrderTransitive(r);
    SortedPairs(r, le);
  }

  lemma PriorityOrderTotal(s: seq<Task>)
    ensures TotalOn(s, TaskOrder("priority"))
  {
  }

  lemma PriorityOrderTransitive(s: seq<Task>)
    requires forall i :: 0 <= i < |s| ==> PriorityRank(s[i].priority).Some?
    ensures TransitiveOn(s, TaskOrder("priority"))
  {
  }

  /** Sorting by due date lists dated tasks earliest first and every undated
      task after every dated one. */
  lemma SortByDueDate(tasks: seq<Task>)
    ensures var r := SortTasks(tasks, "dueDate");
      && (forall i, j :: 0 <= i < j < |r| && r[i].dueDate.None? ==> r[j].dueDate.None?)
      && (forall i, j :: 0 <= i < j < |r| && r[j].dueDate.Some? ==> r[i].dueDate.value <= r[j].dueDate.value)
  {
    var le := TaskOrder("dueDate");
    DueOrderFacts(tasks);
    SortSorted(tasks, le);
    var r := SortTasks(tasks, "dueDate");
    DueOrderFacts(r);
    SortedPairs(r, le);
  }

  lemma DueOrderFacts(s: seq<Task>)
    ensures TotalOn(s, TaskOrder("dueDate")) && TransitiveOn(s, TaskOrder("dueDate"))
  {
  }

  /** The default order is newest first. */
  lemma SortByCreated(tasks: seq<Task>, sortBy: String)
    requires sortBy != "priority" && sortBy != "dueDate" && sortBy != "title"
    ensures var r := SortTasks(tasks, sortBy);
      forall i, j :: 0 <= i < j < |r| ==> r[i].createdAt >= r[j].createdAt
  {
    var le := TaskOrder(sortBy);
    SortSorted(tasks, le);
    SortedPairs(SortTasks(tasks, sortBy), le);
  }

  /** Sorting by title orders titles by code units. */
  lemma SortByTitle(tasks: seq<Task>)
    ensures var r := SortTasks(tasks, "title");
      forall i, j :: 0 <= i < j < |r| ==> LexLe(r[i].title, r[j].title)
  {
    var le := TaskOrder("title");
    TitleOrderTotal(tasks);
    SortSorted(tasks, le);
    var r := SortTasks(tasks, "title");
    TitleOrderTransitive(r);
    SortedPairs(r, le);
  }

  lemma TitleOrderTotal(s: seq<Task>)
    ensures TotalOn(s, TaskOrder("title"))
  {
    forall i, j | 0 <= i < |s| && 0 <= j < |s|
      ensures TaskOrder("title")(s[i], s[j]) || TaskOrder("title")(s[j], s[i])
    {
      LexLeTotal(s[i].title, s[j].title);
    }
  }

  lemma TitleOrderTransitive(s: seq<Task>)
    ensures TransitiveOn(s, TaskOrder("title"))
  {
    var le := TaskOrder("title");
    forall i, j, k |
      0 <= i < |s| && 0 <= j < |s| && 0 <= k < |s| && le(s[i], s[j]) && le(s[j], s[k])
      ensures le(s[i], s[k])
    {
      LexLeTransitive(s[i].title, s[j].title, s[k].title);
    }
  }

  // ---------------------------------------------------------------------------
  // Collapsed columns, total, duplicate
  // ---------------------------------------------------------------------------

  /** `xs.indexOf(x)` as an option. */
  function IndexOf(xs: seq<String>, x: String): (r: Option<nat>)
    ensures r.Some? ==> r.value < |xs| && xs[r.value] == x && x !in xs[..r.value]
    ensures r.None? <==> x !in xs
  {
    if xs == [] then None
    else if xs[0] == x then Some(0)
    else match IndexOf(xs[1..], x)
      case None => None
      case Some(k) =>
        assert xs[..k + 1] == [xs[0]] + xs[1..][..k];
        Some(k + 1)
  }

  /** The collapsed list after `toggleColumn(name)`. */
  function Toggled(xs: seq<String>, name: String): (r: seq<String>)
    ensures name in r <==> name !in xs || multiset(xs)[name] > 1
    ensures forall y :: y != name ==> (y in r <==> y in xs)
  {
    match IndexOf(xs, name)
    case None => xs + [name]
    case Some(k) =>
      assert xs == xs[..k] + [name] + xs[k + 1..];
      assert multiset(xs) == multiset(xs[..k]) + multiset{name} + multiset(xs[k + 1..]);
      xs[..k] + xs[k + 1..]
  }

  predicate NoDuplicates(xs: seq<String>) {
    forall i, j :: 0 <= i < j < |xs| ==> xs[i] != xs[j]
  }

  lemma NoDuplicatesCount(xs: seq<String>, y: String)
    requires NoDuplicates(xs)
    ensures multiset(xs)[y] <= 1
  {
    if xs != [] {
      assert xs == [xs[0]] + xs[1..];
      NoDuplicatesCount(xs[1..], y);
      if xs[0] == y {
        assert y !in xs[1..];
      }
    }
  }

  /** Toggling keeps the list free of duplicates and flips the column's
      membership. */
  lemma ToggleFlips(xs: seq<String>, name: String)
    requires NoDuplicates(xs)
    ensures NoDuplicates(Toggled(xs, name))
    ensures name in Toggled(xs, name) <==> name !in xs
  {
    NoDuplicatesCount(xs, name);
    var r := Toggled(xs, name);
    match IndexOf(xs, name)
    case None =>
    case Some(k) =>
      forall i, j | 0 <= i < j < |r| ensures r[i] != r[j] {
        var i' := if i < k then i else i + 1;
        var j' := if j < k then j else j + 1;
        assert r[i] == xs[i'] && r[j] == xs[j'];
      }
  }

  /** Toggling twice restores the set of collapsed columns; when the column
      was not collapsed, it restores the list itself. */
  lemma ToggleTwice(xs: seq<String>, name: String)
    requires NoDuplicates(xs)
    ensures forall y :: y in Toggled(Toggled(xs, name), name) <==> y in xs
    ensures name !in xs ==> Toggled(Toggled(xs, name), name) == xs
  {
    ToggleFlips(xs, name);
    ToggleFlips(Toggled(xs, name), name);
    NoDuplicatesCount(Toggled(xs, name), name);
    if name !in xs {
      var once := xs + [name];
      assert IndexOf(once, name) == Some(|xs|);
      assert once[..|xs|] + once[|xs| + 1..] == xs;
    }
  }

  /** `getTotalTasks()`: the tasks not in 'Done'. */
  function TotalTasks(tasks: seq<Task>): (n: nat)
    ensures n <= |tasks|
  {
    |Filter(tasks, (t: Task) => t.column != "Done")|
  }

  /** The open total and the 'Done' count add up to all tasks. */
  lemma TotalTasksPartition(tasks: seq<Task>)
    ensures TotalTasks(tasks) + |Filter(tasks, (t: Task) => t.column == "Done")| == |tasks|
  {
    var open := (t: Task) => t.column != "Done";
    FilterPartition(tasks, open, (t: Task) => t.column == "Done");
  }

  /** The body `duplicateTask` posts: the original's fields, a " (Copy)" title,
      no comments, and no id or timestamps (undefined fields are not sent). */
  function DuplicateBody(t: Task): (b: TaskBody)
    ensures b.id.None? && b.createdAt.None? && b.updatedAt.None?
    ensures b.comments == Some([])
    ensures b.title == Some(t.title + " (Copy)")
  {
    TaskBody(
      None,
      Some(t.title + " (Copy)"),
      Some(t.description),
      Some(t.column),
      Some(t.priority),
      Some(t.category),
      Some(t.assignee),
      Some(t.dueDate),
      t.tags,
      Some([]),
      None,
      None)
  }

  /** What the server makes of a duplicate: a new id and stamps, the copied
      title, no comments, and the original's other fields (an empty one
      falls back to the server's default); the tags are lost. */
  lemma DuplicateCreates(t: Task, id: int, now: int)
    ensures var d := NewTask(id, DuplicateBody(t), now);
      && d.id == id && d.createdAt == now && d.updatedAt == now
      && d.title == t.title + " (Copy)"
      && d.comments == [] && d.tags.None?
      && d.dueDate == t.dueDate
      && (t.column != [] ==> d.column == t.column)
      && (t.assignee != [] ==> d.assignee == t.assignee)
  {
    assert t.title + " (Copy)" != [];
  }

  /** The board's view state. */
  class KanbanBoard {
    var filters: Filters
    var sortBy: String
    var collapsedColumns: seq<String>

    /** `collapsed` is what local storage held under 'collapsed-columns'. */
    constructor (collapsed: seq<String>)
      ensures filters == NoFilters && sortBy == "created" && collapsedColumns == collapsed
    {
      filters := NoFilters;
      sortBy := "created";
      collapsedColumns := collapsed;
    }

    /** A filter selector's change handler: `value || null`. */
    method SetFilter(field: FilterField, value: String)
      modifies this
      ensures var v := if value == [] then None else Some(value);
        filters == match field
          case CategoryField => old(filters).(category := v)
          case AssigneeField => old(filters).(assignee := v)
          case PriorityField => old(filters).(priority := v)
          case TagField => old(filters).(tag := v)
      ensures sortBy == old(sortBy) && collapsedColumns == old(collapsedColumns)
    {
      var v := if value == [] then None else Some(value);
      match field
      case CategoryField => filters := filters.(category := v);
      case AssigneeField => filters := filters.(assignee := v);
      case PriorityField => filters := filters.(priority := v);
      case TagField => filters := filters.(tag := v);
    }

    method SetSortBy(value: String)
      modifies this
      ensures sortBy == value
      ensures filters == old(filters) && collapsedColumns == old(collapsedColumns)
    {
      sortBy := value;
    }

    method ClearFilters()
      modifies this
      ensures filters == NoFilters
      ensures sortBy == old(sortBy) && collapsedColumns == old(collapsedColumns)
    {
      filters := NoFilters;
    }

    /** `toggleColumn(name)`: splice out the first occurrence, or push. */
    method ToggleColumn(name: String)
      modifies this
      ensures collapsedColumns == Toggled(old(collapsedColumns), name)
      ensures NoDuplicates(old(collapsedColumns)) ==>
        NoDuplicates(collapsedColumns) && (name in collapsedColumns <==> name !in old(collapsedColumns))
      ensures filters == old(filters) && sortBy == old(sortBy)
    {
      if NoDuplicates(collapsedColumns) {
        ToggleFlips(collapsedColumns, name);
      }
      var index := IndexOf(collapsedColumns, name);
      if index.Some? {
        collapsedColumns := collapsedColumns[..index.value] + collapsedColumns[index.value + 1..];
      } else {
        collapsedColumns := collapsedColumns + [name];
      }
    }
  }
}
