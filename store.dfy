/** The server's task document (server.js): columns, tasks, categories and
    the id counter, and the four task handlers that change it. The JSON file
    the server reads and rewrites around every request is the state of one
    in-memory `TaskDocument`; timestamps are integer milliseconds supplied by
    the caller, and due dates are day numbers (see `Dates`). */
module TaskStore {
  import opened Optionals
  import opened Strings
  import opened Sorting

  datatype Comment = Comment(text: Option<String>, author: String, createdAt: int)

  /** A stored task. `tags` is absent on tasks the server created, and is
      present only when an update supplied it. */
  datatype Task = Task(
    id: int,
    title: String,
    description: String,
    column: String,
    priority: String,
    category: String,
    assignee: String,
    dueDate: Option<int>,
    tags: Option<seq<String>>,
    comments: seq<Comment>,
    createdAt: int,
    updatedAt: int)

  /** A request body: `Some` for each field the body carries. A due date
      field can be present and `null`, hence the nested option. */
  datatype TaskBody = TaskBody(
    id: Option<int>,
    title: Option<String>,
    description: Option<String>,
    column: Option<String>,
    priority: Option<String>,
    category: Option<String>,
    assignee: Option<String>,
    dueDate: Option<Option<int>>,
    tags: Option<seq<String>>,
    comments: Option<seq<Comment>>,
    createdAt: Option<int>,
    updatedAt: Option<int>)

  const EmptyBody := TaskBody(None, None, None, None, None, None, None, None, None, None, None, None)

  /** The comment request body. */
  datatype CommentBody = CommentBody(text: Option<String>, author: Option<String>)

  /** The columns, categories and counter of a fresh document. */
  const InitialColumns: seq<String> := ["Backlog", "To Do", "In Progress", "Review", "Done"]
  const InitialCategories: seq<String> := ["ICON", "Capstone", "Personal", "Atticus Setup"]

  /** JavaScript `value || fallback` for a string field: an absent or empty
      string gives the fallback. */
  function OrElse(value: Option<String>, fallback: String): (r: String)
    ensures r == fallback || (value == Some(r) && r != [])
    ensures value.Some? && value.value != [] ==> r == value.value
  {
    if value.Some? && value.value != [] then value.value else fallback
  }

  /** The record the create handler builds from a body. */
  function NewTask(id: int, body: TaskBody, now: int): (t: Task)
    ensures t.id == id && t.comments == [] && t.tags.None?
    ensures t.createdAt == now && t.updatedAt == now
  {
    Task(
      id,
      OrElse(body.title, "Untitled"),
      OrElse(body.description, ""),
      OrElse(body.column, "Backlog"),
      OrElse(body.priority, "medium"),
      OrElse(body.category, "Personal"),
      OrElse(body.assignee, "Adam"),
      if body.dueDate.Some? then body.dueDate.value else None,
      None,
      [],
      now,
      now)
  }

  /** A body with no fields gives every default of the create handler. */
  lemma EmptyBodyDefaults(id: int, now: int)
    ensures NewTask(id, EmptyBody, now)
      == Task(id, "Untitled", "", "Backlog", "medium", "Personal", "Adam", None, None, [], now, now)
  {
  }

  /** A field the body carries non-empty is kept; a missing or empty one
      gets the fallback. */
  predicate KeptOrDefault(value: Option<String>, fallback: String, field: String) {
    && (value.Some? && value.value != [] ==> field == value.value)
    && (value.None? || value.value == [] ==> field == fallback)
  }

  /** The defaults apply exactly to the fields that are missing or empty,
      for each of the six `||` fields, and a missing or `null` due date is
      `null`. */
  lemma CreateKeepsGivenFields(id: int, body: TaskBody, now: int)
    ensures var t := NewTask(id, body, now);
      && (t.title == "Untitled" <==> body.title.None? || body.title.value == [] || body.title.value == "Untitled")
      && KeptOrDefault(body.title, "Untitled", t.title)
      && KeptOrDefault(body.description, "", t.description)
      && KeptOrDefault(body.column, "Backlog", t.column)
      && KeptOrDefault(body.priority, "medium", t.priority)
      && KeptOrDefault(body.category, "Personal", t.category)
      && KeptOrDefault(body.assignee, "Adam", t.assignee)
      && (body.dueDate.Some? ==> t.dueDate == body.dueDate.value)
      && (body.dueDate.None? ==> t.dueDate.None?)
  {
  }

  /** `{...task, ...body, updatedAt: now}`: every field the body carries
      replaces the stored one, the rest stay, and `updatedAt` is always `now`. */
  function Merge(t: Task, body: TaskBody, now: int): (r: Task)
    ensures r.updatedAt == now
    ensures body.id.None? ==> r.id == t.id
  {
    Task(
      body.id.GetOr(t.id),
      body.title.GetOr(t.title),
      body.description.GetOr(t.description),
      body.column.GetOr(t.column),
      body.priority.GetOr(t.priority),
      body.category.GetOr(t.category),
      body.assignee.GetOr(t.assignee),
      body.dueDate.GetOr(t.dueDate),
      if body.tags.Some? then body.tags else t.tags,
      body.comments.GetOr(t.comments),
      body.createdAt.GetOr(t.createdAt),
      now)
  }

  /** Merging the same body twice is merging it once. */
  lemma MergeIdempotent(t: Task, body: TaskBody, now: int)
    ensures Merge(Merge(t, body, now), body, now) == Merge(t, body, now)
  {
  }

  /** A body with no fields changes nothing but the stamp, and a body's own
      `updatedAt` is overridden by the server's clock. */
  lemma MergeOnlyRestamps(t: Task, stamp: Option<int>, now: int)
    ensures Merge(t, EmptyBody.(updatedAt := stamp), now) == t.(updatedAt := now)
  {
  }

  /** Each field of a merge comes from the body when the body has it and from
      the stored record otherwise. */
  lemma MergeFieldwise(t: Task, body: TaskBody, now: int)
    ensures var r := Merge(t, body, now);
      && (body.title.Some? ==> r.title == body.title.value) && (body.title.None? ==> r.title == t.title)
      && (body.column.Some? ==> r.column == body.column.value) && (body.column.None? ==> r.column == t.column)
      && (body.dueDate.Some? ==> r.dueDate == body.dueDate.value) && (body.dueDate.None? ==> r.dueDate == t.dueDate)
      && (body.comments.None? ==> r.comments == t.comments)
      && (body.createdAt.None? ==> r.createdAt == t.createdAt)
  {
  }

  /** `tasks.findIndex(t => t.id === id)` as an option. */
  function FindIndex(tasks: seq<Task>, id: int): (r: Option<nat>)
    ensures r.Some? ==> r.value < |tasks| && tasks[r.value].id == id
    ensures r.Some? ==> forall j :: 0 <= j < r.value ==> tasks[j].id != id
    ensures r.None? ==> forall j :: 0 <= j < |tasks| ==> tasks[j].id != id
  {
    if tasks == [] then None
    else if tasks[0].id == id then Some(0)
    else match FindIndex(tasks[1..], id)
      case None => None
      case Some(k) => Some(k + 1)
  }

  /** `tasks.filter(t => t.id !== id)`. */
  function RemoveById(tasks: seq<Task>, id: int): (r: seq<Task>)
    ensures forall j :: 0 <= j < |r| ==> r[j].id != id && r[j] in tasks
    ensures forall j :: 0 <= j < |tasks| && tasks[j].id != id ==> tasks[j] in r
  {
    Filter(tasks, (t: Task) => t.id != id)
  }

  /** Deleting an id that no task has leaves the list as it is. */
  lemma RemoveAbsentId(tasks: seq<Task>, id: int)
    requires FindIndex(tasks, id).None?
    ensures RemoveById(tasks, id) == tasks
  {
    FilterKeepAll(tasks, (t: Task) => t.id != id);
  }

  /** Ids strictly increase along the list, so they are distinct. */
  predicate IdsIncreasing(tasks: seq<Task>) {
    forall i, j :: 0 <= i < j < |tasks| ==> tasks[i].id < tasks[j].id
  }

  /** Deletion keeps the survivors in their order, so ids still increase. */
  lemma {:induction false} RemoveKeepsIdsIncreasing(tasks: seq<Task>, id: int)
    requires IdsIncreasing(tasks)
    ensures IdsIncreasing(RemoveById(tasks, id))
  {
    if tasks != [] {
      RemoveKeepsIdsIncreasing(tasks[1..], id);
      var rest := RemoveById(tasks[1..], id);
      if tasks[0].id != id {
        forall j | 0 <= j < |rest| ensures tasks[0].id < rest[j].id {
          AboveHead(tasks, rest[j]);
        }
        assert RemoveById(tasks, id) == [tasks[0]] + rest;
        IncreasingCons(tasks[0], rest);
      } else {
        assert RemoveById(tasks, id) == rest;
      }
    }
  }

  lemma AboveHead(tasks: seq<Task>, t: Task)
    requires IdsIncreasing(tasks) && tasks != [] && t in tasks[1..]
    ensures tasks[0].id < t.id
  {
    var k :| 0 <= k < |tasks[1..]| && tasks[1..][k] == t;
    assert tasks[k + 1] == t;
  }

  lemma IncreasingCons(x: Task, rest: seq<Task>)
    requires IdsIncreasing(rest)
    requires forall j :: 0 <= j < |rest| ==> x.id < rest[j].id
    ensures IdsIncreasing([x] + rest)
  {
    var s := [x] + rest;
    forall i, j | 0 <= i < j < |s| ensures s[i].id < s[j].id {
      assert s[j] == rest[j - 1];
      if i > 0 {
        assert s[i] == rest[i - 1];
      }
    }
  }

  class TaskDocument {
    var columns: seq<String>
    var tasks: seq<Task>
    var categories: seq<String>
    var nextId: int

    /** Ids are distinct and increasing, and all below the counter. */
    predicate Valid()
      reads this
    {
      IdsIncreasing(tasks) && forall i :: 0 <= i < |tasks| ==> tasks[i].id < nextId
    }

    /** The document the server writes when no data file exists. */
    constructor ()
      ensures columns == InitialColumns && tasks == [] && categories == InitialCategories
      ensures nextId == 1
      ensures Valid()
    {
      columns := InitialColumns;
      tasks := [];
      categories := InitialCategories;
      nextId := 1;
    }

    /** POST /api/tasks: the new task takes the counter's value as its id and
      goes at the end of the list. */
    method Create(body: TaskBody, now: int) returns (task: Task)
      modifies this
      ensures task == NewTask(old(nextId), body, now)
      ensures nextId == old(nextId) + 1
      ensures tasks == old(tasks) + [task]
      ensures columns == old(columns) && categories == old(categories)
      ensures old(Valid()) ==> Valid()
    {
      task := NewTask(nextId, body, now);
      nextId := nextId + 1;
      tasks := tasks + [task];
    }

    /** PUT /api/tasks/:id: `None` is the 404 reply, which leaves the
      document as it was. */
    method Update(id: int, body: TaskBody, now: int) returns (r: Option<Task>)
      modifies this
      ensures FindIndex(old(tasks), id).None? ==> r.None? && tasks == old(tasks)
      ensures FindIndex(old(tasks), id).Some? ==>
        var k := FindIndex(old(tasks), id).value;
        r == Some(Merge(old(tasks)[k], body, now)) && tasks == old(tasks)[k := r.value]
      ensures nextId == old(nextId) && columns == old(columns) && categories == old(categories)
      ensures old(Valid()) && body.id.None? ==> Valid()
    {
      match FindIndex(tasks, id)
      case None =>
        r := None;
      case Some(k) =>
        var merged := Merge(tasks[k], body, now);
        tasks := tasks[k := merged];
        r := Some(merged);
    }

    /** DELETE /api/tasks/:id: always reports success. */
    method Delete(id: int) returns (ok: bool)
      modifies this
      ensures ok
      ensures tasks == RemoveById(old(tasks), id)
      ensures nextId == old(nextId) && columns == old(columns) && categories == old(categories)
      ensures old(Valid()) ==> Valid()
    {
      if Valid() {
        RemoveKeepsIdsIncreasing(tasks, id);
      }
      tasks := RemoveById(tasks, id);
      ok := true;
    }

    /** POST /api/tasks/:id/comments: `None` is the 404 reply, which leaves
      the document as it was. */
    method AddComment(id: int, body: CommentBody, now: int) returns (r: Option<Comment>)
      modifies this
      ensures FindIndex(old(tasks), id).None? ==> r.None? && tasks == old(tasks)
      ensures FindIndex(old(tasks), id).Some? ==>
        var k := FindIndex(old(tasks), id).value;
        var t := old(tasks)[k];
        && r == Some(Comment(body.text, OrElse(body.author, "Adam"), now))
        && tasks == old(tasks)[k := t.(comments := t.comments + [r.value], updatedAt := now)]
      ensures nextId == old(nextId) && columns == old(columns) && categories == old(categories)
      ensures old(Valid()) ==> Valid()
    {
      match FindIndex(tasks, id)
      case None =>
        r := None;
      case Some(k) =>
        var comment := Comment(body.text, OrElse(body.author, "Adam"), now);
        var t := tasks[k];
        tasks := tasks[k := t.(comments := t.comments + [comment], updatedAt := now)];
        r := Some(comment);
    }
  }

  /** Two creates in a row on a valid document give two tasks with distinct,
      increasing ids, both at the end of the list. */
  method CreateTwice(doc: TaskDocument, a: TaskBody, b: TaskBody, now: int) returns (x: Task, y: Task)
    requires doc.Valid()
    modifies doc
    ensures x.id < y.id && y.id == x.id + 1
    ensures doc.tasks == old(doc.tasks) + [x, y]
    ensures doc.Valid()
  {
    x := doc.Create(a, now);
    y := doc.Create(b, now);
  }
}
