/**
 * The tasks controller (src/controller/tasks.controller.ts) over an
 * in-memory task table: list by date, create with a unique title, update
 * and delete by id (a 400 when no row is affected), and get by id.
 */
module Tasks {
  import opened Wrappers
  import opened Tables
  import opened Response

  /** A row of the tasks table (src/entity/tasks.entity.ts); dates are day numbers. */
  datatype Task = Task(id: nat, title: string, date: int, description: string, priority: string, status: string)

  /** The request body of an update: the columns it sets. */
  datatype TaskPatch = TaskPatch(
    title: Option<string>,
    date: Option<int>,
    description: Option<string>,
    priority: Option<string>,
    status: Option<string>)

  predicate PatchIsEmpty(p: TaskPatch) {
    p.title.None? && p.date.None? && p.description.None? && p.priority.None? && p.status.None?
  }

  /** The row after `update`: each column the patch sets takes the new value, the others keep theirs. */
  function Patched(t: Task, p: TaskPatch): (r: Task)
    ensures r.id == t.id
    ensures r.title == p.title.GetOr(t.title) && r.date == p.date.GetOr(t.date)
    ensures r.description == p.description.GetOr(t.description)
    ensures r.priority == p.priority.GetOr(t.priority) && r.status == p.status.GetOr(t.status)
  {
    Task(t.id, p.title.GetOr(t.title), p.date.GetOr(t.date), p.description.GetOr(t.description),
         p.priority.GetOr(t.priority), p.status.GetOr(t.status))
  }

  predicate SortedByDate(s: seq<Task>) {
    forall i, j :: 0 <= i < j < |s| ==> s[i].date <= s[j].date
  }

  predicate TitlesUnique(s: seq<Task>) {
    forall i, j :: 0 <= i < j < |s| ==> s[i].title != s[j].title
  }

  /** Inserts `t` into a list, after every leading row with the same or an earlier date. */
  function InsertByDate(t: Task, s: seq<Task>): (r: seq<Task>)
    ensures multiset(r) == multiset(s) + multiset{t}
    ensures |r| == |s| + 1
  {
    if s == [] then [t]
    else if t.date < s[0].date then [t] + s
    else
      assert s == [s[0]] + s[1..];
      [s[0]] + InsertByDate(t, s[1..])
  }

  /** Inserting above a lower bound of every date keeps it a lower bound. */
  lemma {:induction false} InsertByDateBound(t: Task, s: seq<Task>, d: int)
    requires forall k :: 0 <= k < |s| ==> d <= s[k].date
    requires d <= t.date
    ensures forall k :: 0 <= k < |InsertByDate(t, s)| ==> d <= InsertByDate(t, s)[k].date
  {
    if s != [] && t.date >= s[0].date {
      InsertByDateBound(t, s[1..], d);
    }
  }

  /** Inserting into a date-sorted list keeps it sorted. */
  lemma {:induction false} InsertByDateSorted(t: Task, s: seq<Task>)
    requires SortedByDate(s)
    ensures SortedByDate(InsertByDate(t, s))
  {
    if s != [] && t.date >= s[0].date {
      InsertByDateSorted(t, s[1..]);
      InsertByDateBound(t, s[1..], s[0].date);
    }
  }

  /** The rows ordered by date ascending (`order: { date: 'ASC' }`); rows of one date keep table order. */
  function SortByDate(s: seq<Task>): (r: seq<Task>)
    ensures SortedByDate(r)
    ensures multiset(r) == multiset(s)
    ensures |r| == |s|
  {
    if s == [] then []
    else
      var sorted := SortByDate(s[..|s| - 1]);
      InsertByDateSorted(s[|s| - 1], sorted);
      assert s == s[..|s| - 1] + [s[|s| - 1]];
      InsertByDate(s[|s| - 1], sorted)
  }

  /** A handler's reply: the HTTP status, the message and the row in `data`. */
  datatype TaskReply = TaskReply(httpStatus: int, message: string, task: Option<Task>)

  const DuplicateTitle := NewAppError("Task already exists with that title", 400)
  const NoSuchTaskToUpdate := NewAppError("Invalid task id  or task does not exist", 400)
  const NoSuchTask := NewAppError("Invalid task id or task does not exist", 400)
  /** TypeORM's `UpdateValuesMissingError`, thrown for an update that sets no column. */
  const UpdateValuesMissing := Other("Cannot perform update query because update values are not defined. Call \"qb.set(...)\" method to specify updated values.", None)

  function HasTitle(title: string): Task -> bool {
    (t: Task) => t.title == title
  }

  function HasId(id: nat): Task -> bool {
    (t: Task) => t.id == id
  }

  /** Replacing one row of a table with titles unique can repeat a title: update does not re-check. */
  lemma UpdateCanRepeatTitle()
    ensures var before := [Task(0, "a", 1, "x", "high", "todo"), Task(1, "b", 2, "y", "low", "todo")];
      var after := before[1 := Patched(before[1], TaskPatch(Some("a"), None, None, None, None))];
      TitlesUnique(before) && !TitlesUnique(after)
  {
    var before := [Task(0, "a", 1, "x", "high", "todo"), Task(1, "b", 2, "y", "low", "todo")];
    var after := before[1 := Patched(before[1], TaskPatch(Some("a"), None, None, None, None))];
    assert after[0].title == after[1].title;
  }

  /** Removing a row keeps titles unique. */
  lemma RemoveKeepsTitlesUnique(s: seq<Task>, i: nat)
    requires i < |s| && TitlesUnique(s)
    ensures TitlesUnique(RemoveAt(s, i))
  {
    var r := RemoveAt(s, i);
    forall a, b | 0 <= a < b < |r| ensures r[a].title != r[b].title {
      var a' := if a < i then a else a + 1;
      var b' := if b < i then b else b + 1;
      assert r[a] == s[a'] && r[b] == s[b'];
    }
  }

  class TasksController {
    var tasks: seq<Task>
    var nextId: nat

    /** Ids are distinct and below the next id to hand out. */
    ghost predicate Valid()
      reads this
    {
      && (forall i :: 0 <= i < |tasks| ==> tasks[i].id < nextId)
      && (forall i, j :: 0 <= i < j < |tasks| ==> tasks[i].id != tasks[j].id)
    }

    constructor ()
      ensures Valid() && tasks == []
    {
      tasks := [];
      nextId := 0;
    }

    /** `getAllTasks`: every task, ordered by date ascending, with status 200. */
    method GetAllTasks() returns (httpStatus: int, r: seq<Task>)
      ensures httpStatus == 200
      ensures SortedByDate(r) && multiset(r) == multiset(tasks)
    {
      httpStatus := 200;
      r := SortByDate(tasks);
    }

    /** `createTask`: a 400 for a title already in the table, otherwise one new row and a 201. */
    method CreateTask(title: string, date: int, description: string, priority: string, status: string)
      returns (r: Result<TaskReply, Thrown>)
      requires Valid()
      modifies this
      ensures Valid()
      ensures (exists i :: 0 <= i < |old(tasks)| && old(tasks)[i].title == title) ==>
        r == Err(App(DuplicateTitle, None)) && tasks == old(tasks) && nextId == old(nextId)
      ensures (forall i :: 0 <= i < |old(tasks)| ==> old(tasks)[i].title != title) ==>
        var row := Task(old(nextId), title, date, description, priority, status);
        tasks == old(tasks) + [row] && r == Ok(TaskReply(201, "Task successfully created", Some(row)))
      ensures TitlesUnique(old(tasks)) ==> TitlesUnique(tasks)
    {
      var existing := FindFirst(tasks, HasTitle(title));
      if existing.Some? {
        return Err(App(DuplicateTitle, None));
      }
      var row := Task(nextId, title, date, description, priority, status);
      tasks := tasks + [row];
      nextId := nextId + 1;
      r := Ok(TaskReply(201, "Task successfully created", Some(row)));
    }

    /**
     * `updateTask`: a 400 when no row has the id (`affected` is 0); otherwise
     * only that row changes, and the reply carries it as re-read.
     */
    method UpdateTask(id: nat, patch: TaskPatch) returns (r: Result<TaskReply, Thrown>)
      requires Valid()
      modifies this
      ensures Valid() && nextId == old(nextId)
      ensures PatchIsEmpty(patch) ==> r == Err(UpdateValuesMissing) && tasks == old(tasks)
      ensures !PatchIsEmpty(patch) && (forall i :: 0 <= i < |old(tasks)| ==> old(tasks)[i].id != id) ==>
        r == Err(App(NoSuchTaskToUpdate, None)) && tasks == old(tasks)
      ensures !PatchIsEmpty(patch) ==> forall i :: 0 <= i < |old(tasks)| && old(tasks)[i].id == id ==>
        && tasks == old(tasks)[i := Patched(old(tasks)[i], patch)]
        && r == Ok(TaskReply(200, "Task successfully updated", Some(tasks[i])))
    {
      if PatchIsEmpty(patch) {
        return Err(UpdateValuesMissing);
      }
      var found := FindFirst(tasks, HasId(id));
      if found.None? {
        return Err(App(NoSuchTaskToUpdate, None));
      }
      var i := found.value;
      tasks := tasks[i := Patched(tasks[i], patch)];
      var reread := FindFirst(tasks, HasId(id));
      assert reread == Some(i) by {
        assert HasId(id)(tasks[i]);
      }
      r := Ok(TaskReply(200, "Task successfully updated", Some(tasks[reread.value])));
    }

    /**
     * `deleteTask`: a 400 when no row has the id; otherwise that row is
     * removed and the follow-up lookup finds nothing, so `data.task` is null.
     */
    method DeleteTask(id: nat) returns (r: Result<TaskReply, Thrown>)
      requires Valid()
      modifies this
      ensures Valid() && nextId == old(nextId)
      ensures (forall i :: 0 <= i < |old(tasks)| ==> old(tasks)[i].id != id) ==>
        r == Err(App(NoSuchTask, None)) && tasks == old(tasks)
      ensures forall i :: 0 <= i < |old(tasks)| && old(tasks)[i].id == id ==>
        tasks == RemoveAt(old(tasks), i) && r == Ok(TaskReply(200, "Task successfully updated", None))
      ensures forall i :: 0 <= i < |tasks| ==> tasks[i].id != id
      ensures TitlesUnique(old(tasks)) ==> TitlesUnique(tasks)
    {
      var found := FindFirst(tasks, HasId(id));
      if found.None? {
        return Err(App(NoSuchTask, None));
      }
      var i := found.value;
      ghost var before := tasks;
      tasks := RemoveAt(tasks, i);
      if TitlesUnique(before) {
        RemoveKeepsTitlesUnique(before, i);
      }
      var reread := FindFirst(tasks, HasId(id));
      assert reread.None?;
      r := Ok(TaskReply(200, "Task successfully updated", None));
    }

    /** `getTaskById`: the row with that id, or a 400 (not a 404) when there is none. */
    method GetTaskById(id: nat) returns (r: Result<TaskReply, Thrown>)
      ensures r.Ok? <==> exists i :: 0 <= i < |tasks| && tasks[i].id == id
      ensures r.Ok? ==>
        && r.value.httpStatus == 200 && r.value.task.Some?
        && r.value.task.value in tasks && r.value.task.value.id == id
      ensures r.Err? ==> r.error == App(NoSuchTask, None) && r.error.err.statusCode == 400
    {
      var found := FindFirst(tasks, HasId(id));
      if found.None? {
        return Err(App(NoSuchTask, None));
      }
      r := Ok(TaskReply(200, "Task successfully updated", Some(tasks[found.value])));
    }
  }
}
