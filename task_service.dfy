/**
 * The server's task service (back/app/Services/TaskService.php) over a `tasks` table
 * held as a sequence of rows, with an auto-increment counter for new ids.
 */
module TaskServices {
  import opened Wrappers
  import opened TaskModel

  /** PHP truthiness of a nullable string: null, "" and "0" are false. */
  function Truthy(s: Option<string>): (b: bool)
    ensures b ==> s.Some? && |s.value| > 0
    ensures s == Some("0") ==> !b
  {
    s.Some? && s.value != "" && s.value != "0"
  }

  /** `$status && in_array($status, Task::getValidStatuses())`: whether the status scope applies. */
  function AppliesFilter(status: Option<string>): (b: bool)
    ensures b <==> status.Some? && status.value in {STATUS_TODO, STATUS_IN_PROGRESS, STATUS_DONE}
  {
    Truthy(status) && status.value in ValidStatuses()
  }

  /** The rows a status filter selects: the scope when it applies, otherwise every row. */
  function Selected(rows: seq<Task>, status: Option<string>): (r: seq<Task>)
    ensures AppliesFilter(status) ==> forall t :: t in r <==> t in rows && t.status == status.value
    ensures !AppliesFilter(status) ==> r == rows
  {
    if AppliesFilter(status) then ByStatus(rows, status.value) else rows
  }

  /** PHP `$data[$key] ?? $fallback`: the value when the key is present and not null. */
  function Coalesce(data: Attributes, key: string, fallback: Option<string>): (r: Option<string>)
    ensures r == fallback || (key in data && r == data[key] && r.Some?)
    ensures fallback.Some? ==> r.Some?
    ensures key !in data ==> r == fallback
  {
    if key in data && data[key].Some? then data[key] else fallback
  }

  /** The primary key: no two rows share an id. */
  predicate UniqueIds(rows: seq<Task>)
  {
    forall i, j :: 0 <= i < j < |rows| ==> rows[i].id != rows[j].id
  }

  /** Every id in the table is below the auto-increment counter. */
  predicate IdsBelow(rows: seq<Task>, n: nat)
  {
    forall t :: t in rows ==> t.id < n
  }

  /** The attribute array `updateTask` builds: each field from the input, else the old value. */
  function UpdateAttributes(task: Task, data: Attributes): (attrs: Attributes)
    ensures NonNullColumns(attrs)
  {
    map["title" := Coalesce(data, "title", Some(task.title)),
        "description" := Coalesce(data, "description", task.description),
        "status" := Coalesce(data, "status", Some(task.status))]
  }

  /**
   * The row after `$task->update([...])` at clock `now`: each of title, description
   * and status takes the input's value when it is present and not null, and keeps the
   * old one otherwise; `updated_at` moves to `now` only when some field changed, as
   * Eloquent saves (and touches timestamps) only for a dirty model.
   */
  function Patched(task: Task, data: Attributes, now: int): (r: Task)
    ensures r.id == task.id && r.createdAt == task.createdAt
    ensures r.title == if "title" in data && data["title"].Some? then data["title"].value else task.title
    ensures r.description ==
      if "description" in data && data["description"].Some? then data["description"] else task.description
    ensures r.status == if "status" in data && data["status"].Some? then data["status"].value else task.status
    ensures r.updatedAt == if r.(updatedAt := task.updatedAt) == task then task.updatedAt else now
  {
    var filled := Fill(task, UpdateAttributes(task, data));
    if filled == task then filled else filled.(updatedAt := now)
  }

  /** An explicit null (or a missing key) never clears a field: an all-null patch changes nothing. */
  lemma NullPatchKeepsRow(task: Task, data: Attributes, now: int)
    requires forall k :: k in data ==> data[k].None?
    ensures Patched(task, data, now) == task
  {
  }

  /** Applying the same patch twice is the same as applying it once, whatever the clock. */
  lemma PatchIdempotent(task: Task, data: Attributes, now: int, later: int)
    ensures Patched(Patched(task, data, now), data, later) == Patched(task, data, now)
  {
  }

  /** Whether the input carries, for some field, a non-null value that differs from the row's. */
  predicate ChangesSomething(task: Task, data: Attributes)
  {
    || ("title" in data && data["title"].Some? && data["title"].value != task.title)
    || ("description" in data && data["description"].Some? && data["description"] != task.description)
    || ("status" in data && data["status"].Some? && data["status"].value != task.status)
  }

  /**
   * `updated_at` is refreshed exactly when the patch changes a field; with a clock
   * that has moved on, it then strictly advances.
   */
  lemma PatchRefreshesUpdatedAt(task: Task, data: Attributes, now: int)
    ensures ChangesSomething(task, data) ==> Patched(task, data, now).updatedAt == now
    ensures !ChangesSomething(task, data) ==> Patched(task, data, now) == task
    ensures ChangesSomething(task, data) && now > task.updatedAt ==>
              Patched(task, data, now).updatedAt > task.updatedAt
  {
  }

  /** The table after `UPDATE ... WHERE id = row.id`. */
  function WithRow(rows: seq<Task>, row: Task): (r: seq<Task>)
    ensures |r| == |rows|
    ensures forall j :: 0 <= j < |r| ==> r[j] == if rows[j].id == row.id then row else rows[j]
  {
    seq(|rows|, j requires 0 <= j < |rows| => if rows[j].id == row.id then row else rows[j])
  }

  /** With unique ids, the update rewrites exactly the one row that carries the id. */
  lemma UpdateOneRow(rows: seq<Task>, k: nat, row: Task)
    requires UniqueIds(rows) && k < |rows| && rows[k].id == row.id
    ensures WithRow(rows, row) == rows[k := row]
    ensures UniqueIds(WithRow(rows, row))
  {
  }

  /** The table after `DELETE ... WHERE id = id`, other rows kept in order. */
  function WithoutId(rows: seq<Task>, id: nat): (r: seq<Task>)
    ensures forall t :: t in r <==> t in rows && t.id != id
  {
    if rows == [] then []
    else (if rows[0].id != id then [rows[0]] else []) + WithoutId(rows[1..], id)
  }

  /**
   * Deleting the row of a table with unique ids removes exactly that row and keeps
   * the rest: one row fewer, the same multiset less that row.
   */
  lemma {:induction false} DeleteUniqueRow(rows: seq<Task>, task: Task)
    requires UniqueIds(rows) && task in rows
    ensures multiset(WithoutId(rows, task.id)) + multiset{task} == multiset(rows)
    ensures |WithoutId(rows, task.id)| == |rows| - 1
  {
    assert rows == [rows[0]] + rows[1..];
    HeadIdUnique(rows);
    if rows[0] == task {
      WithoutAbsentId(rows[1..], task.id);
    } else {
      assert task in rows[1..];
      TailUnique(rows);
      DeleteUniqueRow(rows[1..], task);
    }
  }

  /** Deleting rows never makes two remaining rows share an id. */
  lemma {:induction false} DeleteKeepsUnique(rows: seq<Task>, id: nat)
    requires UniqueIds(rows)
    ensures UniqueIds(WithoutId(rows, id))
  {
    if rows != [] {
      TailUnique(rows);
      HeadIdUnique(rows);
      DeleteKeepsUnique(rows[1..], id);
      var rest := WithoutId(rows[1..], id);
      if rows[0].id != id {
        var r := [rows[0]] + rest;
        forall i, j | 0 <= i < j < |r| ensures r[i].id != r[j].id {
          if i == 0 {
            assert r[j] == rest[j - 1] && rest[j - 1] in rows[1..];
          } else {
            assert r[i] == rest[i - 1] && r[j] == rest[j - 1];
          }
        }
      }
    }
  }

  /** Dropping the first row keeps the ids unique. */
  lemma TailUnique(rows: seq<Task>)
    requires UniqueIds(rows) && rows != []
    ensures UniqueIds(rows[1..])
  {

  }

  /** Deleting an id no row carries leaves the table as it was. */
  lemma {:induction false} WithoutAbsentId(rows: seq<Task>, id: nat)
    requires forall t :: t in rows ==> t.id != id
    ensures WithoutId(rows, id) == rows
  {
    if rows != [] {
      assert rows[0] in rows;
      WithoutAbsentId(rows[1..], id);
      assert rows == [rows[0]] + rows[1..];
    }
  }

  /** The id of a row that is first in a table with unique ids appears nowhere else. */
  lemma HeadIdUnique(rows: seq<Task>)
    requires UniqueIds(rows) && rows != []
    ensures forall t :: t in rows[1..] ==> t.id != rows[0].id
  {

  }

  class TaskService {
    /** The `tasks` table. */
    var table: seq<Task>
    /** The id the database gives the next inserted row. */
    var autoIncrement: nat

    ghost predicate Valid()
      reads this
    {
      UniqueIds(table) && IdsBelow(table, autoIncrement)
    }

    /** A service over an empty table. */
    constructor ()
      ensures Valid() && table == [] && autoIncrement == 1
    {
      table := [];
      autoIncrement := 1;
    }

    /**
     * `getAllTasks`: the rows of the given status when it is a valid one, otherwise
     * (null, empty or unknown) every row; newest first either way.
     */
    function GetAllTasks(status: Option<string>): (r: seq<Task>)
      reads this
      ensures NewestFirstOrder(r)
      ensures AppliesFilter(status) ==> forall t :: t in r <==> t in table && t.status == status.value
      ensures AppliesFilter(status) ==> multiset(r) == multiset(ByStatus(table, status.value))
      ensures !AppliesFilter(status) ==> multiset(r) == multiset(table)
    {
      var selected := Selected(table, status);
      var r := NewestFirst(selected);
      assert forall t :: t in r <==> t in selected by {
        forall t ensures t in r <==> t in selected {
          assert t in r <==> t in multiset(r);
          assert t in selected <==> t in multiset(selected);
        }
      }
      r
    }

    /** `getTasksCount`: counts with the same filter rule as `getAllTasks`. */
    function GetTasksCount(status: Option<string>): (n: nat)
      reads this
      ensures n == |GetAllTasks(status)|
      ensures !AppliesFilter(status) ==> n == |table|
    {
      NewestFirstLength(Selected(table, status));
      |Selected(table, status)|
    }

    /** `getValidStatuses`: the model's list. */
    function GetValidStatuses(): (r: seq<string>)
      ensures r == ValidStatuses()
    {
      ValidStatuses()
    }

    /**
     * `createTask`: inserts a row with the given title, the description or null,
     * the status or 'todo', a fresh id and both timestamps at `now`.
     */
    method CreateTask(data: Attributes, now: int) returns (task: Task)
      requires Valid()
      requires "title" in data && data["title"].Some?
      modifies this
      ensures Valid()
      ensures task.title == data["title"].value
      ensures task.description == if "description" in data then data["description"] else None
      ensures task.status == if "status" in data && data["status"].Some? then data["status"].value else STATUS_TODO
      ensures task.id == old(autoIncrement) && task.createdAt == now && task.updatedAt == now
      ensures table == old(table) + [task]
      ensures autoIncrement == old(autoIncrement) + 1
    {
      var attrs := map["title" := data["title"],
                       "description" := Coalesce(data, "description", None),
                       "status" := Coalesce(data, "status", Some(STATUS_TODO))];
      task := Fill(Task(autoIncrement, "", None, "", now, now), attrs);
      table := table + [task];
      autoIncrement := autoIncrement + 1;
    }

    /**
     * `updateTask`: merges the input into the stored row and returns the row as
     * stored afterwards; no other row changes.
     */
    method UpdateTask(task: Task, data: Attributes, now: int) returns (stored: Task)
      requires Valid() && task in table
      modifies this
      ensures Valid() && autoIncrement == old(autoIncrement)
      ensures stored == Patched(task, data, now)
      ensures table == WithRow(old(table), stored)
      ensures exists k :: 0 <= k < |old(table)| && old(table)[k] == task && table == old(table)[k := stored]
    {
      stored := Patched(task, data, now);
      table := WithRow(table, stored);
      ghost var k :| 0 <= k < |old(table)| && old(table)[k] == task;
      UpdateOneRow(old(table), k, stored);
    }

    /** `deleteTask`: removes the row and reports success; the rest of the table is kept. */
    method DeleteTask(task: Task) returns (deleted: bool)
      requires Valid() && task in table
      modifies this
      ensures Valid() && autoIncrement == old(autoIncrement)
      ensures deleted
      ensures table == WithoutId(old(table), task.id)
      ensures forall t :: t in table ==> t.id != task.id
      ensures multiset(table) + multiset{task} == multiset(old(table))
    {
      DeleteUniqueRow(table, task);
      DeleteKeepsUnique(table, task.id);
      table := WithoutId(table, task.id);
      deleted := true;
    }
  }
}
