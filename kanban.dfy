/**
 * The client-side kanban store (front/src/stores/kanban.ts): one in-memory list of
 * tasks, an id counter, three per-column views, and a snapshot in local storage.
 */
module Kanban {
  import opened Wrappers

  /** The three columns of the board (KanbanColumn). */
  datatype Column = Todo | InProgress | Done

  /** The two directions `moveTask` accepts. */
  datatype Direction = Left | Right

  /** A client task (KanbanTask); `createdAt` is a clock reading in milliseconds. */
  datatype KanbanTask = KanbanTask(
    id: int,
    title: string,
    description: Option<string>,
    status: Column,
    createdAt: int)

  /** The fixed left-to-right order of the columns. */
  const StatusOrder: seq<Column> := [Todo, InProgress, Done]

  /** Position of a column in StatusOrder (`statusOrder.indexOf`). */
  function IndexOf(c: Column): (i: nat)
    ensures i < |StatusOrder| && StatusOrder[i] == c
  {
    match c
    case Todo => 0
    case InProgress => 1
    case Done => 2
  }

  /** The column one step to the left or right of `c`, staying put at either end. */
  function Step(c: Column, d: Direction): (r: Column)
    ensures d == Right ==> IndexOf(r) == if IndexOf(c) < 2 then IndexOf(c) + 1 else 2
    ensures d == Left ==> IndexOf(r) == if IndexOf(c) > 0 then IndexOf(c) - 1 else 0
  {
    var i := IndexOf(c);
    if d == Right && i < |StatusOrder| - 1 then StatusOrder[i + 1]
    else if d == Left && i > 0 then StatusOrder[i - 1]
    else c
  }

  /** A step right undoes a step left and vice versa, except at the ends of the board. */
  lemma StepRoundTrip(c: Column)
    ensures c != Done ==> Step(Step(c, Right), Left) == c
    ensures c != Todo ==> Step(Step(c, Left), Right) == c
    ensures Step(Done, Right) == Done && Step(Todo, Left) == Todo
    ensures Step(Todo, Right) == InProgress && Step(InProgress, Right) == Done
    ensures Step(Done, Left) == InProgress && Step(InProgress, Left) == Todo
  {
  }

  /** No two tasks share an id. */
  predicate UniqueIds(s: seq<KanbanTask>)
  {
    forall i, j :: 0 <= i < j < |s| ==> s[i].id != s[j].id
  }

  /** Every id in `s` is below `n`, so `n` is free for a new task. */
  predicate IdsBelow(s: seq<KanbanTask>, n: int)
  {
    forall i :: 0 <= i < |s| ==> s[i].id < n
  }

  /**
   * Index of the first task whose id is `id`, or -1 (`findIndex`; `find` yields the
   * task at this index).
   */
  function FindIndex(s: seq<KanbanTask>, id: int): (r: int)
    ensures -1 <= r < |s|
    ensures r >= 0 ==> s[r].id == id && forall j :: 0 <= j < r ==> s[j].id != id
    ensures r == -1 ==> forall j :: 0 <= j < |s| ==> s[j].id != id
  {
    if s == [] then -1
    else if s[0].id == id then 0
    else
      var k := FindIndex(s[1..], id);
      if k < 0 then -1 else k + 1
  }

  /** The list with the element at `i` cut out (`splice(i, 1)`). */
  function RemoveAt(s: seq<KanbanTask>, i: nat): (r: seq<KanbanTask>)
    requires i < |s|
    ensures |r| == |s| - 1
    ensures forall j :: 0 <= j < i ==> r[j] == s[j]
    ensures forall j :: i <= j < |r| ==> r[j] == s[j + 1]
  {
    s[..i] + s[i + 1..]
  }

  /** Cutting out one element removes exactly that element from the multiset of tasks. */
  lemma RemoveAtMultiset(s: seq<KanbanTask>, i: nat)
    requires i < |s|
    ensures multiset(RemoveAt(s, i)) + multiset{s[i]} == multiset(s)
  {
    assert s == s[..i] + [s[i]] + s[i + 1..];
  }

  /** The largest id in a non-empty list (`Math.max(...ids)`). */
  function MaxId(s: seq<KanbanTask>): (m: int)
    requires |s| > 0
    ensures exists i :: 0 <= i < |s| && s[i].id == m
    ensures forall i :: 0 <= i < |s| ==> s[i].id <= m
  {
    if |s| == 1 then s[0].id
    else
      var m := MaxId(s[1..]);
      if s[0].id >= m then s[0].id else m
  }

  /** The tasks of one column, in list order (the `computed` filter views). */
  function ColumnView(s: seq<KanbanTask>, c: Column): (r: seq<KanbanTask>)
    ensures |r| <= |s|
    ensures forall t :: t in r <==> t in s && t.status == c
  {
    if s == [] then []
    else (if s[0].status == c then [s[0]] else []) + ColumnView(s[1..], c)
  }

  /** A view keeps the relative order of the list: it distributes over concatenation. */
  lemma {:induction false} ColumnViewConcat(a: seq<KanbanTask>, b: seq<KanbanTask>, c: Column)
    ensures ColumnView(a + b, c) == ColumnView(a, c) + ColumnView(b, c)
  {
    if a == [] {
      assert a + b == b;
    } else {
      assert (a + b)[1..] == a[1..] + b;
      ColumnViewConcat(a[1..], b, c);
    }
  }

  /** The three views partition the list: every task is in exactly one of them. */
  lemma {:induction false} ViewsPartition(s: seq<KanbanTask>)
    ensures multiset(ColumnView(s, Todo)) + multiset(ColumnView(s, InProgress))
            + multiset(ColumnView(s, Done)) == multiset(s)
    ensures |ColumnView(s, Todo)| + |ColumnView(s, InProgress)| + |ColumnView(s, Done)| == |s|
  {
    if s != [] {
      ViewsPartition(s[1..]);
      assert s == [s[0]] + s[1..];
    }
  }

  /** Appending a task whose id is the counter keeps the ids unique and below the new counter. */
  lemma AppendFreshId(s: seq<KanbanTask>, n: int, t: KanbanTask)
    requires IdsBelow(s, n) && t.id == n
    ensures IdsBelow(s + [t], n + 1)
    ensures UniqueIds(s) ==> UniqueIds(s + [t])
  {
  }

  /** Deleting the first task with a unique id leaves no task with that id. */
  lemma DeleteRemovesId(s: seq<KanbanTask>, id: int)
    requires UniqueIds(s) && FindIndex(s, id) >= 0
    ensures forall t :: t in RemoveAt(s, FindIndex(s, id)) ==> t.id != id
    ensures UniqueIds(RemoveAt(s, FindIndex(s, id)))
  {
  }

  /** After loading a non-empty snapshot, the counter is above every id in it. */
  lemma MaxIdBound(s: seq<KanbanTask>, n: int)
    requires |s| > 0 && IdsBelow(s, n)
    ensures IdsBelow(s, MaxId(s) + 1) && MaxId(s) + 1 <= n
  {
  }

  /** Titles and descriptions of the three sample tasks seeded by `loadTasks`. */
  const SampleTitles: seq<string> := ["Première tâche", "Tâche en cours", "Tâche terminée"]
  const SampleDescriptions: seq<string> := [
    "Ceci est un exemple de tâche",
    "Une tâche qui est actuellement en développement",
    "Une tâche qui a été complétée"]

  /**
   * The list after the seeding branch of `loadTasks`: the three sample tasks are
   * appended as todo tasks with consecutive ids from `n`, then positions 1 and 2 of
   * the WHOLE list are set to in-progress and done. Only on an empty list are those
   * positions the second and third sample.
   */
  function Seeded(s: seq<KanbanTask>, n: int, now: int): (r: seq<KanbanTask>)
    ensures |r| == |s| + 3
    ensures forall k :: 0 <= k < |r| && k != 1 && k != 2 ==>
              r[k].status == (if k < |s| then s[k].status else Todo)
    ensures r[1].status == InProgress && r[2].status == Done
    ensures forall k :: 0 <= k < |s| ==> r[k].(status := s[k].status) == s[k]
    ensures forall k :: 0 <= k < 3 ==>
              r[|s| + k].(status := Todo) == KanbanTask(n + k, SampleTitles[k], Some(SampleDescriptions[k]), Todo, now)
  {
    var added := s + [KanbanTask(n, SampleTitles[0], Some(SampleDescriptions[0]), Todo, now),
                      KanbanTask(n + 1, SampleTitles[1], Some(SampleDescriptions[1]), Todo, now),
                      KanbanTask(n + 2, SampleTitles[2], Some(SampleDescriptions[2]), Todo, now)];
    added[1 := added[1].(status := InProgress)][2 := added[2].(status := Done)]
  }

  /**
   * Seeding a non-empty list moves the caller's second task to in-progress and the
   * first sample to done, leaving the second and third samples in todo.
   */
  lemma SeedingNonEmptyList(a: KanbanTask, b: KanbanTask, n: int, now: int)
    ensures var r := Seeded([a, b], n, now);
      r[1] == b.(status := InProgress) && r[2].id == n && r[2].status == Done
      && r[3].status == Todo && r[4].status == Todo
  {
  }

  /** Seeding changes no id: ids stay unique when the list's were and the counter was above them. */
  lemma SeededKeepsIds(s: seq<KanbanTask>, n: int, now: int)
    requires IdsBelow(s, n)
    ensures IdsBelow(Seeded(s, n, now), n + 3)
    ensures UniqueIds(s) ==> UniqueIds(Seeded(s, n, now))
  {
    var r := Seeded(s, n, now);
    assert forall k :: 0 <= k < |s| ==> r[k].id == s[k].id;
    assert r[|s|].id == n && r[|s| + 1].id == n + 1 && r[|s| + 2].id == n + 2;
  }

  /** Seeding an empty list gives one sample task per column, with ids n, n + 1, n + 2. */
  lemma SeededFromEmpty(n: int, now: int)
    ensures var r := Seeded([], n, now);
      && r[0].status == Todo && r[1].status == InProgress && r[2].status == Done
      && forall k :: 0 <= k < 3 ==>
           r[k] == KanbanTask(n + k, SampleTitles[k], Some(SampleDescriptions[k]), r[k].status, now)
  {
  }

  class KanbanStore {
    /** The list of tasks (`tasks`). */
    var tasks: seq<KanbanTask>
    /** The id the next added task gets (`nextId`). */
    var nextId: int
    /** The local-storage entry 'kanban-tasks': None when nothing has been saved. */
    var storage: Option<seq<KanbanTask>>

    /** Every id in the list stays below the counter. */
    ghost predicate Valid()
      reads this
    {
      IdsBelow(tasks, nextId)
    }

    /** A fresh store over whatever local storage already holds. */
    constructor (stored: Option<seq<KanbanTask>>)
      ensures Valid()
      ensures tasks == [] && nextId == 1 && storage == stored
    {
      tasks := [];
      nextId := 1;
      storage := stored;
    }

    /** The 'todo' column. */
    function TodoTasks(): (r: seq<KanbanTask>)
      reads this
      ensures forall t :: t in r <==> t in tasks && t.status == Todo
    {
      ColumnView(tasks, Todo)
    }

    /** The 'in-progress' column. */
    function InProgressTasks(): (r: seq<KanbanTask>)
      reads this
      ensures forall t :: t in r <==> t in tasks && t.status == InProgress
    {
      ColumnView(tasks, InProgress)
    }

    /** The 'done' column. */
    function DoneTasks(): (r: seq<KanbanTask>)
      reads this
      ensures forall t :: t in r <==> t in tasks && t.status == Done
    {
      ColumnView(tasks, Done)
    }

    /** Writes the whole list to local storage. */
    method SaveTasks()
      modifies this`storage
      ensures storage == Some(tasks)
    {
      storage := Some(tasks);
    }

    /** Appends a new 'todo' task with the counter's id, bumps the counter and saves. */
    method AddTask(title: string, description: Option<string>, now: int)
      requires Valid()
      modifies this
      ensures Valid()
      ensures tasks == old(tasks) + [KanbanTask(old(nextId), title, description, Todo, now)]
      ensures nextId == old(nextId) + 1
      ensures storage == Some(tasks)
      ensures UniqueIds(old(tasks)) ==> UniqueIds(tasks)
    {
      var t := KanbanTask(nextId, title, description, Todo, now);
      AppendFreshId(tasks, nextId, t);
      nextId := nextId + 1;
      tasks := tasks + [t];
      SaveTasks();
    }

    /**
     * Moves the first task with id `taskId` one column left or right; an unknown id
     * changes nothing and saves nothing.
     */
    method MoveTask(taskId: int, direction: Direction)
      requires Valid()
      modifies this
      ensures Valid() && nextId == old(nextId)
      ensures var i := FindIndex(old(tasks), taskId);
        if i < 0 then tasks == old(tasks) && storage == old(storage)
        else tasks == old(tasks)[i := old(tasks)[i].(status := Step(old(tasks)[i].status, direction))]
             && storage == Some(tasks)
      ensures UniqueIds(old(tasks)) ==> UniqueIds(tasks)
    {
      var i := FindIndex(tasks, taskId);
      if i < 0 {
        return;
      }
      var task := tasks[i];
      var currentIndex := IndexOf(task.status);
      if direction == Right && currentIndex < |StatusOrder| - 1 {
        tasks := tasks[i := task.(status := StatusOrder[currentIndex + 1])];
      } else if direction == Left && currentIndex > 0 {
        tasks := tasks[i := task.(status := StatusOrder[currentIndex - 1])];
      }
      SaveTasks();
    }

    /**
     * Puts the first task with id `taskId` into column `newStatus`; an unknown id
     * changes nothing and saves nothing.
     */
    method MoveTaskToColumn(taskId: int, newStatus: Column)
      requires Valid()
      modifies this
      ensures Valid() && nextId == old(nextId)
      ensures var i := FindIndex(old(tasks), taskId);
        if i < 0 then tasks == old(tasks) && storage == old(storage)
        else tasks == old(tasks)[i := old(tasks)[i].(status := newStatus)] && storage == Some(tasks)
      ensures UniqueIds(old(tasks)) ==> UniqueIds(tasks)
    {
      var i := FindIndex(tasks, taskId);
      if i < 0 {
        return;
      }
      tasks := tasks[i := tasks[i].(status := newStatus)];
      SaveTasks();
    }

    /** Removes the first task with id `taskId` and saves; an unknown id is a no-op. */
    method DeleteTask(taskId: int)
      requires Valid()
      modifies this
      ensures Valid() && nextId == old(nextId)
      ensures var i := FindIndex(old(tasks), taskId);
        if i < 0 then tasks == old(tasks) && storage == old(storage)
        else tasks == RemoveAt(old(tasks), i) && storage == Some(tasks)
      ensures UniqueIds(old(tasks)) ==> UniqueIds(tasks) && forall t :: t in tasks ==> t.id != taskId
    {
      var index := FindIndex(tasks, taskId);
      if index > -1 {
        if UniqueIds(tasks) {
          DeleteRemovesId(tasks, taskId);
        }
        tasks := RemoveAt(tasks, index);
        SaveTasks();
      }
    }

    /**
     * Restores the stored snapshot, moving the counter above its ids when it is
     * non-empty; with nothing stored, seeds one sample task per column and saves.
     */
    method LoadTasks(now: int)
      requires Valid()
      modifies this
      ensures Valid()
      ensures storage == Some(tasks)
      ensures old(storage).Some? ==>
        tasks == old(storage).value
        && nextId == if tasks == [] then old(nextId) else MaxId(tasks) + 1
      ensures old(storage).None? ==>
        && nextId == old(nextId) + 3
        && tasks == Seeded(old(tasks), old(nextId), now)
        && (UniqueIds(old(tasks)) ==> UniqueIds(tasks))
      ensures old(storage).None? && old(tasks) == [] ==>
        && |tasks| == 3
        && tasks[0].status == Todo && tasks[1].status == InProgress && tasks[2].status == Done
        && (forall k :: 0 <= k < 3 ==>
              tasks[k] == KanbanTask(old(nextId) + k, SampleTitles[k], Some(SampleDescriptions[k]),
                                     tasks[k].status, now))
    {
      if storage.Some? {
        tasks := storage.value;
        if |tasks| > 0 {
          nextId := MaxId(tasks) + 1;
        }
      } else {
        ghost var before, n := tasks, nextId;
        AddTask(SampleTitles[0], Some(SampleDescriptions[0]), now);
        AddTask(SampleTitles[1], Some(SampleDescriptions[1]), now);
        AddTask(SampleTitles[2], Some(SampleDescriptions[2]), now);
        assert tasks == before + [KanbanTask(n, SampleTitles[0], Some(SampleDescriptions[0]), Todo, now),
                                  KanbanTask(n + 1, SampleTitles[1], Some(SampleDescriptions[1]), Todo, now),
                                  KanbanTask(n + 2, SampleTitles[2], Some(SampleDescriptions[2]), Todo, now)];
        if |tasks| >= 2 {
          tasks := tasks[1 := tasks[1].(status := InProgress)];
        }
        if |tasks| >= 3 {
          tasks := tasks[2 := tasks[2].(status := Done)];
        }
        assert tasks == Seeded(before, n, now);
        SeededKeepsIds(before, n, now);
        if before == [] {
          SeededFromEmpty(n, now);
        }
        SaveTasks();
      }
    }
  }
}
