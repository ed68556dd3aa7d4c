# Verified model of the kanban store and the server-side task service

This project models, in Dafny, the two task-collection components of a small
task/kanban demo:

- the browser-side **kanban store**: one list of tasks, an id counter, three
  per-column views, and a snapshot of the list in local storage
  (`Kanban`, class `KanbanStore`);
- the server-side **task model and service**: a `tasks` table with status
  filtering, newest-first ordering, counting, creation with defaults, merge-patch
  update and deletion (`TaskModel`, `TaskServices`, class `TaskService`);
- the **status validation of the listing action**, which refuses an unknown
  status with a 400 answer while the service silently ignores it
  (`TaskController.Index`).

Modules, one per source file: `Wrappers` (Option), `Kanban`
(front/src/stores/kanban.ts, task types from front/src/types/KanbanTask.ts),
`TaskModel` (back/app/Models/Task.php), `TaskServices`
(back/app/Services/TaskService.php), `TaskController`
(back/app/Http/Controllers/TaskController.php).

Modelling choices:

- Local storage is the field `KanbanStore.storage: Option<seq<KanbanTask>>`; `None`
  means the key 'kanban-tasks' holds nothing. The JSON text is not modelled: a
  snapshot is the list itself.
- Clocks (`new Date()`, Laravel's `now()`) are integer parameters `now`.
- The table is `TaskService.table: seq<Task>` with an `autoIncrement` counter for
  new ids. Its invariant is the primary key: ids are unique and below the counter.
- Server statuses are strings, because the table stores whatever the service was
  given; client statuses are the datatype `Column`.
- PHP truthiness is explicit (`TaskServices.Truthy`): `null`, `""` and `"0"` are
  false. As a consequence `index?status=0` is not refused. "0" is no valid status,
  so the service ignores it and lists every task (`TaskController.ZeroStatusListsAll`).
- An attribute array is `map<string, Option<string>>`: a missing key and an
  explicit `null` are distinct, and PHP's `??` treats both alike
  (`TaskServices.Coalesce`).
- `$task->update(...)` refreshes `updated_at` only when some attribute actually
  changes, because Eloquent saves and touches timestamps only for a dirty model.
- UPDATE and DELETE act on every row with the given row's id (`WHERE id = ?`); with
  unique ids that is exactly one row (`UpdateOneRow`, `DeleteUniqueRow`).
- The client store works only on local storage: `loadTasks` reads the stored
  snapshot and nothing else, client tasks have no `updatedAt`, and new ids come
  from the `nextId` counter, which is reset to max id + 1 only after a non-empty
  snapshot is loaded.
- The seeding branch of `loadTasks` appends the three sample tasks to whatever the
  list holds and then sets positions 1 and 2 of the whole list to in-progress and
  done. On an empty list that gives one sample per column; on a non-empty list it
  changes the caller's second task instead (`Kanban.SeedingNonEmptyList`).
- The ordering by `created_at` is an insertion sort. The contracts promise only
  "newest first" and "a permutation"; the database fixes no order between equal
  timestamps.

## Model

| member | source | states |
|---|---|---|
| `Kanban.IndexOf` | front/src/stores/kanban.ts:29-30 | the position of a column in the fixed order todo, in-progress, done |
| `Kanban.Step` | front/src/stores/kanban.ts:29-36 | moving right raises the position by one except at done; moving left lowers it by one except at todo |
| `Kanban.StepRoundTrip` | front/src/stores/kanban.ts:29-36 | right then left (and left then right) is the identity away from the ends; done stays done going right, todo stays todo going left; the four single steps |
| `Kanban.FindIndex` | front/src/stores/kanban.ts:50 | the index of the first task with the id, or -1 exactly when no task has it |
| `Kanban.RemoveAt` | front/src/stores/kanban.ts:52 | `splice(i, 1)`: one element shorter, the elements before i unchanged, the ones after shifted down by one |
| `Kanban.RemoveAtMultiset` | front/src/stores/kanban.ts:52 | cutting out index i removes exactly that task from the multiset of tasks |
| `Kanban.MaxId` | front/src/stores/kanban.ts:71 | the result is an id of the list and no id is larger |
| `Kanban.MaxIdBound` | front/src/stores/kanban.ts:70-72 | max id + 1 exceeds every id, and is at most any counter that already exceeded them |
| `Kanban.ColumnView` | front/src/stores/kanban.ts:9-11 | a view holds exactly the tasks of its column and is no longer than the list |
| `Kanban.ColumnViewConcat` | front/src/stores/kanban.ts:9-11 | a view distributes over concatenation, so it keeps the relative order of the list |
| `Kanban.ViewsPartition` | front/src/stores/kanban.ts:9-11 | the three views together are a permutation of the list, and their lengths sum to its length |
| `Kanban.AppendFreshId` | front/src/stores/kanban.ts:15 | appending a task whose id is the counter keeps ids unique and below the incremented counter |
| `Kanban.DeleteRemovesId` | front/src/stores/kanban.ts:49-55 | with unique ids, after deleting the first task with the id no task has that id, and ids stay unique |
| `Kanban.KanbanStore.constructor` | front/src/stores/kanban.ts:6-7 | empty list, counter 1, local storage as found |
| `Kanban.KanbanStore.TodoTasks` | front/src/stores/kanban.ts:9 | exactly the tasks of the list whose status is todo |
| `Kanban.KanbanStore.InProgressTasks` | front/src/stores/kanban.ts:10 | exactly the tasks of the list whose status is in-progress |
| `Kanban.KanbanStore.DoneTasks` | front/src/stores/kanban.ts:11 | exactly the tasks of the list whose status is done |
| `Kanban.KanbanStore.SaveTasks` | front/src/stores/kanban.ts:57-59 | the stored snapshot equals the current list |
| `Kanban.KanbanStore.AddTask` | front/src/stores/kanban.ts:13-23 | appends one todo task with id = old counter and the given title and description, earlier tasks unchanged; counter + 1; saved; keeps ids unique and below the counter |
| `Kanban.KanbanStore.MoveTask` | front/src/stores/kanban.ts:25-39 | unknown id: list and storage unchanged; otherwise only the status of the first task with the id becomes its one-step move, and the list is saved |
| `Kanban.KanbanStore.MoveTaskToColumn` | front/src/stores/kanban.ts:41-47 | unknown id: list and storage unchanged; otherwise only the status of the first task with the id becomes the given column, and the list is saved |
| `Kanban.KanbanStore.DeleteTask` | front/src/stores/kanban.ts:49-55 | unknown id: no change, no save; otherwise exactly the first task with the id is cut out, order of the rest kept, and the list is saved; with unique ids the id is gone |
| `Kanban.Seeded` | front/src/stores/kanban.ts:75-85 | three more tasks than before; the old tasks keep all fields but status; the samples have consecutive ids from the counter, their titles and descriptions; positions 1 and 2 are in-progress and done, every other position keeps its status (todo for samples) |
| `Kanban.SeededKeepsIds` | front/src/stores/kanban.ts:75-85 | seeding keeps ids unique and below the counter advanced by three |
| `Kanban.SeededFromEmpty` | front/src/stores/kanban.ts:75-85 | on an empty list the samples land in todo, in-progress and done, with ids n, n + 1, n + 2 |
| `Kanban.SeedingNonEmptyList` | front/src/stores/kanban.ts:80-85 | on a two-task list the caller's second task becomes in-progress, the first sample done, the other two samples stay todo |
| `Kanban.KanbanStore.LoadTasks` | front/src/stores/kanban.ts:61-88 | with a snapshot: the list becomes it and the counter goes above its ids when it is non-empty; without: the list becomes the seeded list, the counter advances by three, ids stay unique, and the list is saved; from an empty list that is one sample per column |
| `TaskModel.ValidStatuses` | back/app/Models/Task.php:46-53 | a status is in the list exactly when it is todo, in-progress or done |
| `TaskModel.ValidStatusesExact` | back/app/Models/Task.php:37-53 | the valid statuses are exactly todo, in-progress, done, in that order, and distinct |
| `TaskModel.Fill` | back/app/Models/Task.php:18-22 | mass assignment sets only title, description and status; id and both timestamps are kept |
| `TaskModel.FillIgnoresGuarded` | back/app/Models/Task.php:18-22 | a key outside the fillable list (such as id or created_at) has no effect |
| `TaskModel.ByStatus` | back/app/Models/Task.php:62-65 | keeps exactly the rows whose status equals the argument |
| `TaskModel.ByStatusConcat` | back/app/Models/Task.php:62-65 | the status scope distributes over concatenation, so it does not reorder rows |
| `TaskModel.ByStatusCount` | back/app/Models/Task.php:62-65 | every matching row is kept with its multiplicity, every other row dropped |
| `TaskModel.Insert` | back/app/Models/Task.php:73-76 | inserting into a newest-first sequence gives a newest-first sequence with one more row |
| `TaskModel.NewestFirst` | back/app/Models/Task.php:73-76 | the result is a permutation of the rows, ordered by created_at descending |
| `TaskModel.NewestFirstLength` | back/app/Models/Task.php:73-76 | ordering keeps the number of rows |
| `TaskServices.Truthy` | back/app/Services/TaskService.php:20 | a truthy status is a non-empty string; "0" is never truthy |
| `TaskServices.AppliesFilter` | back/app/Services/TaskService.php:20 | the status filter applies exactly when the status is todo, in-progress or done (the same rule as at line 37 and, for validity, in TaskController.php:33) |
| `TaskServices.Selected` | back/app/Services/TaskService.php:20-22 | with an applicable filter exactly the rows of that status; otherwise the whole table |
| `TaskServices.Coalesce` | back/app/Services/TaskService.php:54-55 | `??`: the input's value when present and non-null, else the fallback; never null when the fallback is not; the fallback when the key is missing |
| `TaskServices.UpdateAttributes` | back/app/Services/TaskService.php:68-72 | the update array never holds null for title or status |
| `TaskServices.Patched` | back/app/Services/TaskService.php:66-75 | each of title, description, status takes the input's non-null value, else keeps the old one; id and created_at kept; updated_at becomes now only if a field changed |
| `TaskServices.NullPatchKeepsRow` | back/app/Services/TaskService.php:69-71 | an input of only nulls (or no keys) leaves the row as it was: null never clears a field |
| `TaskServices.PatchIdempotent` | back/app/Services/TaskService.php:66-75 | applying the same input twice equals applying it once |
| `TaskServices.PatchRefreshesUpdatedAt` | back/app/Services/TaskService.php:68-74 | updated_at is set to now exactly when some field changes, and then strictly advances under a later clock |
| `TaskServices.WithRow` | back/app/Services/TaskService.php:68 | the UPDATE rewrites the rows with the id and leaves every other row as it was |
| `TaskServices.UpdateOneRow` | back/app/Services/TaskService.php:68 | with unique ids the UPDATE replaces exactly the one row with the id and keeps ids unique |
| `TaskServices.WithoutId` | back/app/Services/TaskService.php:85 | the DELETE keeps exactly the rows with another id |
| `TaskServices.DeleteUniqueRow` | back/app/Services/TaskService.php:83-86 | with unique ids the DELETE removes exactly the deleted row: one row fewer, the rest unchanged |
| `TaskServices.DeleteKeepsUnique` | back/app/Services/TaskService.php:85 | deleting keeps the ids unique |
| `TaskServices.TaskService.GetAllTasks` | back/app/Services/TaskService.php:16-25 | newest first; with a valid status exactly the rows of that status, with multiplicity; with null, empty or unknown status a permutation of the whole table |
| `TaskServices.TaskService.GetTasksCount` | back/app/Services/TaskService.php:33-42 | equals the length of the listing for the same status; the table size when no filter applies |
| `TaskServices.TaskService.GetValidStatuses` | back/app/Services/TaskService.php:93-96 | the model's list of valid statuses |
| `TaskServices.TaskService.CreateTask` | back/app/Services/TaskService.php:50-57 | appends one row: the title, the description or null, the status or todo, a fresh id, both timestamps now |
| `TaskServices.TaskService.UpdateTask` | back/app/Services/TaskService.php:66-75 | returns the stored row, which is the merge-patched row; only that row of the table changes |
| `TaskServices.TaskService.DeleteTask` | back/app/Services/TaskService.php:83-86 | returns true; no row with the id remains; the other rows are unchanged; ids stay unique |
| `TaskController.Index` | back/app/Http/Controllers/TaskController.php:27-50 | 400 with success false, the message and the valid statuses exactly when the status is truthy and not valid; otherwise 200 with success true, "Tasks retrieved successfully", the service's listing and count = its length |
| `TaskController.IndexValidStatus` | back/app/Http/Controllers/TaskController.php:42-49 | a valid status lists exactly the rows of that status, newest first, with the service's count |
| `TaskController.IndexNoStatus` | back/app/Http/Controllers/TaskController.php:42-49 | without a status all rows are listed; on an empty table the answer is success with empty data and count 0 |
| `TaskController.StricterThanService` | back/app/Http/Controllers/TaskController.php:33-39 | an unknown non-empty status is refused with 400 while the service would list the whole table |
| `TaskController.ZeroStatusListsAll` | back/app/Http/Controllers/TaskController.php:33 | the status "0" is falsy, passes validation and lists every row |

## Left out

- JSON serialisation, the `localStorage` API and the re-creation of `Date` objects on load: a snapshot is the list value itself.
- Laravel's query builder, SQL and `fresh()` round trips: the table is a sequence, the scopes are functions, and `fresh()` returns the stored row.
- Pinia/Vue reactivity (`ref`, `computed`, `defineStore`): the views are functions of the current list.
- `new Date()` and `now()`: clock readings are parameters. `Kanban.KanbanStore.LoadTasks` gives all three sample tasks the same reading, where the source reads the clock three times.
- Object identity of client tasks: `find` returns a shared object that the source mutates in place; the model rewrites the element of the list, which is the same observable change because no other alias is kept.
- `Math.max(...ids)` on very long lists (a JavaScript argument-count limit) and ids that are not integers.
- The HTTP request and route-model binding: `index` receives the status query parameter as an optional string (array-valued parameters are not modelled), and `updateTask`/`deleteTask` receive a row that exists in the table.
- TaskServices.TaskService.CreateTask: a present, non-null title is the caller's duty (request validation before the service is called supplies it); the undefined-key error on a missing title and the database refusal of a null title are not modelled.
- Persistence failures and the `deleting` model event, which could make `delete()` return false.
- back/app/Http/Controllers/API/UserController.php, the empty controller actions (`create`, `store`, `show`, `edit`, `update`, `destroy`), routes and seeders are not part of this model.
