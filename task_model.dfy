/**
 * The server's Task model (back/app/Models/Task.php): the status constants, the
 * mass-assignable attributes, and the two query scopes, as functions over rows.
 */
module TaskModel {
  import opened Wrappers

  const STATUS_TODO: string := "todo"
  const STATUS_IN_PROGRESS: string := "in-progress"
  const STATUS_DONE: string := "done"

  /** `Task::getValidStatuses()`: the three statuses, in board order. */
  function ValidStatuses(): (r: seq<string>)
    ensures forall s :: s in r <==> s == STATUS_TODO || s == STATUS_IN_PROGRESS || s == STATUS_DONE
  {
    [STATUS_TODO, STATUS_IN_PROGRESS, STATUS_DONE]
  }

  /** The valid statuses are exactly the three constants, in that order, and distinct. */
  lemma ValidStatusesExact()
    ensures |ValidStatuses()| == 3
    ensures ValidStatuses()[0] == STATUS_TODO && ValidStatuses()[1] == STATUS_IN_PROGRESS
            && ValidStatuses()[2] == STATUS_DONE
    ensures forall i, j :: 0 <= i < j < |ValidStatuses()| ==> ValidStatuses()[i] != ValidStatuses()[j]
  {
  }

  /**
   * A row of the `tasks` table. The status column is free text: only the HTTP layer
   * restricts it. Timestamps are abstract clock readings.
   */
  datatype Task = Task(
    id: nat,
    title: string,
    description: Option<string>,
    status: string,
    createdAt: int,
    updatedAt: int)

  /** An attribute array as passed to `create`/`update`: a missing key differs from null. */
  type Attributes = map<string, Option<string>>

  /** `$fillable`: the only attributes mass assignment may set. */
  const Fillable: seq<string> := ["title", "description", "status"]

  /** The NOT NULL columns get no null from the attribute array. */
  predicate NonNullColumns(attrs: Attributes)
  {
    ("title" in attrs ==> attrs["title"].Some?) && ("status" in attrs ==> attrs["status"].Some?)
  }

  /**
   * Mass assignment (`fill`): takes the fillable keys present in `attrs` and ignores
   * every other key, so id and timestamps never come from input data.
   */
  function Fill(row: Task, attrs: Attributes): (r: Task)
    requires NonNullColumns(attrs)
    ensures r.id == row.id && r.createdAt == row.createdAt && r.updatedAt == row.updatedAt
    ensures r.title == if "title" in attrs then attrs["title"].value else row.title
    ensures r.description == if "description" in attrs then attrs["description"] else row.description
    ensures r.status == if "status" in attrs then attrs["status"].value else row.status
  {
    var title := if Fillable[0] in attrs then attrs[Fillable[0]].value else row.title;
    var description := if Fillable[1] in attrs then attrs[Fillable[1]] else row.description;
    var status := if Fillable[2] in attrs then attrs[Fillable[2]].value else row.status;
    row.(title := title, description := description, status := status)
  }

  /** A key outside `$fillable` (such as "id" or "created_at") has no effect on `fill`. */
  lemma FillIgnoresGuarded(row: Task, attrs: Attributes, key: string, v: Option<string>)
    requires NonNullColumns(attrs) && key !in Fillable
    ensures NonNullColumns(attrs[key := v])
    ensures Fill(row, attrs[key := v]) == Fill(row, attrs)
  {
  }

  /** `scopeByStatus`: the rows whose status equals `status`, in their original order. */
  function ByStatus(rows: seq<Task>, status: string): (r: seq<Task>)
    ensures |r| <= |rows|
    ensures forall t :: t in r <==> t in rows && t.status == status
  {
    if rows == [] then []
    else (if rows[0].status == status then [rows[0]] else []) + ByStatus(rows[1..], status)
  }

  /** The scope never reorders: it distributes over concatenation. */
  lemma {:induction false} ByStatusConcat(a: seq<Task>, b: seq<Task>, status: string)
    ensures ByStatus(a + b, status) == ByStatus(a, status) + ByStatus(b, status)
  {
    if a == [] {
      assert a + b == b;
    } else {
      assert (a + b)[1..] == a[1..] + b;
      ByStatusConcat(a[1..], b, status);
    }
  }

  /** The scope keeps every matching row with its multiplicity. */
  lemma {:induction false} ByStatusCount(rows: seq<Task>, status: string, t: Task)
    ensures multiset(ByStatus(rows, status))[t] == if t.status == status then multiset(rows)[t] else 0
  {
    if rows != [] {
      ByStatusCount(rows[1..], status, t);
      assert rows == [rows[0]] + rows[1..];
    }
  }

  /** Newest first: `created_at` never increases along the sequence. */
  predicate NewestFirstOrder(s: seq<Task>)
  {
    forall i, j :: 0 <= i < j < |s| ==> s[i].createdAt >= s[j].createdAt
  }

  /** Inserts `t` into a newest-first sequence, before every row no newer than it. */
  function Insert(t: Task, s: seq<Task>): (r: seq<Task>)
    requires NewestFirstOrder(s)
    ensures NewestFirstOrder(r)
    ensures multiset(r) == multiset(s) + multiset{t}
    ensures forall x :: x in r ==> x == t || x in s
  {
    if s == [] || t.createdAt >= s[0].createdAt then [t] + s
    else
      var rest := Insert(t, s[1..]);
      assert s == [s[0]] + s[1..];
      HeadBoundsRest(s[0], rest, t, s[1..]);
      [s[0]] + rest
  }

  /** A head no older than every row of a newest-first tail keeps the whole sequence newest first. */
  lemma HeadBoundsRest(h: Task, rest: seq<Task>, t: Task, tail: seq<Task>)
    requires NewestFirstOrder(rest)
    requires forall x :: x in rest ==> x == t || x in tail
    requires h.createdAt > t.createdAt && forall x :: x in tail ==> h.createdAt >= x.createdAt
    ensures NewestFirstOrder([h] + rest)
  {
  }

  /**
   * `scopeNewestFirst` (`orderBy('created_at', 'desc')`): a permutation of the rows,
   * newest first. Rows with equal timestamps keep their table order here; the
   * database promises no order among them.
   */
  function NewestFirst(rows: seq<Task>): (r: seq<Task>)
    ensures NewestFirstOrder(r)
    ensures multiset(r) == multiset(rows)
  {
    if rows == [] then []
    else
      assert rows == [rows[0]] + rows[1..];
      Insert(rows[0], NewestFirst(rows[1..]))
  }

  /** Sorting never loses or invents a row, so it keeps the length. */
  lemma NewestFirstLength(rows: seq<Task>)
    ensures |NewestFirst(rows)| == |rows|
  {
    assert |multiset(NewestFirst(rows))| == |multiset(rows)|;
  }
}
