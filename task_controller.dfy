/**
 * The listing action of TaskController
 * (back/app/Http/Controllers/TaskController.php, `index`): validates the optional
 * status query parameter and shapes the JSON response.
 */
module TaskController {
  import opened Wrappers
  import opened TaskModel
  import opened TaskServices

  /** The two JSON bodies `index` can answer with. */
  datatype Response =
    | TaskList(success: bool, message: string, data: seq<Task>, count: nat)
    | InvalidStatus(success: bool, message: string, validStatuses: seq<string>)
  {
    /** The HTTP status code sent with the body. */
    function Code(): int
    {
      if TaskList? then 200 else 400
    }
  }

  const SuccessMessage: string := "Tasks retrieved successfully"
  const InvalidStatusMessage: string := "Invalid status provided"

  /**
   * `index(?status=...)`: a truthy status outside the valid list is refused with 400
   * and the list of valid statuses, before any task is read; otherwise the service's
   * listing is returned with its count.
   */
  function Index(service: TaskService, status: Option<string>): (r: Response)
    reads service
    ensures r.InvalidStatus? <==> Truthy(status) && status.value !in ValidStatuses()
    ensures r.InvalidStatus? ==>
      r.Code() == 400 && !r.success && r.message == InvalidStatusMessage
      && r.validStatuses == ValidStatuses()
    ensures r.TaskList? ==>
      r.Code() == 200 && r.success && r.message == SuccessMessage
      && r.data == service.GetAllTasks(status) && r.count == |r.data|
  {
    if Truthy(status) && status.value !in service.GetValidStatuses() then
      InvalidStatus(false, InvalidStatusMessage, service.GetValidStatuses())
    else
      var tasks := service.GetAllTasks(status);
      TaskList(true, SuccessMessage, tasks, |tasks|)
  }

  /** A valid status lists exactly the rows of that status, newest first, with their count. */
  lemma IndexValidStatus(service: TaskService, s: string)
    requires s in ValidStatuses()
    ensures Index(service, Some(s)).TaskList?
    ensures forall t :: t in Index(service, Some(s)).data <==> t in service.table && t.status == s
    ensures Index(service, Some(s)).count == service.GetTasksCount(Some(s))
    ensures NewestFirstOrder(Index(service, Some(s)).data)
  {
  }

  /** Without a status, every row is listed: a permutation of the table, newest first. */
  lemma IndexNoStatus(service: TaskService)
    ensures Index(service, None).TaskList?
    ensures multiset(Index(service, None).data) == multiset(service.table)
    ensures Index(service, None).count == |service.table|
    ensures service.table == [] ==> Index(service, None) == TaskList(true, SuccessMessage, [], 0)
  {
  }

  /**
   * The controller is stricter than the service: an unknown status that the service
   * would silently ignore (returning every row) is refused here.
   */
  lemma StricterThanService(service: TaskService, s: string)
    requires s != "" && s != "0" && s !in ValidStatuses()
    ensures Index(service, Some(s)).Code() == 400
    ensures multiset(service.GetAllTasks(Some(s))) == multiset(service.table)
  {
  }

  /**
   * The status "0" is falsy in PHP, so it passes validation although it is no valid
   * status, and the service then ignores it: every row is listed.
   */
  lemma ZeroStatusListsAll(service: TaskService)
    ensures Index(service, Some("0")).TaskList?
    ensures multiset(Index(service, Some("0")).data) == multiset(service.table)
  {
  }
}
