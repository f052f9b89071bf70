/** The HTTP handlers for tasks. Each looks the task up among the caller's
    own tasks, checks its guards in order and applies one partial update
    to the tasks table. These handlers do not go through `TaskService`:
    the cancel handler leaves any execution unit alone, and the retry
    handler keeps the task's server. Every handler takes the table and
    returns its reply together with the table after the request. */
module TaskRoutes {
  import opened Models
  import Helpers
  import TaskServiceModel

  const NotFound := "任务不存在"
  const NoBalance := "余额不足，请先充值"
  const TooManyRunning := "并发任务数量已达上限，请等待现有任务完成"
  const UpdateRefused := "任务正在运行或已完成，无法修改"
  const CancelRefused := "任务已完成或已取消，无法再次取消"
  const RetryRefused := "只有失败或已取消的任务才能重新运行"
  const DeleteRefused := "正在运行的任务无法删除，请先取消任务"
  const CreateFailed := "创建任务失败"
  const ListFailed := "获取任务列表失败"
  const DetailFailed := "获取任务详情失败"
  const UpdateFailed := "更新任务失败"
  const RetryFailed := "重新运行任务失败"

  /** Running tasks a user may have at once. */
  const MaxRunningPerUser: nat := 5

  /** The lookup every handler starts with: the task exists and belongs
      to the caller. */
  predicate Owned(tasks: map<TaskId, Task>, id: TaskId, uid: UserId) {
    id in tasks && tasks[id].userId == uid
  }

  predicate MayUpdate(st: TaskStatus) { st != Running && st != Completed }
  predicate MayCancel(st: TaskStatus) { !IsTerminal(st) }
  predicate MayRetry(st: TaskStatus) { st == Failed || st == Cancelled }
  predicate MayDelete(st: TaskStatus) { st != Running }

  /** The caller passes the balance check and the concurrency cap of
      `create_task`. */
  predicate MayCreate(tasks: map<TaskId, Task>, caller: User) {
    && !(caller.balance.Some? && caller.balance.value <= 0.0)
    && |RunningTasksOf(tasks, caller.id)| < MaxRunningPerUser
  }

  // ---------------------------------------------------------------------
  // POST /tasks

  /** `create_task`: refused for a caller whose balance is set and not
      positive, then for a caller with five or more running tasks;
      otherwise a pending task with progress 0 is inserted under the fresh
      id `id`. The request itself carries no bounds: the inserted row is
      rebuilt as a `Task` record only after the insert, so a title, type or
      priority out of the record's bounds is stored and answered with 500,
      and every later read of that task answers 500 too. */
  method CreateTask(tasks: map<TaskId, Task>, caller: User, id: TaskId, request: TaskCreate, now: Time)
    returns (r: Reply<Task>, tasks': map<TaskId, Task>)
    requires id !in tasks
    ensures caller.balance.Some? && caller.balance.value <= 0.0 ==>
              r == HttpError(400, NoBalance) && tasks' == tasks
    ensures !(caller.balance.Some? && caller.balance.value <= 0.0) && |RunningTasksOf(tasks, caller.id)| >= MaxRunningPerUser ==>
              r == HttpError(429, TooManyRunning) && tasks' == tasks
    ensures MayCreate(tasks, caller) ==>
              && tasks' == tasks[id := NewTask(id, caller.id, request, now)]
              && RunningTasksOf(tasks', caller.id) == RunningTasksOf(tasks, caller.id)
    ensures MayCreate(tasks, caller) && !ValidTaskFields(request.title, request.taskType, request.priority) ==>
              r == HttpError(500, CreateFailed) && GetTask(tasks', caller.id, id) == HttpError(500, DetailFailed)
    ensures r.Ok? <==> MayCreate(tasks, caller) && ValidTaskFields(request.title, request.taskType, request.priority)
    ensures r.Ok? ==> && r.value.status == Pending && r.value.progress == 0
                      && r.value.userId == caller.id && r.value.title == request.title
                      && r.value.taskType == request.taskType && r.value.priority == request.priority
                      && GetTask(tasks', caller.id, id) == r
  {
    if caller.balance.Some? && caller.balance.value <= 0.0 {
      return HttpError(400, NoBalance), tasks;
    }
    var running := RunningTasksOf(tasks, caller.id);
    if |running| >= MaxRunningPerUser {
      return HttpError(429, TooManyRunning), tasks;
    }
    var task := NewTask(id, caller.id, request, now);
    tasks' := tasks[id := task];
    assert RunningTasksOf(tasks', caller.id) == running;
    if !TaskRecordValid(task) {
      return HttpError(500, CreateFailed), tasks';
    }
    r := Ok(task);
  }

  // ---------------------------------------------------------------------
  // GET /tasks

  /** The caller's tasks matching the optional filters, in the store's
      order. An empty filter string is no filter. */
  predicate Matches(t: Task, uid: UserId, status: Option<string>, taskType: Option<string>) {
    && t.userId == uid
    && (status.None? || status.value == "" || StatusName(t.status) == status.value)
    && (taskType.None? || taskType.value == "" || t.taskType == taskType.value)
  }

  function MatchingTasks(rows: seq<Task>, uid: UserId, status: Option<string>, taskType: Option<string>)
    : (r: seq<Task>)
    ensures |r| <= |rows|
    ensures forall t :: t in r <==> t in rows && Matches(t, uid, status, taskType)
  {
    if rows == [] then []
    else
      var rest := MatchingTasks(rows[1..], uid, status, taskType);
      if Matches(rows[0], uid, status, taskType) then [rows[0]] + rest else rest
  }

  /** The filter keeps the store's order: filtering two runs of rows one
      after the other is filtering each and concatenating. */
  lemma {:induction false} MatchingTasksAppend(a: seq<Task>, b: seq<Task>, uid: UserId, status: Option<string>, taskType: Option<string>)
    ensures MatchingTasks(a + b, uid, status, taskType) == MatchingTasks(a, uid, status, taskType) + MatchingTasks(b, uid, status, taskType)
    decreases |a|
  {
    if a == [] {
      assert a + b == b;
    } else {
      assert (a + b)[0] == a[0];
      assert (a + b)[1..] == a[1..] + b;
      MatchingTasksAppend(a[1..], b, uid, status, taskType);
    }
  }

  /** A single row is kept exactly when it matches. */
  lemma MatchingTasksSingle(t: Task, uid: UserId, status: Option<string>, taskType: Option<string>)
    ensures MatchingTasks([t], uid, status, taskType) == if Matches(t, uid, status, taskType) then [t] else []
  {
    assert [t][1..] == [];
  }

  /** The rows of `matching` that the page starting at `offset` shows
      are all within the record bounds. */
  predicate WindowValid(matching: seq<Task>, offset: nat, pageSize: int) {
    forall k :: offset <= k < |matching| && k < offset + pageSize ==> TaskRecordValid(matching[k])
  }

  /** `get_tasks`: `rows` is the tasks table in the requested sort order.
      The count and the page are taken over the same filtered rows; the
      page is the inclusive range `offset .. offset + page_size - 1`. Every
      row of the page is rebuilt as a `Task` record, so one row out of the
      record's bounds turns the whole answer into 500. */
  function GetTasks(rows: seq<Task>, uid: UserId, page: int, pageSize: int,
                    status: Option<string>, taskType: Option<string>): (r: Reply<Helpers.Page<Task>>)
    requires page >= 1 && 1 <= pageSize <= 100
    ensures var matching := MatchingTasks(rows, uid, status, taskType);
      var offset := Helpers.Offset(page, pageSize);
      && (r.Ok? <==> WindowValid(matching, offset, pageSize))
      && (!r.Ok? ==> r == HttpError(500, ListFailed))
      && (r.Ok? ==>
            && r.value.total == |matching|
            && r.value.totalPages == Helpers.CeilDiv(r.value.total, pageSize)
            && |r.value.items| <= pageSize
            && (offset >= r.value.total ==> r.value.items == [])
            && (offset < r.value.total ==> |r.value.items| == Helpers.Min(pageSize, r.value.total - offset))
            && (forall k :: 0 <= k < |r.value.items| ==> r.value.items[k] == matching[offset + k]))
    ensures r.Ok? ==> forall t :: t in r.value.items ==> t in rows && Matches(t, uid, status, taskType) && TaskRecordValid(t)
  {
    var matching := MatchingTasks(rows, uid, status, taskType);
    var offset := Helpers.Offset(page, pageSize);
    var listing := Helpers.PageOf(matching, page, pageSize);
    if !WindowValid(matching, offset, pageSize) then HttpError(500, ListFailed)
    else
      assert forall t :: t in listing.items ==> t in rows && Matches(t, uid, status, taskType) && TaskRecordValid(t) by {
        forall t | t in listing.items ensures t in rows && Matches(t, uid, status, taskType) && TaskRecordValid(t) {
          assert t in matching;
          var k :| 0 <= k < |listing.items| && listing.items[k] == t;
          assert t == matching[offset + k];
        }
      }
      Ok(listing)
  }

  // ---------------------------------------------------------------------
  // GET/PUT/cancel/retry/DELETE /tasks/{id}

  /** `get_task`: the caller's own task, rebuilt as a `Task` record. */
  function GetTask(tasks: map<TaskId, Task>, caller: UserId, id: TaskId): (r: Reply<Task>)
    ensures r.Ok? <==> Owned(tasks, id, caller) && TaskRecordValid(tasks[id])
    ensures r.Ok? ==> r.value == tasks[id]
    ensures !Owned(tasks, id, caller) ==> r == HttpError(404, NotFound)
    ensures Owned(tasks, id, caller) && !TaskRecordValid(tasks[id]) ==> r == HttpError(500, DetailFailed)
  {
    if !Owned(tasks, id, caller) then HttpError(404, NotFound)
    else if !TaskRecordValid(tasks[id]) then HttpError(500, DetailFailed)
    else Ok(tasks[id])
  }

  /** `update_task`: builds the update field by field from the supplied
      values and applies it, for a task that is neither running nor
      completed. The written row is then rebuilt as a `Task` record; a row
      out of the record's bounds stays written and the answer is 500. */
  method UpdateTask(tasks: map<TaskId, Task>, caller: UserId, id: TaskId, request: TaskEdits, now: Time)
    returns (r: Reply<Task>, tasks': map<TaskId, Task>)
    ensures !Owned(tasks, id, caller) ==> r == HttpError(404, NotFound) && tasks' == tasks
    ensures Owned(tasks, id, caller) && !MayUpdate(tasks[id].status) ==> r == HttpError(400, UpdateRefused) && tasks' == tasks
    ensures Owned(tasks, id, caller) && MayUpdate(tasks[id].status) ==>
              tasks' == tasks[id := ApplyTaskEdits(tasks[id], request, now)]
    ensures Owned(tasks, id, caller) && MayUpdate(tasks[id].status) && !TaskRecordValid(tasks'[id]) ==>
              r == HttpError(500, UpdateFailed) && GetTask(tasks', caller, id) == HttpError(500, DetailFailed)
    ensures r.Ok? <==> Owned(tasks, id, caller) && MayUpdate(tasks[id].status)
                       && TaskRecordValid(ApplyTaskEdits(tasks[id], request, now))
    ensures r.Ok? ==> r.value == ApplyTaskEdits(tasks[id], request, now) && GetTask(tasks', caller, id) == r
  {
    if !Owned(tasks, id, caller) {
      return HttpError(404, NotFound), tasks;
    }
    var t := tasks[id];
    if t.status == Running || t.status == Completed {
      return HttpError(400, UpdateRefused), tasks;
    }
    var updated := t.(updatedAt := Some(now));
    if request.title.Some? {
      updated := updated.(title := request.title.value);
    }
    if request.description.Some? {
      updated := updated.(description := request.description);
    }
    if request.priority.Some? {
      updated := updated.(priority := request.priority.value);
    }
    if request.config.Some? {
      updated := updated.(config := request.config);
    }
    tasks' := tasks[id := updated];
    if !TaskRecordValid(updated) {
      return HttpError(500, UpdateFailed), tasks';
    }
    r := Ok(updated);
  }

  /** `cancel_task` (the handler): a pending or running task of the
      caller is marked cancelled; `_running_tasks` is not touched. */
  method CancelTask(tasks: map<TaskId, Task>, caller: UserId, id: TaskId, now: Time)
    returns (r: Reply<()>, tasks': map<TaskId, Task>)
    ensures !Owned(tasks, id, caller) ==> r == HttpError(404, NotFound) && tasks' == tasks
    ensures Owned(tasks, id, caller) && !MayCancel(tasks[id].status) ==> r == HttpError(400, CancelRefused) && tasks' == tasks
    ensures r.Ok? <==> Owned(tasks, id, caller) && MayCancel(tasks[id].status)
    ensures r.Ok? ==> && tasks' == tasks[id := TaskServiceModel.MarkCancelled(tasks[id], now)]
                      && (tasks[id].status == Pending || tasks[id].status == Running)
                      && tasks'[id].status == Cancelled && tasks'[id].progress == tasks[id].progress
  {
    if !Owned(tasks, id, caller) {
      return HttpError(404, NotFound), tasks;
    }
    if IsTerminal(tasks[id].status) {
      return HttpError(400, CancelRefused), tasks;
    }
    tasks' := tasks[id := TaskServiceModel.MarkCancelled(tasks[id], now)];
    r := Ok(());
  }

  /** `retry_task`: a failed or cancelled task of the caller is reset to
      pending with progress 0 and without error, result, start or end;
      every other field, the assigned server included, is kept. The reset
      row is rebuilt as a `Task` record, so a task stored out of the
      record's bounds is reset and answered with 500. */
  method RetryTask(tasks: map<TaskId, Task>, caller: UserId, id: TaskId, now: Time)
    returns (r: Reply<Task>, tasks': map<TaskId, Task>)
    ensures !Owned(tasks, id, caller) ==> r == HttpError(404, NotFound) && tasks' == tasks
    ensures Owned(tasks, id, caller) && !MayRetry(tasks[id].status) ==> r == HttpError(400, RetryRefused) && tasks' == tasks
    ensures Owned(tasks, id, caller) && MayRetry(tasks[id].status) ==>
              tasks' == tasks[id := tasks[id].(status := Pending, progress := 0, errorMessage := None, result := None,
                                               startedAt := None, completedAt := None, updatedAt := Some(now))]
    ensures Owned(tasks, id, caller) && MayRetry(tasks[id].status) && !TaskRecordValid(tasks[id]) ==>
              r == HttpError(500, RetryFailed)
    ensures r.Ok? <==> Owned(tasks, id, caller) && MayRetry(tasks[id].status) && TaskRecordValid(tasks[id])
    ensures r.Ok? ==> && tasks' == tasks[id := r.value]
                      && GetTask(tasks', caller, id) == r
                      && r.value.status == Pending && r.value.progress == 0
                      && r.value.errorMessage.None? && r.value.result.None?
                      && r.value.startedAt.None? && r.value.completedAt.None?
                      && r.value.updatedAt == Some(now)
                      && r.value == tasks[id].(status := Pending, progress := 0, errorMessage := None, result := None,
                                               startedAt := None, completedAt := None, updatedAt := Some(now))
  {
    if !Owned(tasks, id, caller) {
      return HttpError(404, NotFound), tasks;
    }
    var t := tasks[id];
    if t.status != Failed && t.status != Cancelled {
      return HttpError(400, RetryRefused), tasks;
    }
    var reset := t.(status := Pending, progress := 0, errorMessage := None, result := None,
                    startedAt := None, completedAt := None, updatedAt := Some(now));
    tasks' := tasks[id := reset];
    if !TaskRecordValid(reset) {
      return HttpError(500, RetryFailed), tasks';
    }
    r := Ok(reset);
  }

  /** `delete_task` (the handler): any task of the caller that is not
      running is removed. */
  method DeleteTask(tasks: map<TaskId, Task>, caller: UserId, id: TaskId)
    returns (r: Reply<()>, tasks': map<TaskId, Task>)
    ensures !Owned(tasks, id, caller) ==> r == HttpError(404, NotFound) && tasks' == tasks
    ensures Owned(tasks, id, caller) && !MayDelete(tasks[id].status) ==> r == HttpError(400, DeleteRefused) && tasks' == tasks
    ensures r.Ok? <==> Owned(tasks, id, caller) && MayDelete(tasks[id].status)
    ensures r.Ok? ==> tasks' == tasks - {id} && |tasks'| == |tasks| - 1
  {
    if !Owned(tasks, id, caller) {
      return HttpError(404, NotFound), tasks;
    }
    if tasks[id].status == Running {
      return HttpError(400, DeleteRefused), tasks;
    }
    tasks' := tasks - {id};
    r := Ok(());
  }

  /** No more running tasks for a user after a write than before. */
  predicate NoMoreRunning(before: map<TaskId, Task>, after: map<TaskId, Task>, uid: UserId) {
    && RunningTasksOf(after, uid) <= RunningTasksOf(before, uid)
    && |RunningTasksOf(after, uid)| <= |RunningTasksOf(before, uid)|
  }

  /** A subset of a user's running tasks is no larger. */
  lemma RunningSubset(before: map<TaskId, Task>, after: map<TaskId, Task>, uid: UserId)
    requires RunningTasksOf(after, uid) <= RunningTasksOf(before, uid)
    ensures NoMoreRunning(before, after, uid)
  {
    var sub, sup := RunningTasksOf(after, uid), RunningTasksOf(before, uid);
    assert sup == sub + (sup - sub);
  }

  /** None of the handlers but create adds a running task: the tables
      that update, cancel, retry and delete leave behind hold, for every
      user, a subset of that user's running tasks, so never more of them.
      A user below the cap of five running tasks stays below it. */
  lemma {:induction false} HandlersNeverAddRunning(tasks: map<TaskId, Task>, caller: UserId, id: TaskId, request: TaskEdits, now: Time, uid: UserId)
    requires Owned(tasks, id, caller)
    ensures MayUpdate(tasks[id].status) ==>
              NoMoreRunning(tasks, tasks[id := ApplyTaskEdits(tasks[id], request, now)], uid)
    ensures NoMoreRunning(tasks, tasks[id := TaskServiceModel.MarkCancelled(tasks[id], now)], uid)
    ensures NoMoreRunning(tasks, tasks[id := tasks[id].(status := Pending, progress := 0, errorMessage := None, result := None,
                                                        startedAt := None, completedAt := None, updatedAt := Some(now))], uid)
    ensures NoMoreRunning(tasks, tasks - {id}, uid)
    ensures |RunningTasksOf(tasks, uid)| < MaxRunningPerUser ==>
              |RunningTasksOf(tasks[id := TaskServiceModel.MarkCancelled(tasks[id], now)], uid)| < MaxRunningPerUser
              && |RunningTasksOf(tasks - {id}, uid)| < MaxRunningPerUser
  {
    if MayUpdate(tasks[id].status) {
      RunningSubset(tasks, tasks[id := ApplyTaskEdits(tasks[id], request, now)], uid);
    }
    RunningSubset(tasks, tasks[id := TaskServiceModel.MarkCancelled(tasks[id], now)], uid);
    RunningSubset(tasks, tasks[id := tasks[id].(status := Pending, progress := 0, errorMessage := None, result := None,
                                                startedAt := None, completedAt := None, updatedAt := Some(now))], uid);
    RunningSubset(tasks, tasks - {id}, uid);
  }
}
