/** The task lifecycle supervisor (`TaskService`).

    Every store call of the service is synchronous; the only points where
    other work can run are the sleeps inside the step loops and the wait
    for the execution unit. The behaviour therefore splits into atomic
    events, one method each:
      - CreateTask   inserts a pending task;
      - ScheduleTask runs the scheduler up to the start of execution;
      - StepTask     is one resumption of the execution unit (the sleep of
                     a step ends, progress is written, and the run either
                     completes, fails, or waits in the next sleep);
      - FinishTask   is the scheduler's resumption once its unit has
                     ended: its handler writes the failure a second time
                     and its `finally` removes the task from
                     `_running_tasks`. Until then an ended unit stays
                     registered although its task is stored completed or
                     failed;
      - CancelTask, DeleteTask, UpdateTask, StopAllTasks, GetTask,
        GetRunningTasks are the requests.
    `runningTasks` is `_running_tasks`: for each registered task, the
    execution unit it holds, described by where that unit waits. Removing
    an entry is also cancelling its unit: the cancellation is delivered at
    the unit's next resumption, which then writes nothing. */
module TaskServiceModel {
  import opened Models
  import GpuService

  /** Steps of the three execution routines; None for any other type. */
  function TotalSteps(taskType: string): (n: Option<nat>)
    ensures taskType == "training" ==> n == Some(100)
    ensures taskType == "inference" ==> n == Some(50)
    ensures taskType == "data_processing" ==> n == Some(20)
    ensures n.Some? <==> taskType in ["training", "inference", "data_processing"]
    ensures n.Some? ==> n.value == 100 || n.value == 50 || n.value == 20
  {
    if taskType == "training" then Some(100)
    else if taskType == "inference" then Some(50)
    else if taskType == "data_processing" then Some(20)
    else None
  }

  /** Progress written once `done` of `total` steps have run:
      `done / total * 100`, an exact integer for every step count in use. */
  function StepProgress(done: nat, total: nat): (p: int)
    requires total == 100 || total == 50 || total == 20
    ensures p * total == done * 100
    ensures done <= total ==> 0 <= p <= 100
    ensures p == 100 <==> done == total
  {
    ExactPercent(done, total);
    done * 100 / total
  }

  lemma ExactPercent(done: nat, total: nat)
    requires total == 100 || total == 50 || total == 20
    ensures (done * 100 / total) * total == done * 100
  {
    if total == 100 {
      assert done * 100 / 100 == done;
    } else if total == 50 {
      assert done * 100 == (2 * done) * 50;
      assert done * 100 / 50 == 2 * done;
    } else {
      assert done * 100 == (5 * done) * 20;
      assert done * 100 / 20 == 5 * done;
    }
  }

  /** Each step writes a strictly larger progress than the one before. */
  lemma StepProgressIncreases(done: nat, total: nat)
    requires total == 100 || total == 50 || total == 20
    ensures StepProgress(done, total) < StepProgress(done + 1, total)
  {
    var p, q := StepProgress(done, total), StepProgress(done + 1, total);
    assert p * total < q * total;
  }

  function UnsupportedTypeMessage(taskType: string): string {
    "不支持的任务类型: " + taskType
  }

  const UpdateRefusedMessage: string := "任务正在运行或已完成，无法更新"
  const DeleteRefusedMessage: string := "正在运行的任务无法删除"
  /** What reading `update_data.priority` raises: `TaskUpdate` has no such field. */
  const MissingPriorityMessage: string := "'TaskUpdate' object has no attribute 'priority'"

  // The writes of `_update_task_status` / `_update_task_progress`.

  function MarkRunning(t: Task, sid: ServerId, now: Time): Task {
    t.(status := Running, gpuServerId := Some(sid), startedAt := Some(now), updatedAt := Some(now))
  }

  function WithProgress(t: Task, p: int, now: Time): Task {
    t.(progress := p, updatedAt := Some(now))
  }

  function MarkCompleted(t: Task, now: Time): Task {
    t.(status := Completed, progress := 100, completedAt := Some(now), updatedAt := Some(now))
  }

  function MarkFailed(t: Task, msg: string, now: Time): Task {
    t.(status := Failed, errorMessage := Some(msg), completedAt := Some(now), updatedAt := Some(now))
  }

  function MarkCancelled(t: Task, now: Time): Task {
    t.(status := Cancelled, updatedAt := Some(now))
  }

  /** The execution unit registered for a task: the routine it runs, the
      server it was given, and the step whose sleep it waits in (for an
      unsupported type: not started yet, step 0). `ended` is set once the
      unit has written its final row and only the scheduler's cleanup is
      left to run. */
  datatype Handle = Handle(taskType: string, serverId: ServerId, step: nat, ended: bool)

  predicate HandleOk(h: Handle) {
    match TotalSteps(h.taskType)
    case Some(n) => h.step < n
    case None => h.step == 0
  }

  /** Progress the stored task carries while its unit waits at `h`. */
  function HandleProgress(h: Handle): int
    requires HandleOk(h)
  {
    match TotalSteps(h.taskType)
    case Some(n) => StepProgress(h.step, n)
    case None => 0
  }

  /** While a unit waits in a step, its task is stored as running on the
      unit's server with the progress of the steps done so far; once the
      unit has ended, the task is stored completed with progress 100, or
      failed with the unsupported-type message. */
  predicate Tracks(t: Task, h: Handle)
    requires HandleOk(h)
  {
    && t.gpuServerId == Some(h.serverId)
    && (!h.ended ==> t.status == Running && t.progress == HandleProgress(h))
    && (h.ended && TotalSteps(h.taskType).Some? ==> t.status == Completed && t.progress == 100)
    && (h.ended && TotalSteps(h.taskType).None? ==>
          t.status == Failed && t.errorMessage == Some(UnsupportedTypeMessage(h.taskType)))
  }

  /** The row written by one resumption of a unit waiting at `h`:
      - unsupported type: the routine raises before any step and
        `_execute_task`'s handler writes the failed status;
      - otherwise the current step's sleep ends and its progress is
        written; after the last step the task is completed with progress
        100. */
  function StepWrite(t: Task, h: Handle, now: Time): Task
    requires HandleOk(h)
  {
    match TotalSteps(h.taskType)
    case None => MarkFailed(t, UnsupportedTypeMessage(h.taskType), now)
    case Some(n) =>
      var stepped := WithProgress(t, StepProgress(h.step + 1, n), now);
      if h.step + 1 == n then MarkCompleted(stepped, now) else stepped
  }

  /** Where the unit waits after the resumption; None when it has ended. */
  function NextHandle(h: Handle): (r: Option<Handle>)
    requires HandleOk(h)
    ensures r.Some? ==> HandleOk(r.value) && r.value.taskType == h.taskType && r.value.serverId == h.serverId
    ensures r.Some? <==> TotalSteps(h.taskType).Some? && h.step + 1 < TotalSteps(h.taskType).value
  {
    match TotalSteps(h.taskType)
    case None => None
    case Some(n) => if h.step + 1 == n then None else Some(h.(step := h.step + 1))
  }

  /** One resumption keeps the stored row in step with the unit: a unit
      that goes on leaves its task running on the same server with
      strictly more progress; a unit that ends leaves its task completed
      with progress 100 or failed with the unsupported-type message. */
  lemma StepKeepsTracking(t: Task, h: Handle, now: Time)
    requires HandleOk(h) && !h.ended && Tracks(t, h)
    ensures var t' := StepWrite(t, h, now);
      && (NextHandle(h).Some? ==> Tracks(t', NextHandle(h).value) && t.progress < t'.progress)
      && (NextHandle(h).None? ==> Tracks(t', h.(ended := true)))
      && (NextHandle(h).None? && TotalSteps(h.taskType).Some? ==>
            t'.status == Completed && t'.progress == 100 && t.progress < t'.progress)
      && (TotalSteps(h.taskType).None? ==>
            t'.status == Failed && t'.errorMessage == Some(UnsupportedTypeMessage(h.taskType)) && t'.progress == t.progress)
      && t'.id == t.id && t'.userId == t.userId && t'.gpuServerId == t.gpuServerId
  {
    match TotalSteps(h.taskType)
    case None =>
    case Some(n) => StepProgressIncreases(h.step, n);
  }

  function StepOutcomeOf(h: Handle): StepOutcome
    requires HandleOk(h)
  {
    match TotalSteps(h.taskType)
    case None => FailedWith(UnsupportedTypeMessage(h.taskType))
    case Some(n) => if h.step + 1 == n then Finished else Stepped(StepProgress(h.step + 1, n))
  }

  /** Resumptions a unit has at most from step 0: one per step, and one
      for an unsupported type (the one that fails). */
  function Resumptions(taskType: string): (r: nat)
    ensures r >= 1
  {
    match TotalSteps(taskType)
    case Some(n) => n
    case None => 1
  }

  /** The step at which a cancellation requested "while the unit waits in
      step `k`" takes effect for a unit now at `h`; None when the unit
      will already have passed that step or never reaches it. */
  function CancelPoint(h: Handle, cancelAt: Option<nat>): Option<nat> {
    if !h.ended && cancelAt.Some? && h.step <= cancelAt.value < Resumptions(h.taskType) then cancelAt else None
  }

  /** A unit that has not yet reached the step where a cancellation takes
      effect goes on after its next resumption, still no further than that
      step. */
  lemma CancelPointAhead(h0: Handle, h: Handle, cancelAt: Option<nat>)
    requires HandleOk(h) && !h.ended && h.taskType == h0.taskType && h0.step <= h.step
    requires CancelPoint(h0, cancelAt).Some? && h.step <= CancelPoint(h0, cancelAt).value
    requires cancelAt != Some(h.step)
    ensures NextHandle(h).Some? && NextHandle(h).value.step <= CancelPoint(h0, cancelAt).value
  {
  }

  datatype ScheduleOutcome = NoServer | Started(serverId: ServerId)
  datatype StepOutcome = NotRunning | Stepped(progress: int) | Finished | FailedWith(message: string)

  class TaskService {
    /** The durable `tasks` table. */
    var tasks: map<TaskId, Task>
    /** The `gpu_servers` table in query order (only read here). */
    var servers: seq<GPUServer>
    /** `_running_tasks`. */
    var runningTasks: map<TaskId, Handle>
    /** Ids for which the scheduler has already run (`create_task` starts
        exactly one scheduler per task). */
    ghost var scheduled: set<TaskId>

    ghost predicate Valid()
      reads this
    {
      && runningTasks.Keys <= scheduled
      && (forall id :: id in tasks && id !in scheduled ==> tasks[id].progress == 0)
      && (forall id :: id in runningTasks ==> HandleOk(runningTasks[id]))
      && (forall id :: id in runningTasks && id in tasks ==> Tracks(tasks[id], runningTasks[id]))
    }

    /** The lookup of `get_task`: scoped to the owner when a non-empty user
        id is given. */
    predicate Visible(id: TaskId, userId: Option<UserId>)
      reads this
    {
      id in tasks && (userId.None? || userId.value == "" || tasks[id].userId == userId.value)
    }

    constructor (servers: seq<GPUServer>, tasks: map<TaskId, Task>)
      ensures Valid()
      ensures this.servers == servers && this.tasks == tasks && runningTasks == map[]
      ensures scheduled == tasks.Keys
    {
      this.servers := servers;
      this.tasks := tasks;
      runningTasks := map[];
      scheduled := tasks.Keys;
    }

    /** `create_task`: `id` is the fresh uuid. The task is stored pending
        with progress 0 and handed back for scheduling. */
    method CreateTask(id: TaskId, userId: UserId, data: TaskCreate, now: Time) returns (t: Task)
      requires Valid()
      requires id !in tasks && id !in scheduled
      modifies this
      ensures Valid()
      ensures t == NewTask(id, userId, data, now) && t.status == Pending && t.progress == 0
      ensures tasks == old(tasks)[id := t]
      ensures runningTasks == old(runningTasks) && servers == old(servers) && scheduled == old(scheduled)
    {
      t := NewTask(id, userId, data, now);
      tasks := tasks[id := t];
    }

    /** `get_task`. */
    method GetTask(id: TaskId, userId: Option<UserId>) returns (r: Option<Task>)
      ensures r.Some? <==> Visible(id, userId)
      ensures r.Some? ==> r.value == tasks[id]
    {
      if Visible(id, userId) {
        r := Some(tasks[id]);
      } else {
        r := None;
      }
    }

    /** `update_task` as written: after the lookup and the status guard it
        reads `update_data.priority`, which `TaskUpdate` does not have, so
        every call that passes the guards raises before writing. */
    method UpdateTask(id: TaskId, update: TaskUpdate, userId: Option<UserId>) returns (r: Outcome<Option<Task>>)
      ensures !Visible(id, userId) ==> r == Returned(None)
      ensures Visible(id, userId) && tasks[id].status in {Running, Completed} ==> r == Raised(UpdateRefusedMessage)
      ensures Visible(id, userId) && tasks[id].status !in {Running, Completed} ==> r == Raised(MissingPriorityMessage)
      ensures r.Returned? ==> r.value.None?
    {
      if !Visible(id, userId) {
        return Returned(None);
      }
      if tasks[id].status == Running || tasks[id].status == Completed {
        return Raised(UpdateRefusedMessage);
      }
      return Raised(MissingPriorityMessage);
    }

    /** The update the service evidently meant: the same lookup and guard,
        then only the supplied fields change (with `updated_at`). */
    method UpdateTaskIntended(id: TaskId, edits: TaskEdits, userId: Option<UserId>, now: Time)
      returns (r: Outcome<Option<Task>>)
      requires Valid()
      modifies this
      ensures Valid()
      ensures runningTasks == old(runningTasks) && servers == old(servers) && scheduled == old(scheduled)
      ensures !old(Visible(id, userId)) ==> r == Returned(None) && tasks == old(tasks)
      ensures old(Visible(id, userId)) && old(tasks)[id].status in {Running, Completed} ==>
                r == Raised(UpdateRefusedMessage) && tasks == old(tasks)
      ensures old(Visible(id, userId)) && old(tasks)[id].status !in {Running, Completed} ==>
                r == Returned(Some(ApplyTaskEdits(old(tasks)[id], edits, now)))
                && tasks == old(tasks)[id := ApplyTaskEdits(old(tasks)[id], edits, now)]
                && tasks[id].status == old(tasks)[id].status && tasks[id].progress == old(tasks)[id].progress
    {
      if !Visible(id, userId) {
        return Returned(None);
      }
      var t := tasks[id];
      if t.status == Running || t.status == Completed {
        return Raised(UpdateRefusedMessage);
      }
      var t' := ApplyTaskEdits(t, edits, now);
      tasks := tasks[id := t'];
      r := Returned(Some(t'));
    }

    /** `cancel_task`: false, writing nothing, for a missing or finished
        task; otherwise the registered unit (if any) is cancelled and
        removed, and the task is stored as cancelled. */
    method CancelTask(id: TaskId, userId: Option<UserId>, now: Time) returns (ok: bool)
      requires Valid()
      modifies this
      ensures Valid()
      ensures servers == old(servers) && scheduled == old(scheduled)
      ensures ok <==> old(Visible(id, userId)) && !IsTerminal(old(tasks)[id].status)
      ensures !ok ==> tasks == old(tasks) && runningTasks == old(runningTasks)
      ensures ok ==> tasks == old(tasks)[id := MarkCancelled(old(tasks)[id], now)]
                     && runningTasks == old(runningTasks) - {id}
    {
      if !Visible(id, userId) {
        return false;
      }
      if IsTerminal(tasks[id].status) {
        return false;
      }
      if id in runningTasks {
        runningTasks := runningTasks - {id};
      }
      tasks := tasks[id := MarkCancelled(tasks[id], now)];
      ok := true;
    }

    /** `delete_task`: false for a missing task, an exception for a
        running one, otherwise the row is removed. */
    method DeleteTask(id: TaskId, userId: Option<UserId>) returns (r: Outcome<bool>)
      requires Valid()
      modifies this
      ensures Valid()
      ensures runningTasks == old(runningTasks) && servers == old(servers) && scheduled == old(scheduled)
      ensures !old(Visible(id, userId)) ==> r == Returned(false) && tasks == old(tasks)
      ensures old(Visible(id, userId)) && old(tasks)[id].status == Running ==>
                r == Raised(DeleteRefusedMessage) && tasks == old(tasks)
      ensures old(Visible(id, userId)) && old(tasks)[id].status != Running ==>
                r == Returned(true) && tasks == old(tasks) - {id}
    {
      if !Visible(id, userId) {
        return Returned(false);
      }
      if tasks[id].status == Running {
        return Raised(DeleteRefusedMessage);
      }
      tasks := tasks - {id};
      r := Returned(true);
    }

    /** `_schedule_task` up to the start of execution, on the task object
        handed over at creation. With no free server nothing is written and
        nothing registered: the task stays pending. Otherwise the task is
        stored as running on the chosen server before its execution unit is
        registered. The stored status is not consulted. */
    method ScheduleTask(task: Task, serverQueryFails: bool, now: Time) returns (outcome: ScheduleOutcome)
      requires Valid()
      requires task.id !in scheduled
      modifies this
      ensures Valid()
      ensures servers == old(servers) && scheduled == old(scheduled) + {task.id}
      ensures outcome.NoServer? ==> tasks == old(tasks) && runningTasks == old(runningTasks)
      ensures outcome.NoServer? && !serverQueryFails ==>
                forall s :: s in servers && s.isActive ==> !GpuService.HasFreeSlot(s, old(tasks))
      ensures outcome.Started? ==>
                && (exists s :: s in servers && s.id == outcome.serverId && s.isActive && GpuService.HasFreeSlot(s, old(tasks)))
                && (task.id in old(tasks) ==> tasks == old(tasks)[task.id := MarkRunning(old(tasks)[task.id], outcome.serverId, now)])
                && (task.id !in old(tasks) ==> tasks == old(tasks))
                && runningTasks == old(runningTasks)[task.id := Handle(task.taskType, outcome.serverId, 0, false)]
    {
      scheduled := scheduled + {task.id};
      var server := GpuService.FindAvailableServer(servers, tasks, serverQueryFails);
      if server.None? {
        return NoServer;
      }
      var sid := server.value.id;
      var h := Handle(task.taskType, sid, 0, false);
      assert HandleOk(h) && HandleProgress(h) == 0;
      assert server.value in servers && server.value.id == sid;
      if task.id in tasks {
        assert tasks[task.id].progress == 0;
        tasks := tasks[task.id := MarkRunning(tasks[task.id], sid, now)];
        assert Tracks(tasks[task.id], h);
      }
      runningTasks := runningTasks[task.id := h];
      outcome := Started(sid);
    }

    /** One resumption of the execution unit of `id` (see `StepWrite`
        and `NextHandle`). A cancelled unit is no longer registered and
        writes nothing; an ended unit is not resumed again. A unit that
        ends stays registered, marked ended, until `FinishTask`. */
    method StepTask(id: TaskId, now: Time) returns (outcome: StepOutcome)
      requires Valid()
      modifies this
      ensures Valid()
      ensures servers == old(servers) && scheduled == old(scheduled)
      ensures !(id in old(runningTasks) && !old(runningTasks)[id].ended) ==>
                outcome == NotRunning && tasks == old(tasks) && runningTasks == old(runningTasks)
      ensures id in old(runningTasks) && !old(runningTasks)[id].ended ==>
                var h := old(runningTasks)[id];
                && (id in old(tasks) ==> tasks == old(tasks)[id := StepWrite(old(tasks)[id], h, now)])
                && (id !in old(tasks) ==> tasks == old(tasks))
                && (NextHandle(h).Some? ==> runningTasks == old(runningTasks)[id := NextHandle(h).value])
                && (NextHandle(h).None? ==> runningTasks == old(runningTasks)[id := h.(ended := true)])
                && outcome == StepOutcomeOf(h)
    {
      if id !in runningTasks || runningTasks[id].ended {
        return NotRunning;
      }
      var h := runningTasks[id];
      if id in tasks {
        StepKeepsTracking(tasks[id], h, now);
        tasks := tasks[id := StepWrite(tasks[id], h, now)];
      }
      var next := NextHandle(h);
      if next.Some? {
        runningTasks := runningTasks[id := next.value];
      } else {
        runningTasks := runningTasks[id := h.(ended := true)];
      }
      outcome := StepOutcomeOf(h);
    }

    /** The scheduler's resumption after the unit of `id` has ended. For
        an unsupported type the unit re-raised its failure, and the
        scheduler's handler writes the failed status again; then its
        `finally` removes the task from `_running_tasks`. Nothing happens
        for a task whose unit has not ended. */
    method FinishTask(id: TaskId, now: Time) returns (finished: bool)
      requires Valid()
      modifies this
      ensures Valid()
      ensures servers == old(servers) && scheduled == old(scheduled)
      ensures finished <==> id in old(runningTasks) && old(runningTasks)[id].ended
      ensures !finished ==> tasks == old(tasks) && runningTasks == old(runningTasks)
      ensures finished ==>
                var h := old(runningTasks)[id];
                && runningTasks == old(runningTasks) - {id}
                && (id in old(tasks) && TotalSteps(h.taskType).None? ==>
                      tasks == old(tasks)[id := MarkFailed(old(tasks)[id], UnsupportedTypeMessage(h.taskType), now)])
                && (id !in old(tasks) || TotalSteps(h.taskType).Some? ==> tasks == old(tasks))
    {
      if id !in runningTasks || !runningTasks[id].ended {
        return false;
      }
      var h := runningTasks[id];
      if id in tasks && TotalSteps(h.taskType).None? {
        tasks := tasks[id := MarkFailed(tasks[id], UnsupportedTypeMessage(h.taskType), now)];
      }
      runningTasks := runningTasks - {id};
      finished := true;
    }

    /** The scheduler as it evidently should behave: it re-reads the
        stored task and starts it only while that row is still pending,
        so a task cancelled, edited into another state or deleted before
        its scheduler runs is left as it is. */
    method ScheduleTaskRechecked(task: Task, serverQueryFails: bool, now: Time) returns (outcome: ScheduleOutcome)
      requires Valid()
      requires task.id !in scheduled
      modifies this
      ensures Valid()
      ensures servers == old(servers) && scheduled == old(scheduled) + {task.id}
      ensures !(task.id in old(tasks) && old(tasks)[task.id].status == Pending) ==>
                outcome == NoServer && tasks == old(tasks) && runningTasks == old(runningTasks)
      ensures outcome.NoServer? ==> tasks == old(tasks) && runningTasks == old(runningTasks)
      ensures outcome.Started? ==>
                && task.id in old(tasks) && old(tasks)[task.id].status == Pending
                && (exists s :: s in servers && s.id == outcome.serverId && s.isActive && GpuService.HasFreeSlot(s, old(tasks)))
                && tasks == old(tasks)[task.id := MarkRunning(old(tasks)[task.id], outcome.serverId, now)]
                && runningTasks == old(runningTasks)[task.id := Handle(task.taskType, outcome.serverId, 0, false)]
    {
      if task.id !in tasks || tasks[task.id].status != Pending {
        scheduled := scheduled + {task.id};
        return NoServer;
      }
      outcome := ScheduleTask(task, serverQueryFails, now);
    }

    /** Where a run that started with its unit at `h0` stands: the task
        keeps its row and its server; while the unit is registered it runs
        the same routine, not yet past the step where the cancellation
        takes effect; once it is no longer registered, the task is stored
        cancelled with the progress of the steps done, completed, or
        failed. */
    ghost predicate RunState(id: TaskId, h0: Handle, cancelAt: Option<nat>, gpu: Option<ServerId>, keys: set<TaskId>)
      reads this
    {
      var cp := CancelPoint(h0, cancelAt);
      && id in tasks && tasks.Keys == keys && tasks[id].gpuServerId == gpu
      && (id in runningTasks ==>
            var h := runningTasks[id];
            && h.taskType == h0.taskType && h.serverId == h0.serverId
            && h0.step <= h.step && (cp.Some? ==> h.step <= cp.value && !h.ended)
            && (h0.ended ==> h.ended))
      && (id !in runningTasks ==>
            && (cp.Some? ==> tasks[id].status == Cancelled
                             && HandleOk(h0.(step := cp.value))
                             && tasks[id].progress == HandleProgress(h0.(step := cp.value)))
            && (cp.None? && TotalSteps(h0.taskType).Some? ==>
                  tasks[id].status == Completed && tasks[id].progress == 100)
            && (cp.None? && TotalSteps(h0.taskType).None? ==>
                  tasks[id].status == Failed && tasks[id].errorMessage == Some(UnsupportedTypeMessage(h0.taskType))))
    }

    /** Events left before the unit of `id` is gone: its remaining steps,
        plus one for the scheduler's cleanup. */
    ghost function RunMeasure(id: TaskId): nat
      reads this
    {
      if id in runningTasks && runningTasks[id].step < Resumptions(runningTasks[id].taskType) then
        Resumptions(runningTasks[id].taskType) - runningTasks[id].step + (if runningTasks[id].ended then 0 else 1)
      else 0
    }

    /** The next event of a run: the scheduler's cleanup for an ended
        unit, the cancellation when the unit waits in step `cancelAt`,
        and otherwise one resumption of the unit. */
    method ResumeRun(id: TaskId, cancelAt: Option<nat>, now: Time, ghost h0: Handle, ghost gpu: Option<ServerId>, ghost keys: set<TaskId>)
      requires Valid() && RunState(id, h0, cancelAt, gpu, keys) && id in runningTasks
      modifies this
      ensures Valid() && RunState(id, h0, cancelAt, gpu, keys)
      ensures servers == old(servers) && scheduled == old(scheduled)
      ensures RunMeasure(id) < old(RunMeasure(id))
    {
      var h := runningTasks[id];
      ghost var cp := CancelPoint(h0, cancelAt);
      if h.ended {
        var _ := FinishTask(id, now);
      } else if cancelAt == Some(h.step) {
        assert cp == cancelAt;
        assert h0.(step := cp.value) == h;
        var _ := CancelTask(id, None, now);
      } else {
        StepKeepsTracking(tasks[id], h, now);
        if cp.Some? {
          CancelPointAhead(h0, h, cancelAt);
        }
        var _ := StepTask(id, now);
      }
    }

    /** A whole run of a scheduled task from where its unit now waits:
        the unit is resumed until it ends and the scheduler has cleaned
        up, and when `cancelAt` is `Some(k)` a `cancel_task` request
        arrives while it waits in step `k`. The run ends cancelled with
        the progress of the steps done, completed with progress 100, or
        failed for an unsupported type. */
    method RunTask(id: TaskId, cancelAt: Option<nat>, now: Time)
      requires Valid()
      requires id in runningTasks && id in tasks
      modifies this
      ensures Valid()
      ensures servers == old(servers) && scheduled == old(scheduled)
      ensures id !in runningTasks && id in tasks
      ensures tasks.Keys == old(tasks).Keys
      ensures tasks[id].gpuServerId == old(tasks)[id].gpuServerId
      ensures var h0 := old(runningTasks)[id];
        && (CancelPoint(h0, cancelAt).Some? ==>
              && tasks[id].status == Cancelled
              && HandleOk(h0.(step := CancelPoint(h0, cancelAt).value))
              && tasks[id].progress == HandleProgress(h0.(step := CancelPoint(h0, cancelAt).value)))
        && (CancelPoint(h0, cancelAt).None? && TotalSteps(h0.taskType).Some? ==>
              tasks[id].status == Completed && tasks[id].progress == 100)
        && (CancelPoint(h0, cancelAt).None? && TotalSteps(h0.taskType).None? ==>
              tasks[id].status == Failed && tasks[id].errorMessage == Some(UnsupportedTypeMessage(h0.taskType)))
    {
      ghost var h0 := runningTasks[id];
      ghost var gpu := tasks[id].gpuServerId;
      ghost var keys := tasks.Keys;
      while id in runningTasks
        invariant Valid() && RunState(id, h0, cancelAt, gpu, keys)
        invariant servers == old(servers) && scheduled == old(scheduled)
        decreases RunMeasure(id)
      {
        ResumeRun(id, cancelAt, now, h0, gpu, keys);
      }
    }

    /** `get_running_tasks`. */
    method GetRunningTasks() returns (ids: set<TaskId>)
      ensures ids == runningTasks.Keys
    {
      ids := runningTasks.Keys;
    }

    /** `stop_all_tasks`: every unit is cancelled and the map emptied; no
        task status is written, so their rows stay `running`. */
    method StopAllTasks()
      requires Valid()
      modifies this
      ensures Valid()
      ensures runningTasks == map[]
      ensures tasks == old(tasks) && servers == old(servers) && scheduled == old(scheduled)
    {
      runningTasks := map[];
    }
  }
  /** A cluster of one active server with a free GPU. */
  function OneFreeServer(): (servers: seq<GPUServer>)
    ensures |servers| == 1 && servers[0].isActive && servers[0].gpuCount == Some(1)
  {
    [GPUServer("gpu-1", "node-1", "10.0.0.1", DefaultPort, "root", DefaultMaxConcurrentTasks,
               Online, true, Some(1), None, 0, None)]
  }

  /** The scheduler as written revives a cancelled task: a task created,
      then cancelled before its scheduler runs, is stored as running once
      the scheduler starts it from the object it was handed at creation. */
  method CancelledBeforeSchedulingIsRevived() returns (status: TaskStatus, cancelled: bool)
    ensures cancelled && status == Running
  {
    var svc := new TaskService(OneFreeServer(), map[]);
    var data := TaskCreate("train", None, "training", DefaultPriority, None, None);
    var t := svc.CreateTask("t1", "u1", data, 1);
    cancelled := svc.CancelTask("t1", Some("u1"), 2);
    assert svc.tasks["t1"].status == Cancelled;
    assert GpuService.RunningOn(svc.tasks, "gpu-1") == {};
    assert GpuService.HasFreeSlot(svc.servers[0], svc.tasks);
    var outcome := svc.ScheduleTask(t, false, 3);
    status := svc.tasks["t1"].status;
  }

  /** With the re-checking scheduler the same sequence leaves the task
      cancelled and registers nothing. */
  method CancelledBeforeSchedulingStaysCancelled() returns (status: TaskStatus, running: set<TaskId>)
    ensures status == Cancelled && running == {}
  {
    var svc := new TaskService(OneFreeServer(), map[]);
    var data := TaskCreate("train", None, "training", DefaultPriority, None, None);
    var t := svc.CreateTask("t1", "u1", data, 1);
    var ok := svc.CancelTask("t1", Some("u1"), 2);
    var outcome := svc.ScheduleTaskRechecked(t, false, 3);
    status := svc.tasks["t1"].status;
    running := svc.GetRunningTasks();
  }
}
