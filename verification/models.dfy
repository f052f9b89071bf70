/** Records of the task platform's store (users, tasks, GPU servers,
    recharge codes), the enumerations they use and the field bounds and
    defaults the request models declare. Every other module works on
    these values. */
module Models {

  datatype Option<+T> = None | Some(value: T)

  /** What a service call ends with: a returned value or a raised exception. */
  datatype Outcome<+T> = Returned(value: T) | Raised(message: string)

  /** What a request handler ends with: its response data, or an HTTP
      error with status code and detail. */
  datatype Reply<+T> = Ok(value: T) | HttpError(code: int, detail: string)

  /** Timestamps are abstract ordered instants; only their order matters. */
  type Time = nat
  type TaskId = string
  type UserId = string
  type ServerId = string
  type CodeId = string

  /** An opaque key/value payload (a task's `config` or `result`). */
  type Payload = map<string, string>

  // ---------------------------------------------------------------------
  // Enumerations

  datatype UserRole = SuperAdmin | Admin | RegularUser
  datatype TaskStatus = Pending | Running | Completed | Failed | Cancelled
  datatype GPUStatus = Online | Offline | Busy | Maintenance

  function RoleName(r: UserRole): string {
    match r
    case SuperAdmin => "super_admin"
    case Admin => "admin"
    case RegularUser => "user"
  }

  /** The enum's value lookup: the stored string of a role, or None. */
  function ParseRole(s: string): (r: Option<UserRole>)
    ensures r.Some? ==> RoleName(r.value) == s
    ensures r.None? ==> s != "super_admin" && s != "admin" && s != "user"
  {
    if s == "super_admin" then Some(SuperAdmin)
    else if s == "admin" then Some(Admin)
    else if s == "user" then Some(RegularUser)
    else None
  }

  function StatusName(st: TaskStatus): string {
    match st
    case Pending => "pending"
    case Running => "running"
    case Completed => "completed"
    case Failed => "failed"
    case Cancelled => "cancelled"
  }

  function ParseStatus(s: string): (r: Option<TaskStatus>)
    ensures r.Some? ==> StatusName(r.value) == s
    ensures r.None? ==> forall st: TaskStatus :: StatusName(st) != s
  {
    if s == "pending" then Some(Pending)
    else if s == "running" then Some(Running)
    else if s == "completed" then Some(Completed)
    else if s == "failed" then Some(Failed)
    else if s == "cancelled" then Some(Cancelled)
    else None
  }

  function GPUStatusName(st: GPUStatus): string {
    match st
    case Online => "online"
    case Offline => "offline"
    case Busy => "busy"
    case Maintenance => "maintenance"
  }

  /** Each enumeration's names are distinct, so a stored string determines
      the value: parsing a value's name gives that value back. */
  lemma {:induction false} EnumNamesRoundTrip(r: UserRole, st: TaskStatus)
    ensures ParseRole(RoleName(r)) == Some(r)
    ensures ParseStatus(StatusName(st)) == Some(st)
  {
    match r
    case SuperAdmin =>
    case Admin =>
    case RegularUser =>
    match st
    case Pending =>
    case Running =>
    case Completed =>
    case Failed =>
    case Cancelled =>
  }

  predicate IsTerminal(st: TaskStatus) {
    st == Completed || st == Failed || st == Cancelled
  }

  // ---------------------------------------------------------------------
  // Records

  /** A row of the `tasks` table. Progress is an exact percentage. */
  datatype Task = Task(
    id: TaskId,
    userId: UserId,
    title: string,
    description: Option<string>,
    taskType: string,
    priority: int,
    estimatedDuration: Option<int>,
    config: Option<Payload>,
    status: TaskStatus,
    progress: int,
    gpuServerId: Option<ServerId>,
    startedAt: Option<Time>,
    completedAt: Option<Time>,
    createdAt: Time,
    updatedAt: Option<Time>,
    result: Option<Payload>,
    errorMessage: Option<string>,
    cost: real)

  /** The fields a task is created from (the `TaskCreate` request body). */
  datatype TaskCreate = TaskCreate(
    title: string,
    description: Option<string>,
    taskType: string,
    priority: int,
    estimatedDuration: Option<int>,
    config: Option<Payload>)

  /** The editable fields of a task, each None when not supplied (the
      `UpdateTaskRequest` body of the task routes). */
  datatype TaskEdits = TaskEdits(
    title: Option<string>,
    description: Option<string>,
    priority: Option<int>,
    config: Option<Payload>)

  /** Applies the supplied edits and stamps `updated_at`; nothing else of
      the task changes. */
  function ApplyTaskEdits(t: Task, e: TaskEdits, now: Time): (r: Task)
    ensures r.title == (if e.title.Some? then e.title.value else t.title)
    ensures r.description == (if e.description.Some? then e.description else t.description)
    ensures r.priority == (if e.priority.Some? then e.priority.value else t.priority)
    ensures r.config == (if e.config.Some? then e.config else t.config)
    ensures r.updatedAt == Some(now)
    ensures r == t.(title := r.title, description := r.description, priority := r.priority,
                    config := r.config, updatedAt := r.updatedAt)
  {
    var t1 := if e.title.Some? then t.(title := e.title.value) else t;
    var t2 := if e.description.Some? then t1.(description := e.description) else t1;
    var t3 := if e.priority.Some? then t2.(priority := e.priority.value) else t2;
    var t4 := if e.config.Some? then t3.(config := e.config) else t3;
    t4.(updatedAt := Some(now))
  }

  /** `TaskUpdate`: note it has no `priority` and no `config` field. */
  datatype TaskUpdate = TaskUpdate(
    title: Option<string>,
    description: Option<string>,
    status: Option<TaskStatus>,
    progress: Option<int>,
    result: Option<Payload>,
    errorMessage: Option<string>)

  /** A row of the `gpu_servers` table (including the `last_ping` column
      that the service writes). */
  datatype GPUServer = GPUServer(
    id: ServerId,
    name: string,
    host: string,
    port: int,
    username: string,
    maxConcurrentTasks: int,
    status: GPUStatus,
    isActive: bool,
    gpuCount: Option<int>,
    lastPing: Option<Time>,
    createdAt: Time,
    updatedAt: Option<Time>)

  /** A row of the `users` table. */
  datatype User = User(
    id: UserId,
    email: string,
    username: string,
    fullName: Option<string>,
    role: UserRole,
    isActive: bool,
    balance: Option<real>,
    passwordHash: string,
    createdAt: Time,
    updatedAt: Option<Time>,
    deletedAt: Option<Time>)

  datatype UserCreate = UserCreate(email: string, username: string, fullName: Option<string>, password: string)

  /** A row of the `recharge_codes` table as the recharge routes use it. */
  datatype RechargeCode = RechargeCode(
    id: CodeId,
    code: string,
    amount: real,
    description: Option<string>,
    expiresAt: Option<Time>,
    createdBy: UserId,
    createdAt: Time,
    usedAt: Option<Time>,
    usedBy: Option<UserId>)

  /** A row of the `recharge_records` table. */
  datatype RechargeRecord = RechargeRecord(
    userId: UserId,
    amount: real,
    kind: string,
    description: string,
    rechargeCodeId: CodeId,
    createdAt: Time)

  // ---------------------------------------------------------------------
  // Field bounds and defaults declared by the record models

  const DefaultPriority: int := 1
  const DefaultPort: int := 22
  const DefaultMaxConcurrentTasks: int := 1

  /** The bounds `TaskBase` declares: title at most 200 characters, task
      type at most 50, priority 1 to 5. Rebuilding a `Task` from a stored
      row that breaks them raises. */
  predicate ValidTaskFields(title: string, taskType: string, priority: int) {
    |title| <= 200 && |taskType| <= 50 && 1 <= priority <= 5
  }

  predicate TaskRecordValid(t: Task) {
    ValidTaskFields(t.title, t.taskType, t.priority)
  }

  /** What rebuilding a `User` from a stored row checks: a username of 3
      to 50 characters (`UserBase`) and a balance that is a number (the
      field is a float with a default, so a null does not pass). The
      e-mail format check is not part of this model. */
  predicate UserRecordValid(u: User) {
    3 <= |u.username| <= 50 && u.balance.Some?
  }

  /** A `Task` built from creation data with every defaulted field at its
      declared default. */
  function NewTask(id: TaskId, userId: UserId, data: TaskCreate, now: Time): (t: Task)
    ensures t.id == id && t.userId == userId && t.createdAt == now
    ensures t.status == Pending && t.progress == 0 && t.cost == 0.0
    ensures t.gpuServerId.None? && t.result.None? && t.errorMessage.None?
    ensures t.startedAt.None? && t.completedAt.None?
    ensures t.title == data.title && t.taskType == data.taskType && t.priority == data.priority
  {
    Task(id, userId, data.title, data.description, data.taskType, data.priority,
         data.estimatedDuration, data.config, Pending, 0, None, None, None,
         now, Some(now), None, None, 0.0)
  }

  /** Balance with a missing value counted as zero (`balance or 0.0`). */
  function BalanceOrZero(b: Option<real>): real {
    if b.Some? then b.value else 0.0
  }

  // ---------------------------------------------------------------------
  // Store helpers

  /** `update ... eq('id', id)` on the tasks table: rows are keyed by id, and
      an update of a missing id changes nothing. */
  function WriteTask(tasks: map<TaskId, Task>, id: TaskId, t: Task): (r: map<TaskId, Task>)
    ensures r.Keys == tasks.Keys
    ensures id in tasks ==> r[id] == t
    ensures forall k :: k in tasks && k != id ==> r[k] == tasks[k]
  {
    if id in tasks then tasks[id := t] else tasks
  }

  /** Ids of the running tasks owned by `uid`. */
  function RunningTasksOf(tasks: map<TaskId, Task>, uid: UserId): set<TaskId> {
    set id | id in tasks && tasks[id].userId == uid && tasks[id].status == Running
  }
}
