# owl-workshop backend: a Dafny model

This project models the backend of the owl-workshop GPU task platform in Dafny.
Users submit compute tasks, and a supervisor schedules them on GPU servers and
runs them as fixed-length step loops. Administrators manage users, and users
pay with a balance that recharge codes top up. The model covers:

- **The task supervisor** (`TaskService`, task_service.dfy). It is a class
  holding the task table, the server table and the map of running execution
  units. It has one method per atomic event: create, schedule, one execution
  step, the scheduler's cleanup after a unit ends, cancel, delete, update,
  stop-all, and a whole run. Its invariant ties every registered unit to its
  task on the unit's server. While the unit waits in a step, the task is
  stored as running with the progress of the steps done so far. Once the
  unit has ended, and until the scheduler's cleanup unregisters it, the task
  is stored completed with progress 100 or failed.
- **The first-fit GPU allocator and the server operations** (gpu_service.dfy):
  ping, maintenance and cluster counts.
- **The HTTP handlers** for tasks, user administration and recharge codes
  (task_routes.dfy, admin_routes.dfy, recharge_routes.dfy). Each is a
  method over an in-memory table. It returns either an HTTP error with its
  status and message, or the answer together with the new table. Every
  check is made in the order the handler makes it.
- **The pure utilities**: helpers, validators, the role hierarchy, and the
  password-reset and registration guards (helpers.dfy, validators.dfy,
  auth.dfy).
- **The enums, records, defaults and field bounds** of the data model
  (models.dfy).

The store is an in-memory table: a `map` keyed by id, or a `seq` where the
store's row order matters. The environment becomes parameters:

- the current time becomes an abstract `now`;
- randomness becomes a `pick: nat -> nat` function;
- the SSH probe becomes a boolean;
- a password hash becomes a given string;
- a token arrives already decoded.

Some behaviour of the code worth knowing:

- The allocator does not probe reachability on the scheduling path.
- Servers are scanned in the store's order.
- The retry handler keeps `gpu_server_id`.
- The supervisor can overwrite a cancelled task with `running` (finding 1 below).
- The cancel route writes `cancelled` without touching the supervisor's map of running units.
- The task and user handlers take requests without field bounds, write the
  row, and only then rebuild it as a bounded record. A title over 200
  characters, a type over 50, a priority outside 1..5 or a username outside
  3..50 characters is therefore stored and answered with 500, and every
  later read of that row answers 500 as well.

## Model

| member | source | states |
|---|---|---|
| Models.ParseRole | backend/models/database_models.py:12-16 | a parsed role's name is the input; any other string is none of the three role names |
| Models.ParseStatus | backend/models/database_models.py:18-24 | a parsed status's name is the input; unknown strings match no status |
| Models.EnumNamesRoundTrip | backend/models/database_models.py:12-31 | parsing the name of every role and every task status gives it back |
| Models.ApplyTaskEdits | backend/api/task_routes.py:223-232 | each supplied field replaces the stored one, `updated_at` is stamped and no other field changes |
| Models.NewTask | backend/models/database_models.py:88-101 | a new task is pending with progress 0 and cost 0, and has no server, result, error or timestamps beyond creation |
| Models.WriteTask | backend/services/task_service.py:335-351 | an update by id changes only that row and leaves the table's keys unchanged; a missing id changes nothing |
| GpuService.ActiveServers | backend/services/gpu_service.py:27 | the `is_active` query keeps exactly the active servers |
| GpuService.ActiveServersAppend | backend/services/gpu_service.py:27 | the `is_active` query keeps the store's order: filtering two runs of rows is filtering each and concatenating |
| GpuService.FirstFitUnique | backend/services/gpu_service.py:36-39 | at most one position is the first server with a free slot |
| GpuService.FindAvailableServer | backend/services/gpu_service.py:21-64 | the result is an active server with fewer running tasks than `gpu_count` and the first such one in query order; the result is None exactly when the query fails or no active server has a free slot; a server without `gpu_count` is never chosen |
| GpuService.PingServer | backend/services/gpu_service.py:110-139 | an unknown id answers false and writes nothing; otherwise the status becomes online exactly when the probe succeeded, `last_ping` is stamped, the probe's result is returned and other rows are unchanged |
| GpuService.StartMaintenance | backend/services/gpu_service.py:291-295 | the first write: the server's row is the old row with status maintenance and `updated_at` the start of the window; other rows are unchanged |
| GpuService.EndMaintenance | backend/services/gpu_service.py:297-304 | the write after the window, on the table as it then stands: the server's row comes back online with `updated_at` the end of the window, whatever was written to it meanwhile, and keeps every other field; other rows are unchanged; a server deleted meanwhile stays deleted |
| GpuService.PingDuringMaintenance | backend/services/gpu_service.py:284-304 | a failed ping inside the window leaves the server online at the end, with the `last_ping` of that ping |
| GpuService.CountOnline | backend/services/gpu_service.py:252 | the count equals the number of servers whose status is online, and so never exceeds the number of servers |
| GpuService.ActiveServersCount | backend/services/gpu_service.py:251 | the number of active servers equals the number of servers whose `is_active` flag is set |
| GpuService.TotalGpus | backend/services/gpu_service.py:255 | the sum is undefined exactly when an active server has no `gpu_count` |
| GpuService.TotalGpusOnlyActive | backend/services/gpu_service.py:255 | inactive servers contribute nothing to the GPU total |
| GpuService.GetClusterStats | backend/services/gpu_service.py:237-282 | total servers is the table size; the active and online counts are exactly the numbers of active and of online servers; total GPUs sums over active servers only; each per-status task count is exactly the number of tasks in that status, and together they are at most the number of tasks; the empty answer on error happens exactly when the GPU sum raises |
| GpuService.StatusCountsBounded | backend/services/gpu_service.py:257-260 | the per-status task sets are disjoint, so their sizes add up to at most the table size |
| TaskServiceModel.TotalSteps | backend/services/task_service.py:246-254 | training, inference and data_processing have 100, 50 and 20 steps; every other type has none |
| TaskServiceModel.StepProgress | backend/services/task_service.py:287-289 | progress after `done` steps is exactly `done`·100/total, lies in 0..100, and is 100 only at the last step |
| TaskServiceModel.StepProgressIncreases | backend/services/task_service.py:277-333 | each step writes strictly more progress than the one before |
| TaskServiceModel.NextHandle | backend/services/task_service.py:279-291 | a unit goes on to the next step exactly while steps remain, on the same server and routine |
| TaskServiceModel.StepKeepsTracking | backend/services/task_service.py:239-333 | one resumption keeps a running task tracked with strictly more progress, or leaves an ended unit whose task is completed with 100 or failed with "不支持的任务类型: type"; owner, id and server never change |
| TaskServiceModel.TaskService.constructor | backend/services/task_service.py:18-21 | the service starts with no running units |
| TaskServiceModel.TaskService.CreateTask | backend/services/task_service.py:23-63 | the new task is stored pending with progress 0 and the declared defaults; nothing else changes |
| TaskServiceModel.TaskService.GetTask | backend/services/task_service.py:65-84 | a task is found exactly when it exists and, if a user is given, belongs to that user |
| TaskServiceModel.TaskService.UpdateTask | backend/services/task_service.py:86-127 | as written: a missing task gives None; a running or completed task raises the refusal; every other call raises reading `priority`, which `TaskUpdate` lacks |
| TaskServiceModel.TaskService.UpdateTaskIntended | backend/services/task_service.py:86-127 | the same lookup and guard, then only the supplied fields and `updated_at` change |
| TaskServiceModel.TaskService.CancelTask | backend/services/task_service.py:129-164 | answers true exactly for a visible task that is not completed, failed or cancelled; it then removes any unit and stores the task as cancelled; otherwise nothing changes |
| TaskServiceModel.TaskService.DeleteTask | backend/services/task_service.py:166-193 | a missing task gives false; a running one raises; otherwise exactly that row is removed |
| TaskServiceModel.TaskService.ScheduleTask | backend/services/task_service.py:195-237 | without a free server nothing is written or registered; otherwise the task is written running on the first-fit server with `started_at`, progress 0 and a unit at step 0, from the object handed at creation |
| TaskServiceModel.TaskService.StepTask | backend/services/task_service.py:239-333 | a resumption of a cancelled or ended unit writes nothing; otherwise it writes the step's progress; after the last step the task is completed with 100; an unsupported type is failed; a unit that ends stays registered, marked ended |
| TaskServiceModel.TaskService.FinishTask | backend/services/task_service.py:224-237 | only for an ended unit: the failure of an unsupported type is written a second time, and the task leaves the map of running units; any other call changes nothing |
| TaskServiceModel.TaskService.ScheduleTaskRechecked | backend/services/task_service.py:195-224 | the scheduler with a re-read of the stored status: a task that is no longer pending is left as it is |
| TaskServiceModel.TaskService.RunTask | backend/services/task_service.py:195-333 | a whole run, the scheduler's cleanup included, ends with the unit unregistered and the task either cancelled at the requested step with that step's progress, completed with 100, or failed with the unsupported-type message; the server is unchanged |
| TaskServiceModel.TaskService.ResumeRun | backend/services/task_service.py:195-333 | one event of a run keeps the run's state and brings the end strictly closer |
| TaskServiceModel.TaskService.GetRunningTasks | backend/services/task_service.py:366-370 | the ids of the registered units |
| TaskServiceModel.TaskService.StopAllTasks | backend/services/task_service.py:372-381 | every unit is cancelled and the map emptied; no task row is written |
| TaskServiceModel.CancelledBeforeSchedulingIsRevived | backend/services/task_service.py:57 | as written, a task cancelled before its scheduler runs ends up running |
| TaskServiceModel.CancelledBeforeSchedulingStaysCancelled | backend/services/task_service.py:129-160 | with the re-checking scheduler, the same events leave the task cancelled and nothing registered |
| TaskRoutes.CreateTask | backend/api/task_routes.py:32-99 | a set balance ≤ 0 gives 400; five or more running tasks give 429; otherwise the new pending task with progress 0 is stored. It is answered when its title, type and priority are within the record's bounds; otherwise the answer is 500 and reading the task back answers 500 too |
| TaskRoutes.MatchingTasks | backend/api/task_routes.py:117-135 | exactly the caller's tasks matching the status and type filters |
| TaskRoutes.MatchingTasksAppend | backend/api/task_routes.py:117-145 | the filter keeps the store's order: filtering two runs of rows is filtering each and concatenating |
| TaskRoutes.MatchingTasksSingle | backend/api/task_routes.py:117-135 | a single row is kept exactly when it matches the filters |
| TaskRoutes.GetTasks | backend/api/task_routes.py:102-160 | 500 exactly when a row on the requested page is outside the record's bounds; otherwise total counts the filtered rows, total pages is ⌈total/page size⌉, and the items are the filtered rows from offset (page−1)·page size, at most one page of them |
| TaskRoutes.GetTask | backend/api/task_routes.py:163-194 | 404 unless the task belongs to the caller; 500 for a stored row outside the record's bounds; otherwise the stored task |
| TaskRoutes.UpdateTask | backend/api/task_routes.py:197-259 | 404 for a task not owned by the caller; 400 for running or completed; otherwise only the supplied fields and `updated_at` change. The edited row is written either way; it is answered when within the record's bounds, and otherwise the answer and later reads are 500 |
| TaskRoutes.CancelTask | backend/api/task_routes.py:262-310 | 404, then 400 for completed, failed or cancelled; otherwise the task is stored cancelled |
| TaskRoutes.RetryTask | backend/api/task_routes.py:313-376 | 404, then 400 unless failed or cancelled; otherwise the task is reset to pending with progress 0 and no error, result or timestamps, keeping `gpu_server_id` and every other field. The reset is answered when the row is within the record's bounds, and otherwise with 500 |
| TaskRoutes.DeleteTask | backend/api/task_routes.py:379-420 | 404, then 400 while running; otherwise exactly that row is removed |
| TaskRoutes.HandlersNeverAddRunning | backend/api/task_routes.py:197-420 | for every user, the tables left by update, cancel, retry and delete hold a subset of that user's running tasks and never more of them; a user below the cap of five stays below it after a cancel or delete |
| AdminRoutes.MatchingUsers | backend/api/admin_routes.py:43-64 | exactly the users matching the search, role and active filters |
| AdminRoutes.MatchingUsersAppend | backend/api/admin_routes.py:44-79 | the filter keeps the store's order: filtering two runs of rows is filtering each and concatenating |
| AdminRoutes.GetAllUsers | backend/api/admin_routes.py:29-89 | 500 exactly when a user on the requested page is outside the record's bounds; otherwise total counts the filtered users, total pages is ⌈total/page size⌉, and the items are the filtered rows from offset (page−1)·page size |
| AdminRoutes.ApplyUserEdits | backend/api/admin_routes.py:150-194 | each supplied field replaces the stored one, `updated_at` is stamped and nothing else changes |
| AdminRoutes.UpdateUser | backend/api/admin_routes.py:125-218 | checks in order: 404; 403 for a non-super-admin editing an administrator; 400 for a username held by another user; 403 for a role change by a non-super-admin; 400 for an unknown role; 400 for a negative balance. A refused request writes nothing; a request past the checks writes exactly the edited row, and answers it when the username has 3 to 50 characters, otherwise 500. A non-super-admin only ever edits regular users |
| AdminRoutes.UpdateKeepsUsernamesUnique | backend/api/admin_routes.py:152-160 | an accepted update keeps usernames unique |
| AdminRoutes.DeleteUser | backend/api/admin_routes.py:221-274 | 404, then 400 for the caller themselves, then 400 for a user with running tasks; otherwise the row stays, inactive and with `deleted_at` set |
| RechargeRoutes.RemoveChar | backend/api/recharge_routes.py:34 | removing a character keeps exactly the other characters |
| RechargeRoutes.RechargeAlphabet | backend/api/recharge_routes.py:32-34 | the four removals from upper-case letters plus digits leave exactly the upper-case letters and digits other than 0, O, 1 and I |
| RechargeRoutes.GenerateRechargeCode | backend/api/recharge_routes.py:28-35 | a code has the requested length and uses only the alphabet |
| RechargeRoutes.FirstWithCode | backend/api/recharge_routes.py:168-176 | the first row carrying the code, or none exactly when no row does |
| RechargeRoutes.FirstWithId | backend/api/recharge_routes.py:325-333 | the first row carrying the id, or none exactly when no row does |
| RechargeRoutes.DrawFreeCode | backend/api/recharge_routes.py:59-65 | the retry loop returns the code of the first draw not yet stored; every draw skipped before it produced a stored code; with no free draw left it returns none |
| RechargeRoutes.ExtendFreshBatch | backend/api/recharge_routes.py:59-80 | a code absent from the table and from the batch so far keeps the batch fresh when added |
| RechargeRoutes.CreateRechargeCodes | backend/api/recharge_routes.py:37-97 | 400 for amount ≤ 0, then 400 for a quantity outside 1..100; otherwise at most `quantity` new rows are appended. Each new row has the requested amount, description and expiry, is unused, and has a 16-character code from the alphabet that differs from every stored code and every other new one |
| RechargeRoutes.AppendKeepsDistinct | backend/api/recharge_routes.py:58-80 | appending fresh, pairwise distinct codes keeps the table's codes unique |
| RechargeRoutes.ParseStatusFilter | backend/api/recharge_routes.py:116-122 | only "unused", "used" and "expired" select a filter |
| RechargeRoutes.FilterByStatus | backend/api/recharge_routes.py:113-132 | exactly the rows matching the status: unused means no `used_at`, used means `used_at` set, expired means `expires_at` before now |
| RechargeRoutes.FilterByStatusAppend | backend/api/recharge_routes.py:113-132 | the status filter keeps the store's order: filtering two runs of rows is filtering each and concatenating |
| RechargeRoutes.StatusPartition | backend/api/recharge_routes.py:116-120 | "unused" and "used" split the table exactly in two; an unknown status lists everything |
| RechargeRoutes.GetRechargeCodes | backend/api/recharge_routes.py:99-157 | count and page use the same filter; total pages is ⌈total/page size⌉; the items are the filtered rows from offset (page−1)·page size |
| RechargeRoutes.MarkUsed | backend/api/recharge_routes.py:196-199 | the update by id marks exactly the rows with that id used by the user at that time; codes, ids and every other row stay as they were |
| RechargeRoutes.MarkUsedFindsUsedRow | backend/api/recharge_routes.py:168-199 | after marking, a lookup by the same code finds the same row, and that row is used |
| RechargeRoutes.UseRechargeCode | backend/api/recharge_routes.py:159-240 | checks in order: 404 unknown, 400 used, 400 expired. Success marks the code's rows used by the caller, sets the caller's balance to their old balance (none as 0) plus the amount, and appends exactly one record; it answers the amount and the new balance |
| RechargeRoutes.RedeemTwice | backend/api/recharge_routes.py:179-183 | after one successful redeem, a second redeem of the same code is refused as used, and exactly one record was added |
| RechargeRoutes.WithoutId | backend/api/recharge_routes.py:343 | the delete keeps exactly the rows with another id |
| RechargeRoutes.WithoutIdAppend | backend/api/recharge_routes.py:343 | the delete keeps the remaining rows in the store's order: deleting from two runs of rows is deleting from each and concatenating |
| RechargeRoutes.DeleteRechargeCode | backend/api/recharge_routes.py:316-359 | 404 for an unknown id, then 400 for a used code; otherwise the rows with that id are removed and the rest keep their order, and with unique ids no used code is ever removed |
| Helpers.FloorDiv | backend/utils/helpers.py:60-65 | Python's `//`: the quotient rounds toward minus infinity |
| Helpers.CeilDiv | backend/utils/helpers.py:89 | `(n + size − 1) // size` is the least q with n ≤ q·size; it is 0 exactly for n = 0 |
| Helpers.PySlice | backend/utils/helpers.py:94 | a slice within bounds is the plain subsequence; it is never longer than the input |
| Helpers.Repeat | backend/utils/helpers.py:130-134 | `s * k` has length k·\|s\|, or is empty for k ≤ 0 |
| Helpers.DurationParts | backend/utils/helpers.py:53-66 | under 60 the seconds themselves; under 3600, minutes·60 + seconds equals the input; above that, hours ≥ 1; minutes and seconds are always below 60 |
| Helpers.FormatDuration | backend/utils/helpers.py:53-66 | each branch's text is built from those parts |
| Helpers.DecimalStringDenotes | backend/utils/helpers.py:56-65 | Python's `str(n)` used in each format: for n ≥ 0 decimal digits denoting n without a leading zero; for negative n a minus sign before `str(-n)` |
| Helpers.PaginateResults | backend/utils/helpers.py:84-106 | raises exactly for page size 0; total pages is ⌈n/size⌉; the items are at most one page, taken from (page−1)·size |
| Helpers.PaginationNextMeansMore | backend/utils/helpers.py:102 | `has_next` holds exactly when items remain after this page; a page past the last is empty |
| Helpers.PageOf | backend/api/task_routes.py:136-145 | a page reports the full count and ⌈count/size⌉ pages; its items are the rows from offset (page−1)·size in order, at most `size` of them, and none when the offset is past the end |
| Helpers.PageWindow | backend/api/task_routes.py:140-142 | the store's inclusive range returns the rows from offset, at most `size` of them |
| Helpers.MaskSensitiveData | backend/utils/helpers.py:126-136 | short data is masked whole; longer data keeps its first `visible_chars` characters and masks the rest |
| Helpers.MaskKeepsLength | backend/utils/helpers.py:126-136 | with a one-character mask, the length is preserved and every masked position holds the mask |
| Helpers.TruncateString | backend/utils/helpers.py:212-218 | text within the limit comes back unchanged |
| Helpers.TruncateFits | backend/utils/helpers.py:212-218 | longer text comes back with exactly `max_length` characters ending in the suffix, if the suffix fits |
| Helpers.RandomString | backend/utils/helpers.py:12-13 | the requested length, every character from the alphabet |
| Helpers.GenerateRandomString | backend/utils/helpers.py:8-13 | the requested length in letters and digits |
| Helpers.GenerateApiKey | backend/utils/helpers.py:15-19 | "owl_" followed by 40 letters or digits |
| Helpers.RemoveDashesAppend | backend/utils/helpers.py:29 | removing separators distributes over concatenation |
| Helpers.GroupedRoundTrip | backend/utils/helpers.py:29 | removing the separators of a grouped code gives back the raw code |
| Helpers.GenerateGroupedCode | backend/utils/helpers.py:21-29 | the grouped code without separators is the raw random code |
| Helpers.DefaultGroupedCodeShape | backend/utils/helpers.py:21-29 | the default code has 19 characters: four groups of four, separated by '-' at positions 4, 9 and 14 |
| Helpers.FilterDictKeys | backend/utils/helpers.py:173-177 | keeps exactly the allowed keys of the data, with their values |
| Helpers.MergeDicts | backend/utils/helpers.py:163-171 | the keys are those of the dictionary arguments; non-dictionaries are ignored; the last dictionary holding a key gives its value |
| Helpers.MergeAllLastWins | backend/utils/helpers.py:163-171 | the same key and last-wins facts about the merged result |
| Helpers.Strip | backend/utils/helpers.py:145 | the result is the input with its leading and trailing whitespace cut off (whitespace as Python's `isspace`, the ASCII separators 0x1C to 0x1F included): a contiguous part that neither begins nor ends with whitespace, and everything outside it is whitespace |
| Helpers.FirstField | backend/utils/helpers.py:145 | the text before the first comma |
| Helpers.GetClientIp | backend/utils/helpers.py:138-151 | a non-empty X-Forwarded-For gives its first field stripped; else a non-empty X-Real-IP; else the client host |
| Validators.ValidatePasswordStrength | backend/utils/validators.py:15-38 | accepts exactly strong passwords; otherwise reports the first failure among too short, too long, no digit, no letter and no special character |
| Validators.PatternBody | backend/utils/validators.py:51 | `$` accepts the text or the text without one trailing newline |
| Validators.ValidateUsername | backend/utils/validators.py:40-58 | accepts exactly 3..50 characters matching the pattern with no leading digit; otherwise reports the first failure in that order |
| Validators.UsernameTrailingNewline | backend/utils/validators.py:51-52 | an accepted username may end in one newline, and adding a newline to a short valid one keeps it valid |
| Validators.ValidateTaskTitle | backend/utils/validators.py:60-70 | rejects blank titles first, then titles over 200 characters |
| Validators.StripEmptyIffBlank | backend/utils/validators.py:64 | a title strips to nothing exactly when it is all whitespace |
| Validators.SeparatorTitleIsBlank | backend/utils/validators.py:64 | a title made of one ASCII information separator (0x1C to 0x1F) is rejected as empty, since `strip` removes it |
| Validators.ValidateGpuServerConfig | backend/utils/validators.py:72-92 | reports the first missing field among host, port and username; a host that is not a string raises; a host that fails the pattern gets the host message, then a port that is not an int in 1..65535 gets the port message; it accepts exactly a matching host and an int port (a bool counts as one) in 1..65535 |
| Validators.BoolPortAccepted | backend/utils/validators.py:88-90 | port True passes as the integer 1 |
| Validators.RemoveDangerous | backend/utils/validators.py:102-109 | no dangerous character remains, every other character is kept, and the result is never longer |
| Validators.RemoveDangerousAppend | backend/utils/validators.py:102-109 | removal distributes over concatenation, so the kept characters stay in order and with their multiplicity |
| Validators.RemoveDangerousSingle | backend/utils/validators.py:102-109 | a single character is dropped exactly when it is one of < > " ' |
| Validators.RemoveDangerousClean | backend/utils/validators.py:102-109 | text without dangerous characters is unchanged |
| Validators.SanitizeInput | backend/utils/validators.py:94-111 | empty input gives ""; other input is stripped, cut to `max_length` and cleaned of < > " '; the result is at most `max_length` long |
| Validators.SanitizeKeepsCleanText | backend/utils/validators.py:94-111 | text that fits, has no surrounding whitespace and no dangerous character comes back unchanged |
| Auth.RoleLevel | backend/services/auth_service.py:281-288 | user is level 0, admin level 1, super_admin level 2, and any other name level 0 |
| Auth.CheckUserPermission | backend/services/auth_service.py:277-288 | a super admin passes every requirement; an admin passes every requirement but super_admin; a regular user passes only requirements that are neither admin nor super_admin |
| Auth.PermissionProperties | backend/services/auth_service.py:277-288 | reflexive; a super admin passes everything; an unknown requirement is granted; monotone in the requirement; a regular user passes only level-0 requirements |
| Auth.ConfirmPasswordReset | backend/services/auth_service.py:248-275 | true exactly for a non-empty payload of type password_reset with a non-empty `sub`; only that user's hash and `updated_at` change; false writes nothing |
| Auth.CreateUser | backend/services/auth_service.py:72-116 | the duplicate-email check comes before the duplicate-username check; a new user is a regular, active user with balance 0 |
| Auth.CreateUserKeepsUnique | backend/services/auth_service.py:78-98 | registration keeps e-mails and usernames unique |

## Left out

- Store failures: the exceptions that become 500 responses, or a False or None answer. Modelled are the query failure in `find_available_server`, the undefined `gpu_count` sum in the cluster counts, and the record rebuilds of the task handlers and of the admin user list and update.
- Record rebuilds elsewhere: the services, the recharge, GPU, user and auth routes and the current-user dependency also rebuild stored rows as bounded records; their rows are taken as within bounds. The e-mail format check of the `User` record is not modelled.
- TaskServiceModel.TaskService.GetRunningTasks: the registry is a map, so the ids come back as a set; the registration order of the source's `list(keys())` is not modelled.
- TaskServiceModel.TaskService.StopAllTasks: the scheduler of a unit that already ended before the stop still writes its second failure afterwards; the model drops that write together with the unit.
- Framework query validation (`page ≥ 1`, `1 ≤ page_size ≤ 100`, returning 422) and the `require_admin` / `require_super_admin` dependencies: they appear as preconditions.
- Sorting is the store's job: listings take their rows already in the store's order (newest first).
- The `ilike` wildcards and Unicode case folding in the user search (only ASCII letters fold), and the PostgREST `or_` syntax.
- Unicode semantics of `\d` and `isdigit`: only ASCII digits are modelled. Whitespace for `strip` is Python's full `isspace` set.
- `request.client` being None in `get_client_ip`.
- Hashing (bcrypt, sha256), JWT encoding and decoding, and e-mail validation: a hash is a given string and a token arrives decoded.
- Real time: the sleeps between steps and the 3600-second maintenance window. They are event boundaries; timestamps are abstract ordered values.
- Floating point: progress is the exact percentage k·100/total rather than the float `(k / total) * 100`. Balances are exact reals. Utilisation percentages, costs and file sizes are not modelled.
- The SSH probe, server monitoring and GPU telemetry: `ping_server` takes the probe's outcome as a boolean.
- Concurrency beyond the atomic events: the task service serialises at its sleeps and its wait for the execution unit. Concurrent requests to the route handlers, which could interleave their separate store calls, are not modelled.
- RechargeRoutes.CreateRechargeCodes: the retry loop draws until a code is free. The model consumes a given finite sequence of draws and stops early when they run out, where the real loop keeps drawing. The model also does not promise that exactly `quantity` codes come back when enough draws are free.
- RechargeRoutes.UseRechargeCode: `expires_at` is parsed from its stored text and compared with the naive `utcnow()`. The model compares abstract times; text with an offset, which would make the comparison raise, is not modelled.
- `max_uses`, `used_count` and `is_active` of a recharge code are declared but not consulted by the routes, so the model has no use counting.
- `get_recharge_records`, `get_user_balance`, `get_user_by_id`, the system statistics, logs and maintenance toggle, and the thin GPU, user and auth CRUD routes: they pass data through or return canned values.
- `calculate_task_cost`, `calculate_percentage`, `format_file_size`, `get_time_range`, the JSON helpers and `hash_string`: they are floating point, dates or library wrappers.

## Findings

| source | as written | input that shows it | evidently intended | confidence | as-written member | corrected member |
|---|---|---|---|---|---|---|
| backend/services/task_service.py:57, 195-224 | `_schedule_task` starts the task from the object captured at creation and never re-reads its stored status | create a task; cancel it (status becomes cancelled); the scheduler then runs with a free server and writes `running` over the cancellation | a task no longer pending when its scheduler runs is left alone | not executed | TaskServiceModel.CancelledBeforeSchedulingIsRevived | TaskServiceModel.CancelledBeforeSchedulingStaysCancelled |
| backend/services/task_service.py:107-110 | `update_task` reads `update_data.priority` and `update_data.config`, but `TaskUpdate` (backend/models/database_models.py:79-86) declares neither field | any update of an existing pending task raises AttributeError before writing | the supplied fields and `updated_at` are written | not executed | TaskServiceModel.TaskService.UpdateTask | TaskServiceModel.TaskService.UpdateTaskIntended |
