/** The administrator's user-management handlers: the filtered, paged
    user list, the field-by-field user update with its permission rules,
    and the soft delete. Access to these handlers is granted by the
    `require_admin` / `require_super_admin` dependencies, which appear
    here as preconditions on the caller's role. */
module AdminRoutes {
  import opened Models
  import Helpers

  const UserNotFound := "用户不存在"
  const AdminProtected := "权限不足，无法修改管理员用户"
  const UsernameTaken := "用户名已被使用"
  const RoleChangeForbidden := "权限不足，无法修改用户角色"
  const InvalidRole := "无效的角色，有效角色: user, admin, super_admin"
  const NegativeBalance := "余额不能为负数"
  const CannotDeleteSelf := "不能删除自己"
  const HasRunningTasks := "用户有正在运行的任务，无法删除"
  const ListUsersFailed := "获取用户列表失败"
  const UpdateUserFailed := "更新用户失败"

  // ---------------------------------------------------------------------
  // GET /admin/users

  function AsciiLower(c: char): char {
    if 'A' <= c <= 'Z' then (c as int + 32) as char else c
  }

  /** `field ilike %term%` for a term without wildcards, folding ASCII case. */
  predicate ContainsFolded(field: string, term: string) {
    exists i :: 0 <= i <= |field| - |term| && FoldedAt(field, term, i)
  }

  predicate FoldedAt(field: string, term: string, i: int)
    requires 0 <= i <= |field| - |term|
  {
    forall k :: 0 <= k < |term| ==> AsciiLower(field[i + k]) == AsciiLower(term[k])
  }

  predicate SearchMatches(u: User, search: string) {
    || ContainsFolded(u.username, search)
    || ContainsFolded(u.email, search)
    || (u.fullName.Some? && ContainsFolded(u.fullName.value, search))
  }

  /** The list filters: an empty search or role string is no filter. */
  predicate UserMatches(u: User, search: Option<string>, role: Option<string>, isActive: Option<bool>) {
    && (search.None? || search.value == "" || SearchMatches(u, search.value))
    && (role.None? || role.value == "" || RoleName(u.role) == role.value)
    && (isActive.None? || u.isActive == isActive.value)
  }

  function MatchingUsers(rows: seq<User>, search: Option<string>, role: Option<string>, isActive: Option<bool>)
    : (r: seq<User>)
    ensures |r| <= |rows|
    ensures forall u :: u in r <==> u in rows && UserMatches(u, search, role, isActive)
  {
    if rows == [] then []
    else
      var rest := MatchingUsers(rows[1..], search, role, isActive);
      if UserMatches(rows[0], search, role, isActive) then [rows[0]] + rest else rest
  }

  /** The filter keeps the store's order: filtering two runs of rows one
      after the other is filtering each and concatenating. */
  lemma {:induction false} MatchingUsersAppend(a: seq<User>, b: seq<User>, search: Option<string>, role: Option<string>, isActive: Option<bool>)
    ensures MatchingUsers(a + b, search, role, isActive) == MatchingUsers(a, search, role, isActive) + MatchingUsers(b, search, role, isActive)
    decreases |a|
  {
    if a == [] {
      assert a + b == b;
    } else {
      assert (a + b)[0] == a[0];
      assert (a + b)[1..] == a[1..] + b;
      MatchingUsersAppend(a[1..], b, search, role, isActive);
    }
  }

  /** The rows of `matching` that the page starting at `offset` shows
      are all valid `User` records. */
  predicate UserWindowValid(matching: seq<User>, offset: nat, pageSize: int) {
    forall k :: offset <= k < |matching| && k < offset + pageSize ==> UserRecordValid(matching[k])
  }

  /** `get_all_users`: `rows` is the users table newest first. The count
      and the page are taken over the same filtered rows. Every row of the
      page is rebuilt as a `User` record, so one row out of the record's
      bounds turns the whole answer into 500. */
  function GetAllUsers(rows: seq<User>, page: int, pageSize: int,
                       search: Option<string>, role: Option<string>, isActive: Option<bool>): (r: Reply<Helpers.Page<User>>)
    requires page >= 1 && 1 <= pageSize <= 100
    ensures var matching := MatchingUsers(rows, search, role, isActive);
      var offset := Helpers.Offset(page, pageSize);
      && (r.Ok? <==> UserWindowValid(matching, offset, pageSize))
      && (!r.Ok? ==> r == HttpError(500, ListUsersFailed))
      && (r.Ok? ==>
            && r.value.total == |matching|
            && r.value.totalPages == Helpers.CeilDiv(r.value.total, pageSize)
            && |r.value.items| <= pageSize
            && (offset >= r.value.total ==> r.value.items == [])
            && (offset < r.value.total ==> |r.value.items| == Helpers.Min(pageSize, r.value.total - offset))
            && (forall k :: 0 <= k < |r.value.items| ==> r.value.items[k] == matching[offset + k]))
    ensures r.Ok? ==> forall u :: u in r.value.items ==> u in rows && UserMatches(u, search, role, isActive) && UserRecordValid(u)
  {
    var matching := MatchingUsers(rows, search, role, isActive);
    var offset := Helpers.Offset(page, pageSize);
    var listing := Helpers.PageOf(matching, page, pageSize);
    if !UserWindowValid(matching, offset, pageSize) then HttpError(500, ListUsersFailed)
    else
      assert forall u :: u in listing.items ==> u in rows && UserMatches(u, search, role, isActive) && UserRecordValid(u) by {
        forall u | u in listing.items ensures u in rows && UserMatches(u, search, role, isActive) && UserRecordValid(u) {
          assert u in matching;
          var k :| 0 <= k < |listing.items| && listing.items[k] == u;
          assert u == matching[offset + k];
        }
      }
      Ok(listing)
  }

  // ---------------------------------------------------------------------
  // PUT /admin/users/{id}

  /** `UpdateUserRequest`: each field None when not supplied. */
  datatype UserEdits = UserEdits(
    username: Option<string>,
    fullName: Option<string>,
    role: Option<string>,
    isActive: Option<bool>,
    balance: Option<real>)

  /** The row after an accepted update: the supplied fields and
      `updated_at` change, nothing else does. */
  function ApplyUserEdits(u: User, e: UserEdits, now: Time): (r: User)
    requires e.role.Some? ==> ParseRole(e.role.value).Some?
    ensures r.username == (if e.username.Some? then e.username.value else u.username)
    ensures r.fullName == (if e.fullName.Some? then e.fullName else u.fullName)
    ensures r.role == (if e.role.Some? then ParseRole(e.role.value).value else u.role)
    ensures r.isActive == (if e.isActive.Some? then e.isActive.value else u.isActive)
    ensures r.balance == (if e.balance.Some? then e.balance else u.balance)
    ensures r == u.(username := r.username, fullName := r.fullName, role := r.role, isActive := r.isActive,
                    balance := r.balance, updatedAt := Some(now))
  {
    u.(username := if e.username.Some? then e.username.value else u.username,
       fullName := if e.fullName.Some? then e.fullName else u.fullName,
       role := if e.role.Some? then ParseRole(e.role.value).value else u.role,
       isActive := if e.isActive.Some? then e.isActive.value else u.isActive,
       balance := if e.balance.Some? then e.balance else u.balance,
       updatedAt := Some(now))
  }

  predicate IsAdminRole(r: UserRole) { r == Admin || r == SuperAdmin }

  /** Another user than `id` already has `username`. */
  predicate UsernameHeldByOther(users: map<UserId, User>, id: UserId, username: string) {
    exists other :: other in users && other != id && users[other].username == username
  }

  /** The target exists and the caller may edit it. */
  predicate PastProtection(users: map<UserId, User>, caller: User, id: UserId) {
    id in users && (IsAdminRole(users[id].role) ==> caller.role == SuperAdmin)
  }

  predicate UsernameClash(users: map<UserId, User>, id: UserId, request: UserEdits) {
    request.username.Some? && UsernameHeldByOther(users, id, request.username.value)
  }

  /** Every check of `update_user` passes. */
  predicate UpdateAllowed(users: map<UserId, User>, caller: User, id: UserId, request: UserEdits) {
    && id in users
    && (IsAdminRole(users[id].role) ==> caller.role == SuperAdmin)
    && (request.username.Some? ==> !UsernameHeldByOther(users, id, request.username.value))
    && (request.role.Some? ==> caller.role == SuperAdmin && ParseRole(request.role.value).Some?)
    && (request.balance.Some? ==> request.balance.value >= 0.0)
  }

  /** `update_user`: checks, in order, that the user exists, that a caller
      below super admin is not editing an administrator, that a new
      username is free, that only a super admin changes roles and only to
      a known role, and that a new balance is not negative; then writes
      the supplied fields. The request carries no length bounds: the
      written row is rebuilt as a `User` record only afterwards, so a
      username shorter than 3 or longer than 50 characters stays written
      and the answer is 500. */
  method UpdateUser(users: map<UserId, User>, caller: User, id: UserId, request: UserEdits, now: Time)
    returns (r: Reply<User>, users': map<UserId, User>)
    requires IsAdminRole(caller.role)
    ensures !UpdateAllowed(users, caller, id, request) ==> users' == users
    ensures UpdateAllowed(users, caller, id, request) ==> users' == users[id := ApplyUserEdits(users[id], request, now)]
    ensures UpdateAllowed(users, caller, id, request) && !UserRecordValid(users'[id]) ==>
              r == HttpError(500, UpdateUserFailed)
    ensures id !in users ==> r == HttpError(404, UserNotFound)
    ensures id in users && IsAdminRole(users[id].role) && caller.role != SuperAdmin ==>
              r == HttpError(403, AdminProtected)
    ensures PastProtection(users, caller, id) && UsernameClash(users, id, request) ==>
              r == HttpError(400, UsernameTaken)
    ensures PastProtection(users, caller, id) && !UsernameClash(users, id, request) &&
            request.role.Some? && caller.role != SuperAdmin ==>
              r == HttpError(403, RoleChangeForbidden)
    ensures PastProtection(users, caller, id) && !UsernameClash(users, id, request) &&
            request.role.Some? && caller.role == SuperAdmin && ParseRole(request.role.value).None? ==>
              r == HttpError(400, InvalidRole)
    ensures PastProtection(users, caller, id) && !UsernameClash(users, id, request) &&
            (request.role.Some? ==> caller.role == SuperAdmin && ParseRole(request.role.value).Some?) &&
            request.balance.Some? && request.balance.value < 0.0 ==>
              r == HttpError(400, NegativeBalance)
    ensures r.Ok? <==> UpdateAllowed(users, caller, id, request) && UserRecordValid(ApplyUserEdits(users[id], request, now))
    ensures r.Ok? ==> r.value == ApplyUserEdits(users[id], request, now) && users' == users[id := r.value]
    ensures r.Ok? && caller.role != SuperAdmin ==> users[id].role == RegularUser && r.value.role == RegularUser
  {
    if id !in users {
      return HttpError(404, UserNotFound), users;
    }
    var target := users[id];
    if IsAdminRole(target.role) && caller.role != SuperAdmin {
      return HttpError(403, AdminProtected), users;
    }
    var updated := target.(updatedAt := Some(now));
    if request.username.Some? {
      if UsernameHeldByOther(users, id, request.username.value) {
        return HttpError(400, UsernameTaken), users;
      }
      updated := updated.(username := request.username.value);
    }
    if request.fullName.Some? {
      updated := updated.(fullName := request.fullName);
    }
    if request.role.Some? {
      if caller.role != SuperAdmin {
        return HttpError(403, RoleChangeForbidden), users;
      }
      var role := ParseRole(request.role.value);
      if role.None? {
        return HttpError(400, InvalidRole), users;
      }
      updated := updated.(role := role.value);
    }
    if request.isActive.Some? {
      updated := updated.(isActive := request.isActive.value);
    }
    if request.balance.Some? {
      if request.balance.value < 0.0 {
        return HttpError(400, NegativeBalance), users;
      }
      updated := updated.(balance := request.balance);
    }
    users' := users[id := updated];
    if !UserRecordValid(updated) {
      return HttpError(500, UpdateUserFailed), users';
    }
    r := Ok(updated);
  }

  /** The username check keeps usernames unique: an accepted update of a
      table with unique usernames leaves them unique. */
  lemma {:induction false} UpdateKeepsUsernamesUnique(users: map<UserId, User>, id: UserId, request: UserEdits, now: Time)
    requires id in users
    requires request.role.Some? ==> ParseRole(request.role.value).Some?
    requires request.username.Some? ==> !UsernameHeldByOther(users, id, request.username.value)
    requires forall a, b :: a in users && b in users && a != b ==> users[a].username != users[b].username
    ensures var users' := users[id := ApplyUserEdits(users[id], request, now)];
      forall a, b :: a in users' && b in users' && a != b ==> users'[a].username != users'[b].username
  {
    var users' := users[id := ApplyUserEdits(users[id], request, now)];
    forall a, b | a in users' && b in users' && a != b
      ensures users'[a].username != users'[b].username
    {
      if request.username.Some? && (a == id || b == id) {
        var other := if a == id then b else a;
        assert other in users && other != id;
      }
    }
  }

  // ---------------------------------------------------------------------
  // DELETE /admin/users/{id}

  /** `delete_user`: refuses a missing user, the caller themselves and a
      user with running tasks, in that order; otherwise the row stays and
      is marked inactive and deleted. */
  method DeleteUser(users: map<UserId, User>, tasks: map<TaskId, Task>, caller: User, id: UserId, now: Time)
    returns (r: Reply<()>, users': map<UserId, User>)
    requires caller.role == SuperAdmin
    ensures id !in users ==> r == HttpError(404, UserNotFound) && users' == users
    ensures id in users && id == caller.id ==> r == HttpError(400, CannotDeleteSelf) && users' == users
    ensures id in users && id != caller.id && RunningTasksOf(tasks, id) != {} ==>
              r == HttpError(400, HasRunningTasks) && users' == users
    ensures r.Ok? <==> id in users && id != caller.id && RunningTasksOf(tasks, id) == {}
    ensures r.Ok? ==> && users'.Keys == users.Keys
                      && users' == users[id := users[id].(isActive := false, deletedAt := Some(now), updatedAt := Some(now))]
                      && !users'[id].isActive && users'[id].deletedAt == Some(now)
  {
    if id !in users {
      return HttpError(404, UserNotFound), users;
    }
    if id == caller.id {
      return HttpError(400, CannotDeleteSelf), users;
    }
    if RunningTasksOf(tasks, id) != {} {
      return HttpError(400, HasRunningTasks), users;
    }
    users' := users[id := users[id].(isActive := false, deletedAt := Some(now), updatedAt := Some(now))];
    r := Ok(());
  }
}
