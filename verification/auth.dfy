/** The parts of the authentication service that decide something: the
    role hierarchy, the guards of a password-reset confirmation and the
    duplicate checks and defaults of user registration. Hashing and token
    decoding are outside the model: a hash is a given string and a token
    is given already decoded. */
module Auth {
  import opened Models

  /** `role_hierarchy.get(name, 0)`. */
  function RoleLevel(name: string): (level: nat)
    ensures name == "user" ==> level == 0
    ensures name == "admin" ==> level == 1
    ensures name == "super_admin" ==> level == 2
    ensures ParseRole(name).None? ==> level == 0
  {
    if name == "super_admin" then 2
    else if name == "admin" then 1
    else 0
  }

  /** `check_user_permission`: a super admin passes every requirement, an
      admin every requirement but `super_admin`, a regular user only
      `user` and names outside the hierarchy. */
  function CheckUserPermission(user: User, requiredRole: string): (granted: bool)
    ensures granted <==> || user.role == SuperAdmin
                         || (user.role == Admin && requiredRole != "super_admin")
                         || (requiredRole != "admin" && requiredRole != "super_admin")
  {
    RoleLevel(RoleName(user.role)) >= RoleLevel(requiredRole)
  }

  /** Every user holds their own role; a super admin passes every check;
      an unknown required role is granted to everyone; and the check is
      monotone: a role that passes a requirement passes every weaker one. */
  lemma {:induction false} PermissionProperties(user: User, required: string, weaker: string)
    ensures CheckUserPermission(user, RoleName(user.role))
    ensures user.role == SuperAdmin ==> CheckUserPermission(user, required)
    ensures ParseRole(required).None? ==> CheckUserPermission(user, required)
    ensures CheckUserPermission(user, required) && RoleLevel(weaker) <= RoleLevel(required) ==>
              CheckUserPermission(user, weaker)
    ensures user.role == RegularUser ==> (CheckUserPermission(user, required) <==> RoleLevel(required) == 0)
  {
    match user.role
    case SuperAdmin =>
    case Admin =>
    case RegularUser =>
  }

  // ---------------------------------------------------------------------
  // confirm_password_reset

  /** The claims of a decoded token; None when the token does not verify. */
  type Claims = map<string, string>

  /** `confirm_password_reset`: an unverified or empty payload, a type other
      than `password_reset`, or a missing or empty `sub` answers false and
      writes nothing. Otherwise the hash of the user named by `sub` is
      replaced (a missing user makes the update match no row) and the
      answer is true. */
  function ConfirmPasswordReset(users: map<UserId, User>, payload: Option<Claims>, newHash: string, now: Time)
    : (r: (bool, map<UserId, User>))
    ensures r.0 <==> && payload.Some? && payload.value != map[]
                     && "type" in payload.value && payload.value["type"] == "password_reset"
                     && "sub" in payload.value && payload.value["sub"] != ""
    ensures !r.0 ==> r.1 == users
    ensures r.0 ==> var sub := payload.value["sub"];
              && r.1.Keys == users.Keys
              && (sub in users ==> r.1[sub] == users[sub].(passwordHash := newHash, updatedAt := Some(now)))
              && forall id :: id in users && id != sub ==> r.1[id] == users[id]
  {
    if payload.None? || payload.value == map[] then (false, users)
    else if "type" !in payload.value || payload.value["type"] != "password_reset" then (false, users)
    else if "sub" !in payload.value || payload.value["sub"] == "" then (false, users)
    else
      var sub := payload.value["sub"];
      if sub in users then (true, users[sub := users[sub].(passwordHash := newHash, updatedAt := Some(now))])
      else (true, users)
  }

  // ---------------------------------------------------------------------
  // create_user

  const EmailTaken := "邮箱已被注册"
  const UsernameTaken := "用户名已被使用"

  predicate EmailInUse(users: map<UserId, User>, email: string) {
    exists id :: id in users && users[id].email == email
  }

  predicate UsernameInUse(users: map<UserId, User>, username: string) {
    exists id :: id in users && users[id].username == username
  }

  /** `create_user`: the e-mail is checked before the username; a new user
      is a regular, active user with balance 0. `id` is the key the store
      assigns and `hash` the password hash. */
  function CreateUser(users: map<UserId, User>, id: UserId, data: UserCreate, hash: string, now: Time)
    : (r: Outcome<(User, map<UserId, User>)>)
    requires id !in users
    ensures EmailInUse(users, data.email) ==> r == Raised(EmailTaken)
    ensures !EmailInUse(users, data.email) && UsernameInUse(users, data.username) ==> r == Raised(UsernameTaken)
    ensures r.Returned? <==> !EmailInUse(users, data.email) && !UsernameInUse(users, data.username)
    ensures r.Returned? ==>
              var (u, users') := r.value;
              && users' == users[id := u]
              && u.email == data.email && u.username == data.username && u.fullName == data.fullName
              && u.role == RegularUser && u.isActive && u.balance == Some(0.0) && u.deletedAt.None?
              && u.passwordHash == hash
  {
    if EmailInUse(users, data.email) then Raised(EmailTaken)
    else if UsernameInUse(users, data.username) then Raised(UsernameTaken)
    else
      var u := User(id, data.email, data.username, data.fullName, RegularUser, true, Some(0.0), hash, now, Some(now), None);
      Returned((u, users[id := u]))
  }

  /** Registration keeps e-mails and usernames unique: if they were unique
      in the table before, they are after a successful registration. */
  lemma {:induction false} CreateUserKeepsUnique(users: map<UserId, User>, id: UserId, data: UserCreate, hash: string, now: Time)
    requires id !in users
    requires forall a, b :: a in users && b in users && a != b ==>
               users[a].email != users[b].email && users[a].username != users[b].username
    requires CreateUser(users, id, data, hash, now).Returned?
    ensures var users' := CreateUser(users, id, data, hash, now).value.1;
      forall a, b :: a in users' && b in users' && a != b ==>
        users'[a].email != users'[b].email && users'[a].username != users'[b].username
  {
    var users' := CreateUser(users, id, data, hash, now).value.1;
    forall a, b | a in users' && b in users' && a != b
      ensures users'[a].email != users'[b].email && users'[a].username != users'[b].username
    {
      if a == id {
        assert !EmailInUse(users, data.email) && !UsernameInUse(users, data.username);
        assert b in users;
      } else if b == id {
        assert !EmailInUse(users, data.email) && !UsernameInUse(users, data.username);
        assert a in users;
      }
    }
  }
}
