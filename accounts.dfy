/** The account controller: request validation for register and login, and
    the handlers register, login, logout, getProfile, updateProfile,
    changePassword and deleteAccount over the users, user_goals and
    user_sessions collections. Each handler is one atomic step. */
module Accounts {
  import opened Opt
  import opened Store
  import JsString

  /** One entry of the `errors` array a 400 reply carries. */
  datatype FieldError = FieldError(field: string, msg: string)

  /** The register body after express-validator's `toString`: an absent
      string field reads as "". `age` is None unless it is an integer. */
  datatype RegisterRequest = RegisterRequest(
    firstName: string, lastName: string, email: string, age: Option<int>,
    password: string, confirmPassword: string,
    menopauseStage: Option<string>, newsletter: Option<bool>)

  datatype LoginRequest = LoginRequest(email: string, password: string, rememberMe: bool)

  /** The five fields a profile update writes; None is a field left undefined. */
  datatype ProfileUpdate = ProfileUpdate(
    firstName: Option<string>, lastName: Option<string>, age: Option<int>,
    menopauseStage: Option<string>, newsletter: Option<bool>)

  /** The user object a register or login reply carries. Neither shape has a
      password hash. */
  datatype UserView =
    | NewAccount(id: UserId, firstName: string, lastName: string, email: string,
                 age: int, menopauseStage: string, newsletter: bool)
    | StoredAccount(id: UserId, firstName: string, lastName: string, email: string,
                    age: int, menopauseStage: string, newsletter: bool,
                    isActive: bool, isAdmin: bool, createdAt: nat, lastLogin: Option<nat>)

  datatype Authenticated = Authenticated(user: UserView, token: string, expiresIn: string)

  /** `{ ...user, ...goals, id }`: the whole user document (its hash included),
      overlaid by the goals document when there is one. */
  datatype Profile = Profile(id: UserId, user: User, goals: Option<Goals>)

  datatype Reply<T> = Reply(status: nat, message: string, errors: seq<FieldError>, data: Option<T>)

  const FirstNameMsg := "First name must be 2-50 characters"
  const LastNameMsg := "Last name must be 2-50 characters"
  const EmailMsg := "Valid email is required"
  const AgeMsg := "Age must be between 18-100"
  const PasswordMsg := "Password must be at least 8 characters"
  const ConfirmMsg := "Passwords do not match"
  /** express-validator's default message, for the stage rule that sets none. */
  const InvalidValueMsg := "Invalid value"
  const LoginFailedMsg := "Invalid email or password"

  function NameError(field: string, value: string, msg: string): seq<FieldError> {
    var n := |JsString.Trim(value)|;
    if 2 <= n <= 50 then [] else [FieldError(field, msg)]
  }

  /** `registerValidation`, every rule evaluated and its failures collected in order. */
  function RegisterErrors(req: RegisterRequest, isEmail: string -> bool): (errs: seq<FieldError>)
    ensures errs == [] <==>
      && 2 <= |JsString.Trim(req.firstName)| <= 50
      && 2 <= |JsString.Trim(req.lastName)| <= 50
      && isEmail(req.email)
      && req.age.Some? && 18 <= req.age.value <= 100
      && |req.password| >= 8
      && req.confirmPassword == req.password
      && (req.menopauseStage.None? || req.menopauseStage.value in Stages)
    ensures |errs| <= 7
  {
    NameError("firstName", req.firstName, FirstNameMsg)
    + NameError("lastName", req.lastName, LastNameMsg)
    + (if isEmail(req.email) then [] else [FieldError("email", EmailMsg)])
    + (if req.age.Some? && 18 <= req.age.value <= 100 then [] else [FieldError("age", AgeMsg)])
    + (if |req.password| >= 8 then [] else [FieldError("password", PasswordMsg)])
    + (if req.confirmPassword == req.password then [] else [FieldError("confirmPassword", ConfirmMsg)])
    + (if req.menopauseStage.None? || req.menopauseStage.value in Stages then []
       else [FieldError("menopauseStage", InvalidValueMsg)])
  }

  /** `loginValidation`. */
  function LoginErrors(req: LoginRequest, isEmail: string -> bool): (errs: seq<FieldError>)
    ensures errs == [] <==> isEmail(req.email) && req.password != ""
    ensures |errs| <= 2
  {
    (if isEmail(req.email) then [] else [FieldError("email", EmailMsg)])
    + (if req.password != "" then [] else [FieldError("password", "Password is required")])
  }

  /** No two accounts, active or not, share an email address. */
  ghost predicate EmailsUnique(users: map<UserId, User>) {
    forall a, b :: a in users && b in users && users[a].email == users[b].email ==> a == b
  }

  /** Some account, active or soft-deleted, has this email (the conflict check). */
  predicate EmailTaken(users: map<UserId, User>, email: string) {
    exists id :: id in users && users[id].email == email
  }

  predicate ActiveWithEmail(users: map<UserId, User>, id: UserId, email: string) {
    id in users && users[id].email == email && users[id].isActive
  }

  /** The active account the login lookup finds for an email, if any. */
  ghost function ActiveAccount(users: map<UserId, User>, email: string): (r: Option<UserId>)
    ensures r.Some? ==> ActiveWithEmail(users, r.value, email)
    ensures r.None? ==> forall id :: !ActiveWithEmail(users, id, email)
  {
    if exists id :: ActiveWithEmail(users, id, email) then
      Some(var id :| ActiveWithEmail(users, id, email); id)
    else None
  }

  /** With unique emails the lookup is determined: the one active match. */
  lemma ActiveAccountUnique(users: map<UserId, User>, email: string, id: UserId)
    requires EmailsUnique(users) && ActiveWithEmail(users, id, email)
    ensures ActiveAccount(users, email) == Some(id)
  {
  }

  /** The document register creates (its lastLogin already set by the
      update that follows the session insert). */
  function RegisteredUser(req: RegisterRequest, email: string, salt: nat, now: nat): (u: User)
    ensures u.isActive && !u.isAdmin && u.email == email && Verifies(req.password, u.passwordHash)
    ensures u.menopauseStage == if req.menopauseStage.Some? then req.menopauseStage.value else "not-sure"
    ensures u.newsletter == (req.newsletter == Some(true))
  {
    User(JsString.Trim(req.firstName), JsString.Trim(req.lastName), email,
         HashPassword(req.password, salt), if req.age.Some? then req.age.value else 0,
         if req.menopauseStage.Some? then req.menopauseStage.value else "not-sure",
         if req.newsletter.Some? then req.newsletter.value else false,
         true, false, now, Some(now))
  }

  /** The login reply's user: the document as read, minus its hash. */
  function StoredView(id: UserId, u: User): UserView {
    StoredAccount(id, u.firstName, u.lastName, u.email, u.age, u.menopauseStage, u.newsletter,
                  u.isActive, u.isAdmin, u.createdAt, u.lastLogin)
  }

  /** After a soft delete the address can neither log in nor be registered
      again: no active account has it, yet the conflict check still sees it. */
  lemma SoftDeleteIsPermanent(users: map<UserId, User>, uid: UserId)
    requires EmailsUnique(users) && uid in users
    ensures var after := users[uid := users[uid].(isActive := false)];
      ActiveAccount(after, users[uid].email).None? && EmailTaken(after, users[uid].email)
  {
    var after := users[uid := users[uid].(isActive := false)];
    var email := users[uid].email;
    assert forall id :: id in users && id != uid ==> users[id].email != email;
    assert after[uid].email == email;
  }

  /** A freshly registered account is the one login finds for its address. */
  lemma RegisteredAccountFound(users: map<UserId, User>, id: UserId, u: User)
    requires EmailsUnique(users) && id !in users && u.isActive
    requires !EmailTaken(users, u.email)
    ensures EmailsUnique(users[id := u])
    ensures ActiveAccount(users[id := u], u.email) == Some(id)
  {
    var after := users[id := u];
    assert forall b :: b in users ==> users[b].email != u.email;
    forall a, b | a in after && b in after && after[a].email == after[b].email
      ensures a == b
    {
      if a != id && b != id {
        assert users[a].email == users[b].email;
      }
    }
    ActiveAccountUnique(after, u.email, id);
  }

  /** The batch the session invalidation commits: every session of `uid`
      still active is updated to inactive, one by one. */
  method DeactivateBatch(sessions: seq<Session>, uid: UserId) returns (batch: seq<Session>)
    ensures batch == DeactivateAll(sessions, uid)
  {
    ghost var target := DeactivateAll(sessions, uid);
    batch := sessions;
    var i := 0;
    while i < |batch|
      invariant 0 <= i <= |batch| == |target|
      invariant forall k :: 0 <= k < i ==> batch[k] == target[k]
      invariant forall k :: i <= k < |batch| ==> batch[k] == sessions[k]
    {
      if batch[i].userId == uid && batch[i].isActive {
        batch := batch[i := batch[i].(isActive := false)];
      }
      i := i + 1;
    }
    assert batch == target;
  }

  class AuthService {
    var users: map<UserId, User>
    var goals: map<UserId, Goals>
    var sessions: seq<Session>
    var nextId: UserId
    /** express-validator's `isEmail` and `normalizeEmail`, and `jwt.sign`
        with the server secret: foreign code, given at construction. */
    const isEmail: string -> bool
    const normalizeEmail: string -> string
    const sign: Claims -> string
    /** The JWT_EXPIRES_IN setting, if any. */
    const configuredExpiry: Option<string>

    ghost predicate Valid()
      reads this
    {
      && (forall id :: id in users ==> id < nextId)
      && goals.Keys <= users.Keys
      && (forall i :: 0 <= i < |sessions| ==> sessions[i].userId in users)
      && EmailsUnique(users)
    }

    constructor (isEmail: string -> bool, normalizeEmail: string -> string,
                 sign: Claims -> string, configuredExpiry: Option<string>)
      ensures Valid()
      ensures users == map[] && goals == map[] && sessions == [] && nextId == 0
      ensures this.isEmail == isEmail && this.normalizeEmail == normalizeEmail
      ensures this.sign == sign && this.configuredExpiry == configuredExpiry
    {
      this.isEmail := isEmail;
      this.normalizeEmail := normalizeEmail;
      this.sign := sign;
      this.configuredExpiry := configuredExpiry;
      users, goals, sessions, nextId := map[], map[], [], 0;
    }

    /** `process.env.JWT_EXPIRES_IN || '24h'`. */
    function RegisterExpiresIn(): string
      reads this
    {
      if configuredExpiry.Some? && configuredExpiry.value != "" then configuredExpiry.value else "24h"
    }

    /** `register`. */
    method Register(req: RegisterRequest, now: nat, salt: nat) returns (reply: Reply<Authenticated>)
      requires Valid()
      modifies this
      ensures Valid()
      ensures RegisterErrors(req, isEmail) != [] ==>
        && reply == Reply(400, "Validation failed", RegisterErrors(req, isEmail), None)
        && unchanged(this)
      ensures RegisterErrors(req, isEmail) == [] && EmailTaken(old(users), normalizeEmail(req.email)) ==>
        && reply == Reply(409, "User with this email already exists", [], None)
        && unchanged(this)
      ensures RegisterErrors(req, isEmail) == [] && !EmailTaken(old(users), normalizeEmail(req.email)) ==>
        var id, email, expiresIn := old(nextId), normalizeEmail(req.email), RegisterExpiresIn();
        var u := RegisteredUser(req, email, salt, now);
        var token := sign(Claims(id, email, now, expiresIn));
        && id !in old(users)
        && users == old(users)[id := u]
        && goals == old(goals)[id := ZeroGoals]
        && sessions == old(sessions) + [Session(id, token, now + DayMs, true)]
        && nextId == old(nextId) + 1
        && reply == Reply(201, "User registered successfully", [], Some(Authenticated(
             NewAccount(id, u.firstName, u.lastName, email, u.age, u.menopauseStage, u.newsletter),
             token, expiresIn)))
    {
      var errs := RegisterErrors(req, isEmail);
      if errs != [] {
        return Reply(400, "Validation failed", errs, None);
      }
      var email := normalizeEmail(req.email);
      var sameEmail := set id | id in users && users[id].email == email;
      if sameEmail != {} {
        var other :| other in sameEmail;
        assert EmailTaken(users, email);
        return Reply(409, "User with this email already exists", [], None);
      }
      assert !EmailTaken(users, email) by {
        forall id | id in users && users[id].email == email ensures id in sameEmail { }
      }
      reply := CreateAccount(req, email, now, salt);
    }

    /** The success path of `register`: the document is created, then its
        goals, then its session, then its lastLogin is set (RegisteredUser
        is the document after the last step). */
    method CreateAccount(req: RegisterRequest, email: string, now: nat, salt: nat) returns (reply: Reply<Authenticated>)
      requires Valid() && !EmailTaken(users, email)
      modifies this
      ensures Valid()
      ensures var id, expiresIn := old(nextId), RegisterExpiresIn();
        var u := RegisteredUser(req, email, salt, now);
        var token := sign(Claims(id, email, now, expiresIn));
        && id !in old(users)
        && users == old(users)[id := u]
        && goals == old(goals)[id := ZeroGoals]
        && sessions == old(sessions) + [Session(id, token, now + DayMs, true)]
        && nextId == old(nextId) + 1
        && reply == Reply(201, "User registered successfully", [], Some(Authenticated(
             NewAccount(id, u.firstName, u.lastName, email, u.age, u.menopauseStage, u.newsletter),
             token, expiresIn)))
    {
      var user := RegisteredUser(req, email, salt, now);
      var id := nextId;
      RegisteredAccountFound(users, id, user);
      users := users[id := user];
      nextId := nextId + 1;
      goals := goals[id := ZeroGoals];
      var expiresIn := RegisterExpiresIn();
      var token := sign(Claims(id, email, now, expiresIn));
      sessions := sessions + [Session(id, token, now + DayMs, true)];
      var view := NewAccount(id, user.firstName, user.lastName, email, user.age, user.menopauseStage, user.newsletter);
      reply := Reply(201, "User registered successfully", [], Some(Authenticated(view, token, expiresIn)));
      assert users == old(users)[id := user];
    }

    /** `login`. Both ways of failing give the same reply. */
    method Login(req: LoginRequest, now: nat) returns (reply: Reply<Authenticated>)
      requires Valid()
      modifies this
      ensures Valid()
      ensures reply.status in {200, 400, 401}
      ensures LoginErrors(req, isEmail) != [] ==>
        reply == Reply(400, "Validation failed", LoginErrors(req, isEmail), None) && unchanged(this)
      ensures LoginErrors(req, isEmail) == [] ==>
        var found := ActiveAccount(old(users), normalizeEmail(req.email));
        (reply.status == 401 <==>
           found.None? || !Verifies(req.password, old(users)[found.value].passwordHash))
      ensures LoginErrors(req, isEmail) == [] ==> reply.status in {200, 401}
      ensures reply.status == 401 ==> reply == Reply(401, LoginFailedMsg, [], None) && unchanged(this)
      ensures reply.status == 200 ==>
        var id := ActiveAccount(old(users), normalizeEmail(req.email)).value;
        var u := old(users)[id];
        var expiresIn := if req.rememberMe then "30d" else "24h";
        var ttl := if req.rememberMe then ThirtyDaysMs else DayMs;
        var token := sign(Claims(id, u.email, now, expiresIn));
        && users == old(users)[id := u.(lastLogin := Some(now))]
        && sessions == old(sessions) + [Session(id, token, now + ttl, true)]
        && goals == old(goals) && nextId == old(nextId)
        && reply == Reply(200, "Login successful", [], Some(Authenticated(StoredView(id, u), token, expiresIn)))
    {
      var errs := LoginErrors(req, isEmail);
      if errs != [] {
        return Reply(400, "Validation failed", errs, None);
      }
      var email := normalizeEmail(req.email);
      var matches := set id | id in users && ActiveWithEmail(users, id, email);
      if matches == {} {
        assert forall id :: !ActiveWithEmail(users, id, email) by {
          forall id | ActiveWithEmail(users, id, email) ensures id in matches { }
        }
        return Reply(401, LoginFailedMsg, [], None);
      }
      var id :| id in matches;
      ActiveAccountUnique(users, email, id);
      var user := users[id];
      if !Verifies(req.password, user.passwordHash) {
        return Reply(401, LoginFailedMsg, [], None);
      }
      reply := OpenSession(id, req.rememberMe, now);
    }

    /** The success path of `login`: a session of 30 days or 24 hours, and
        the lastLogin update. */
    method OpenSession(id: UserId, rememberMe: bool, now: nat) returns (reply: Reply<Authenticated>)
      requires Valid() && id in users
      modifies this
      ensures Valid()
      ensures var u := old(users)[id];
        var expiresIn := if rememberMe then "30d" else "24h";
        var ttl := if rememberMe then ThirtyDaysMs else DayMs;
        var token := sign(Claims(id, u.email, now, expiresIn));
        && users == old(users)[id := u.(lastLogin := Some(now))]
        && sessions == old(sessions) + [Session(id, token, now + ttl, true)]
        && goals == old(goals) && nextId == old(nextId)
        && reply == Reply(200, "Login successful", [], Some(Authenticated(StoredView(id, u), token, expiresIn)))
    {
      var user := users[id];
      var expiresIn := if rememberMe then "30d" else "24h";
      var ttl := if rememberMe then ThirtyDaysMs else DayMs;
      var token := sign(Claims(id, user.email, now, expiresIn));
      sessions := sessions + [Session(id, token, now + ttl, true)];
      users := users[id := user.(lastLogin := Some(now))];
      reply := Reply(200, "Login successful", [], Some(Authenticated(StoredView(id, user), token, expiresIn)));
    }

    /** `logout`: deactivates the one session the gate resolved; an id that
        names no session updates nothing and still succeeds. */
    method Logout(sessionId: nat) returns (reply: Reply<()>)
      requires Valid()
      modifies this
      ensures Valid()
      ensures sessions == if sessionId < |old(sessions)|
                          then old(sessions)[sessionId := old(sessions)[sessionId].(isActive := false)]
                          else old(sessions)
      ensures users == old(users) && goals == old(goals) && nextId == old(nextId)
      ensures reply == Reply(200, "Logout successful", [], None)
    {
      if sessionId < |sessions| {
        sessions := sessions[sessionId := sessions[sessionId].(isActive := false)];
      }
      reply := Reply(200, "Logout successful", [], None);
    }

    /** `getProfile`. */
    method GetProfile(userId: UserId) returns (reply: Reply<Profile>)
      ensures userId !in users || !users[userId].isActive ==> reply == Reply(404, "User not found", [], None)
      ensures userId in users && users[userId].isActive ==>
        && reply.status == 200 && reply.data.Some?
        && reply.data.value.id == userId
        && reply.data.value.user == users[userId]
        && (reply.data.value.goals.Some? <==> userId in goals)
        && (userId in goals ==> reply.data.value.goals.value == goals[userId])
    {
      if userId !in users || !users[userId].isActive {
        return Reply(404, "User not found", [], None);
      }
      var g := if userId in goals then Some(goals[userId]) else None;
      reply := Reply(200, "", [], Some(Profile(userId, users[userId], g)));
    }

    /** `updateProfile`: writes the five profile fields and nothing else. The
        document store refuses an update of a missing document or with an
        undefined field, which the handler reports as 500. */
    method UpdateProfile(userId: UserId, upd: ProfileUpdate) returns (reply: Reply<()>)
      requires Valid()
      modifies this
      ensures Valid()
      ensures goals == old(goals) && sessions == old(sessions) && nextId == old(nextId)
      ensures reply.status == 200 <==>
        && userId in old(users)
        && upd.firstName.Some? && upd.lastName.Some? && upd.age.Some?
        && upd.menopauseStage.Some? && upd.newsletter.Some?
      ensures reply.status != 200 ==> reply == Reply(500, "Internal server error", [], None) && users == old(users)
      ensures reply.status == 200 ==>
        && reply == Reply(200, "Profile updated successfully", [], None)
        && users == old(users)[userId := old(users)[userId].(
             firstName := upd.firstName.value, lastName := upd.lastName.value, age := upd.age.value,
             menopauseStage := upd.menopauseStage.value, newsletter := upd.newsletter.value)]
    {
      if userId !in users
        || upd.firstName.None? || upd.lastName.None? || upd.age.None?
        || upd.menopauseStage.None? || upd.newsletter.None?
      {
        return Reply(500, "Internal server error", [], None);
      }
      var u := users[userId];
      users := users[userId := u.(
        firstName := upd.firstName.value, lastName := upd.lastName.value, age := upd.age.value,
        menopauseStage := upd.menopauseStage.value, newsletter := upd.newsletter.value)];
      reply := Reply(200, "Profile updated successfully", [], None);
    }

    /** The batch that sets `isActive: false` on every active session of `uid`. */
    method DeactivateSessions(uid: UserId)
      requires Valid()
      modifies this
      ensures Valid()
      ensures sessions == DeactivateAll(old(sessions), uid)
      ensures users == old(users) && goals == old(goals) && nextId == old(nextId)
    {
      var batch := DeactivateBatch(sessions, uid);
      assert forall k :: 0 <= k < |batch| ==> batch[k].userId == sessions[k].userId;
      sessions := batch;
    }

    /** `changePassword`. */
    method ChangePassword(userId: UserId, currentPassword: Option<string>, newPassword: Option<string>, salt: nat)
      returns (reply: Reply<()>)
      requires Valid()
      modifies this
      ensures Valid()
      ensures goals == old(goals) && nextId == old(nextId)
      ensures newPassword.None? || |newPassword.value| < 8 ==>
        reply == Reply(400, "New password must be at least 8 characters", [], None) && unchanged(this)
      ensures newPassword.Some? && |newPassword.value| >= 8 && (userId !in old(users) || !old(users)[userId].isActive) ==>
        reply == Reply(404, "User not found", [], None) && unchanged(this)
      ensures reply.status == 401 <==>
        && newPassword.Some? && |newPassword.value| >= 8
        && userId in old(users) && old(users)[userId].isActive
        && currentPassword.Some? && !Verifies(currentPassword.value, old(users)[userId].passwordHash)
      ensures reply.status == 401 ==> reply == Reply(401, "Current password is incorrect", [], None) && unchanged(this)
      ensures reply.status == 500 ==> reply == Reply(500, "Internal server error", [], None) && unchanged(this)
      ensures reply.status == 200 ==>
        && newPassword.Some? && currentPassword.Some?
        && userId in old(users) && old(users)[userId].isActive
        && Verifies(currentPassword.value, old(users)[userId].passwordHash)
        && users == old(users)[userId := old(users)[userId].(passwordHash := HashPassword(newPassword.value, salt))]
        && sessions == DeactivateAll(old(sessions), userId)
        && reply == Reply(200, "Password changed successfully. Please login again.", [], None)
      ensures reply.status == 404 ==> userId !in old(users) || !old(users)[userId].isActive
      ensures reply.status == 200 <==>
        && newPassword.Some? && |newPassword.value| >= 8
        && userId in old(users) && old(users)[userId].isActive
        && currentPassword.Some? && Verifies(currentPassword.value, old(users)[userId].passwordHash)
      ensures reply.status in {200, 400, 401, 404, 500}
    {
      if newPassword.None? || |newPassword.value| < 8 {
        return Reply(400, "New password must be at least 8 characters", [], None);
      }
      if userId !in users || !users[userId].isActive {
        return Reply(404, "User not found", [], None);
      }
      if currentPassword.None? {
        // bcrypt.compare throws on an undefined password
        return Reply(500, "Internal server error", [], None);
      }
      if !Verifies(currentPassword.value, users[userId].passwordHash) {
        return Reply(401, "Current password is incorrect", [], None);
      }
      users := users[userId := users[userId].(passwordHash := HashPassword(newPassword.value, salt))];
      DeactivateSessions(userId);
      reply := Reply(200, "Password changed successfully. Please login again.", [], None);
    }

    /** `deleteAccount`: a soft delete. */
    method DeleteAccount(userId: UserId, password: Option<string>) returns (reply: Reply<()>)
      requires Valid()
      modifies this
      ensures Valid()
      ensures goals == old(goals) && nextId == old(nextId)
      ensures userId !in old(users) || !old(users)[userId].isActive ==>
        reply == Reply(404, "User not found", [], None) && unchanged(this)
      ensures reply.status == 401 <==>
        && userId in old(users) && old(users)[userId].isActive
        && password.Some? && !Verifies(password.value, old(users)[userId].passwordHash)
      ensures reply.status == 401 ==> reply == Reply(401, "Password is incorrect", [], None) && unchanged(this)
      ensures reply.status == 500 ==> reply == Reply(500, "Internal server error", [], None) && unchanged(this)
      ensures reply.status == 200 ==>
        && password.Some? && userId in old(users) && old(users)[userId].isActive
        && Verifies(password.value, old(users)[userId].passwordHash)
        && users == old(users)[userId := old(users)[userId].(isActive := false)]
        && sessions == DeactivateAll(old(sessions), userId)
        && reply == Reply(200, "Account deleted successfully", [], None)
      ensures reply.status == 404 ==> userId !in old(users) || !old(users)[userId].isActive
      ensures reply.status == 200 <==>
        && userId in old(users) && old(users)[userId].isActive
        && password.Some? && Verifies(password.value, old(users)[userId].passwordHash)
      ensures reply.status in {200, 401, 404, 500}
    {
      if userId !in users || !users[userId].isActive {
        return Reply(404, "User not found", [], None);
      }
      if password.None? {
        // bcrypt.compare throws on an undefined password
        return Reply(500, "Internal server error", [], None);
      }
      if !Verifies(password.value, users[userId].passwordHash) {
        return Reply(401, "Password is incorrect", [], None);
      }
      users := users[userId := users[userId].(isActive := false)];
      DeactivateSessions(userId);
      reply := Reply(200, "Account deleted successfully", [], None);
    }
  }
}
