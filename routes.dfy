/** The auth router: register and login pass the rate limiter, then
    validation, then the handler; every other route passes the strict gate
    first and runs its handler as the resolved user. */
module Routes {
  import opened Opt
  import opened Store
  import opened Accounts
  import opened Gate
  import opened RateLimit

  class Server {
    const accounts: AuthService
    const limiter: RateLimiter
    /** `jwt.verify` with the server secret. */
    const verify: string -> JwtVerdict

    ghost predicate Valid()
      reads this, accounts, limiter
    {
      accounts.Valid() && limiter.Valid()
    }

    constructor (accounts: AuthService, limiter: RateLimiter, verify: string -> JwtVerdict)
      requires accounts.Valid() && limiter.Valid()
      ensures Valid()
      ensures this.accounts == accounts && this.limiter == limiter && this.verify == verify
    {
      this.accounts := accounts;
      this.limiter := limiter;
      this.verify := verify;
    }

    /** The strict gate over the current tables. */
    function Gate(header: Option<string>, now: nat): GateResult
      reads this, accounts
    {
      VerifyToken(header, verify, accounts.users, accounts.sessions, now)
    }

    /** POST /register. */
    method PostRegister(ip: string, now: nat, req: RegisterRequest, salt: nat) returns (reply: Reply<Authenticated>)
      requires Valid()
      modifies accounts, limiter
      ensures Valid()
      ensures var step := Attempt(Lookup(old(limiter.attempts), ip), now);
        && limiter.attempts == (if step.0 then old(limiter.attempts)[ip := step.1] else old(limiter.attempts))
        && (!step.0 ==> reply == Reply(429, TooManyMessage, [], None) && unchanged(accounts))
        && (step.0 ==> (reply.status == 400 <==> RegisterErrors(req, accounts.isEmail) != []))
        && (reply.status != 201 ==> unchanged(accounts))
        && (step.0 && RegisterErrors(req, accounts.isEmail) == [] ==>
              (reply.status == 409 <==> EmailTaken(old(accounts.users), accounts.normalizeEmail(req.email))))
        && (step.0 && RegisterErrors(req, accounts.isEmail) == []
              && !EmailTaken(old(accounts.users), accounts.normalizeEmail(req.email)) ==>
              var id, email := old(accounts.nextId), accounts.normalizeEmail(req.email);
              var token := accounts.sign(Claims(id, email, now, accounts.RegisterExpiresIn()));
              && reply.status == 201 && reply.data.Some? && reply.data.value.token == token
              && accounts.users == old(accounts.users)[id := RegisteredUser(req, email, salt, now)]
              && accounts.sessions == old(accounts.sessions) + [Session(id, token, now + DayMs, true)])
    {
      var allowed := limiter.Check(ip, now);
      if !allowed {
        return Reply(429, TooManyMessage, [], None);
      }
      reply := accounts.Register(req, now, salt);
    }

    /** POST /login. */
    method PostLogin(ip: string, now: nat, req: LoginRequest) returns (reply: Reply<Authenticated>)
      requires Valid()
      modifies accounts, limiter
      ensures Valid()
      ensures var step := Attempt(Lookup(old(limiter.attempts), ip), now);
        && limiter.attempts == (if step.0 then old(limiter.attempts)[ip := step.1] else old(limiter.attempts))
        && (!step.0 ==> reply == Reply(429, TooManyMessage, [], None) && unchanged(accounts))
        && (step.0 ==> (reply.status == 400 <==> LoginErrors(req, accounts.isEmail) != []))
        && (reply.status != 200 ==> unchanged(accounts))
        && (step.0 && LoginErrors(req, accounts.isEmail) == [] ==>
              var found := ActiveAccount(old(accounts.users), accounts.normalizeEmail(req.email));
              (reply.status == 401 <==>
                 found.None? || !Verifies(req.password, old(accounts.users)[found.value].passwordHash)))
    {
      var allowed := limiter.Check(ip, now);
      if !allowed {
        return Reply(429, TooManyMessage, [], None);
      }
      reply := accounts.Login(req, now);
    }

    /** POST /logout. */
    method PostLogout(header: Option<string>, now: nat) returns (reply: Reply<()>)
      requires Valid()
      modifies accounts
      ensures Valid()
      ensures var g := old(Gate(header, now));
        && (g.Reject? ==> reply == Reply(g.reason.Status(), g.reason.Message(), [], None) && unchanged(accounts))
        && (g.Admit? ==>
              && reply == Reply(200, "Logout successful", [], None)
              && accounts.sessions == old(accounts.sessions)[g.identity.sessionId :=
                   old(accounts.sessions)[g.identity.sessionId].(isActive := false)]
              && accounts.users == old(accounts.users))
    {
      var g := Gate(header, now);
      if g.Reject? {
        return Reply(g.reason.Status(), g.reason.Message(), [], None);
      }
      reply := accounts.Logout(g.identity.sessionId);
    }

    /** GET /profile. Behind the gate the caller's account is active, so
        the handler's 404 cannot happen. */
    method GetProfile(header: Option<string>, now: nat) returns (reply: Reply<Profile>)
      requires Valid()
      ensures var g := Gate(header, now);
        && (g.Reject? ==> reply == Reply(g.reason.Status(), g.reason.Message(), [], None))
        && (g.Admit? ==>
              && reply.status == 200 && reply.data.Some?
              && reply.data.value.id == g.identity.id
              && reply.data.value.user == accounts.users[g.identity.id])
    {
      var g := Gate(header, now);
      if g.Reject? {
        return Reply(g.reason.Status(), g.reason.Message(), [], None);
      }
      reply := accounts.GetProfile(g.identity.id);
    }

    /** PUT /profile. */
    method PutProfile(header: Option<string>, now: nat, upd: ProfileUpdate) returns (reply: Reply<()>)
      requires Valid()
      modifies accounts
      ensures Valid()
      ensures var g := old(Gate(header, now));
        && (g.Reject? ==> reply == Reply(g.reason.Status(), g.reason.Message(), [], None) && unchanged(accounts))
        && (g.Admit? ==>
              && accounts.sessions == old(accounts.sessions)
              && accounts.users.Keys == old(accounts.users).Keys
              && accounts.users[g.identity.id].email == old(accounts.users)[g.identity.id].email
              && accounts.users[g.identity.id].passwordHash == old(accounts.users)[g.identity.id].passwordHash
              && accounts.users[g.identity.id].isActive)
    {
      var g := Gate(header, now);
      if g.Reject? {
        return Reply(g.reason.Status(), g.reason.Message(), [], None);
      }
      reply := accounts.UpdateProfile(g.identity.id, upd);
    }

    /** PUT /change-password. */
    method PutChangePassword(header: Option<string>, now: nat, currentPassword: Option<string>,
                             newPassword: Option<string>, salt: nat) returns (reply: Reply<()>)
      requires Valid()
      modifies accounts
      ensures Valid()
      ensures var g := old(Gate(header, now));
        && (g.Reject? ==> reply == Reply(g.reason.Status(), g.reason.Message(), [], None) && unchanged(accounts))
        && (g.Admit? ==>
              && reply.status != 404
              && (reply.status == 200 <==>
                    && newPassword.Some? && |newPassword.value| >= 8 && currentPassword.Some?
                    && Verifies(currentPassword.value, old(accounts.users)[g.identity.id].passwordHash))
              && (reply.status == 200 ==>
                    && accounts.sessions == DeactivateAll(old(accounts.sessions), g.identity.id)
                    && accounts.users == old(accounts.users)[g.identity.id := old(accounts.users)[g.identity.id].(
                         passwordHash := HashPassword(newPassword.value, salt))]))
    {
      var g := Gate(header, now);
      if g.Reject? {
        return Reply(g.reason.Status(), g.reason.Message(), [], None);
      }
      reply := accounts.ChangePassword(g.identity.id, currentPassword, newPassword, salt);
    }

    /** DELETE /account. */
    method DeleteAccount(header: Option<string>, now: nat, password: Option<string>) returns (reply: Reply<()>)
      requires Valid()
      modifies accounts
      ensures Valid()
      ensures var g := old(Gate(header, now));
        && (g.Reject? ==> reply == Reply(g.reason.Status(), g.reason.Message(), [], None) && unchanged(accounts))
        && (g.Admit? ==>
              && reply.status != 404
              && (reply.status == 200 <==>
                    password.Some? && Verifies(password.value, old(accounts.users)[g.identity.id].passwordHash))
              && (reply.status == 200 ==>
                    && accounts.sessions == DeactivateAll(old(accounts.sessions), g.identity.id)
                    && accounts.users == old(accounts.users)[g.identity.id :=
                         old(accounts.users)[g.identity.id].(isActive := false)]))
    {
      var g := Gate(header, now);
      if g.Reject? {
        return Reply(g.reason.Status(), g.reason.Message(), [], None);
      }
      reply := accounts.DeleteAccount(g.identity.id, password);
    }
  }

  /** A server with empty tables and no rate-limit buckets. */
  method NewServer(isEmail: string -> bool, normalizeEmail: string -> string, sign: Claims -> string,
                   verify: string -> JwtVerdict) returns (server: Server)
    ensures fresh(server) && fresh(server.accounts) && fresh(server.limiter) && server.Valid()
    ensures server.accounts.users == map[] && server.accounts.sessions == [] && server.accounts.nextId == 0
    ensures server.limiter.attempts == map[] && server.accounts.configuredExpiry.None?
    ensures server.accounts.isEmail == isEmail && server.accounts.normalizeEmail == normalizeEmail
    ensures server.accounts.sign == sign && server.verify == verify
  {
    var accounts := new AuthService(isEmail, normalizeEmail, sign, None);
    var limiter := new RateLimiter();
    server := new Server(accounts, limiter, verify);
  }

  /** The tables right after `u` registered from `ip` at `now` and was
      issued `token`, which the JWT library accepts. */
  ghost predicate JustRegistered(server: Server, u: User, token: string, ip: string, now: nat)
    reads server, server.accounts, server.limiter
  {
    && server.Valid() && u.isActive
    && server.accounts.users == map[0 := u]
    && server.accounts.sessions == [Session(0, token, now + DayMs, true)]
    && server.limiter.attempts == map[ip := Bucket(1, now + WindowMs)]
    && server.verify(token).Verified?
  }

  /** A fresh server after one successful registration from `ip`. */
  method RegisteredServer(isEmail: string -> bool, normalizeEmail: string -> string, sign: Claims -> string,
                          verify: string -> JwtVerdict, req: RegisterRequest, ip: string, now: nat, salt: nat)
    returns (server: Server, status: nat, token: string)
    requires RegisterErrors(req, isEmail) == []
    requires forall c :: verify(sign(c)).Verified?
    ensures fresh(server) && fresh(server.accounts) && fresh(server.limiter)
    ensures server.accounts.isEmail == isEmail && server.accounts.normalizeEmail == normalizeEmail
    ensures status == 201
    ensures server.verify == verify
    ensures JustRegistered(server, RegisteredUser(req, normalizeEmail(req.email), salt, now), token, ip, now)
  {
    server := NewServer(isEmail, normalizeEmail, sign, verify);
    assert Attempt(Lookup(server.limiter.attempts, ip), now) == (true, Bucket(1, now + WindowMs));
    assert !EmailTaken(server.accounts.users, normalizeEmail(req.email));
    assert server.accounts.RegisterExpiresIn() == "24h";
    var r := server.PostRegister(ip, now, req, salt);
    status, token := r.status, r.data.value.token;
  }

  /** The freshly issued token reads the profile. */
  method ProfileWithIssuedToken(server: Server, u: User, token: string, ip: string, now: nat)
    returns (status: nat)
    requires JustRegistered(server, u, token, ip, now)
    ensures status == 200
  {
    IssuedSessionAdmits(server.accounts.users, server.accounts.sessions, server.verify, token, now);
    var r := server.GetProfile(Some("Bearer " + token), now);
    status := r.status;
  }

  /** Logging out with the freshly issued token deactivates its session. */
  method LogoutWithIssuedToken(server: Server, u: User, token: string, ip: string, now: nat)
    returns (status: nat)
    requires JustRegistered(server, u, token, ip, now)
    modifies server.accounts
    ensures server.Valid() && status == 200
    ensures server.accounts.users == old(server.accounts.users)
    ensures server.accounts.sessions == [Session(0, token, now + DayMs, false)]
  {
    IssuedSessionAdmits(server.accounts.users, server.accounts.sessions, server.verify, token, now);
    var r := server.PostLogout(Some("Bearer " + token), now);
    status := r.status;
  }

  /** Changing the password with the freshly issued token and the right
      current password revokes every session of the account. */
  method ChangeWithIssuedToken(server: Server, u: User, token: string, ip: string, now: nat,
                               currentPassword: string, newPassword: string, salt: nat)
    returns (status: nat)
    requires JustRegistered(server, u, token, ip, now)
    requires Verifies(currentPassword, u.passwordHash) && |newPassword| >= 8
    modifies server.accounts
    ensures server.Valid() && status == 200
    ensures server.accounts.sessions == [Session(0, token, now + DayMs, false)]
  {
    IssuedSessionAdmits(server.accounts.users, server.accounts.sessions, server.verify, token, now);
    var r := server.PutChangePassword(Some("Bearer " + token), now, Some(currentPassword), Some(newPassword), salt);
    status := r.status;
    assert server.accounts.sessions == DeactivateAll([Session(0, token, now + DayMs, true)], 0);
  }

  /** Deleting the account with the freshly issued token and the right
      password soft-deletes it. */
  method DeleteWithIssuedToken(server: Server, u: User, token: string, ip: string, now: nat, password: string)
    returns (status: nat)
    requires JustRegistered(server, u, token, ip, now)
    requires Verifies(password, u.passwordHash)
    modifies server.accounts
    ensures server.Valid() && status == 200
    ensures server.accounts.users == map[0 := u.(isActive := false)]
  {
    IssuedSessionAdmits(server.accounts.users, server.accounts.sessions, server.verify, token, now);
    var r := server.DeleteAccount(Some("Bearer " + token), now, Some(password));
    status := r.status;
  }

  /** Once the only session of account 0 is revoked, its token no longer
      reads the profile. A worked example on a one-session table; the
      general statement is `Gate.RevokedTokenRejected`. */
  method ProfileWithRevokedToken(server: Server, token: string, now: nat, expiresAt: nat)
    returns (status: nat)
    requires server.Valid() && server.verify(token).Verified?
    requires server.accounts.sessions == [Session(0, token, expiresAt, false)]
    ensures status == 401
  {
    var issued := Session(0, token, expiresAt, true);
    assert server.accounts.sessions == DeactivateAll([issued], 0);
    RevokedTokenRejected(server.verify, server.accounts.users, [issued], 0, token, now);
    var r := server.GetProfile(Some("Bearer " + token), now);
    status := r.status;
  }

  /** Register, read the profile with the issued token, log out with it,
      read the profile again: the token stops working at logout. A worked
      example on a fresh server at a single instant, with every signed
      token verifying; the general statements are `Gate.VerifyToken` and
      `Accounts.AuthService.Logout`. */
  method LogoutScenario(isEmail: string -> bool, normalizeEmail: string -> string, sign: Claims -> string,
                        verify: string -> JwtVerdict, req: RegisterRequest, ip: string, now: nat, salt: nat)
    returns (statuses: seq<nat>)
    requires RegisterErrors(req, isEmail) == []
    requires forall c :: verify(sign(c)).Verified?
    ensures statuses == [201, 200, 200, 401]
  {
    var server, s1, token := RegisteredServer(isEmail, normalizeEmail, sign, verify, req, ip, now, salt);
    var u := RegisteredUser(req, normalizeEmail(req.email), salt, now);
    var s2 := ProfileWithIssuedToken(server, u, token, ip, now);
    var s3 := LogoutWithIssuedToken(server, u, token, ip, now);
    var s4 := ProfileWithRevokedToken(server, token, now, now + DayMs);
    statuses := [s1, s2, s3, s4];
  }

  /** Register, change the password with the issued token, read the profile
      with the same token: the password change revoked it. A worked example
      on a fresh server at a single instant, with every signed token
      verifying; the general statement is `Gate.RevokedTokenRejected`. */
  method ChangePasswordScenario(isEmail: string -> bool, normalizeEmail: string -> string, sign: Claims -> string,
                                verify: string -> JwtVerdict, req: RegisterRequest, newPassword: string,
                                ip: string, now: nat, salt: nat, salt2: nat)
    returns (statuses: seq<nat>)
    requires RegisterErrors(req, isEmail) == [] && |newPassword| >= 8
    requires forall c :: verify(sign(c)).Verified?
    ensures statuses == [201, 200, 401]
  {
    var server, s1, token := RegisteredServer(isEmail, normalizeEmail, sign, verify, req, ip, now, salt);
    var u := RegisteredUser(req, normalizeEmail(req.email), salt, now);
    var s2 := ChangeWithIssuedToken(server, u, token, ip, now, req.password, newPassword, salt2);
    var s3 := ProfileWithRevokedToken(server, token, now, now + DayMs);
    statuses := [s1, s2, s3];
  }

  /** A fresh server after one registration from `ip` and the deletion of
      that account with the token the registration issued. */
  method DeletedServer(isEmail: string -> bool, normalizeEmail: string -> string, sign: Claims -> string,
                       verify: string -> JwtVerdict, req: RegisterRequest, ip: string, now: nat, salt: nat)
    returns (server: Server, statuses: seq<nat>)
    requires RegisterErrors(req, isEmail) == []
    requires forall c :: verify(sign(c)).Verified?
    ensures fresh(server) && fresh(server.accounts) && fresh(server.limiter) && server.Valid()
    ensures server.accounts.isEmail == isEmail && server.accounts.normalizeEmail == normalizeEmail
    ensures statuses == [201, 200]
    ensures server.accounts.users == map[0 := RegisteredUser(req, normalizeEmail(req.email), salt, now).(isActive := false)]
    ensures server.limiter.attempts == map[ip := Bucket(1, now + WindowMs)]
  {
    var s1, token;
    server, s1, token := RegisteredServer(isEmail, normalizeEmail, sign, verify, req, ip, now, salt);
    var u := RegisteredUser(req, normalizeEmail(req.email), salt, now);
    var s2 := DeleteWithIssuedToken(server, u, token, ip, now, req.password);
    statuses := [s1, s2];
  }

  /** Logging in to a soft-deleted account is refused as bad credentials.
      A worked example on a one-account table; the general statement is
      `Accounts.SoftDeleteIsPermanent`. */
  method LoginAfterDelete(server: Server, req: RegisterRequest, ip: string, now: nat, u: User)
    returns (status: nat)
    requires server.Valid() && server.accounts.isEmail(req.email) && req.password != ""
    requires u.email == server.accounts.normalizeEmail(req.email)
    requires server.accounts.users == map[0 := u.(isActive := false)]
    requires server.limiter.attempts == map[ip := Bucket(1, now + WindowMs)]
    modifies server.accounts, server.limiter
    ensures server.Valid() && status == 401
    ensures server.accounts.users == old(server.accounts.users)
    ensures server.limiter.attempts == map[ip := Bucket(2, now + WindowMs)]
  {
    var deleted := server.accounts.users;
    SoftDeleteIsPermanent(map[0 := u], 0);
    assert deleted == map[0 := u][0 := map[0 := u][0].(isActive := false)];
    assert ActiveAccount(deleted, u.email).None?;
    var login := LoginRequest(req.email, req.password, false);
    assert LoginErrors(login, server.accounts.isEmail) == [];
    assert Attempt(Lookup(server.limiter.attempts, ip), now) == (true, Bucket(2, now + WindowMs));
    var r := server.PostLogin(ip, now, login);
    status := r.status;
  }

  /** Registering again with the email of a soft-deleted account is a
      conflict. A worked example on a one-account table; the general
      statement is `Accounts.SoftDeleteIsPermanent`. */
  method RegisterAfterDelete(server: Server, req: RegisterRequest, ip: string, now: nat, salt: nat, u: User)
    returns (status: nat)
    requires server.Valid() && RegisterErrors(req, server.accounts.isEmail) == []
    requires u.email == server.accounts.normalizeEmail(req.email)
    requires server.accounts.users == map[0 := u.(isActive := false)]
    requires server.limiter.attempts == map[ip := Bucket(2, now + WindowMs)]
    modifies server.accounts, server.limiter
    ensures status == 409
  {
    assert server.accounts.users[0].email == u.email;
    assert EmailTaken(server.accounts.users, server.accounts.normalizeEmail(req.email));
    var r := server.PostRegister(ip, now, req, salt);
    status := r.status;
  }

  /** On a server holding only the soft-deleted account, logging in and then
      registering again with the same details give 401 and 409. */
  method LoginThenRegister(server: Server, req: RegisterRequest, ip: string, now: nat, salt: nat, u: User)
    returns (statuses: seq<nat>)
    requires server.Valid() && RegisterErrors(req, server.accounts.isEmail) == []
    requires u.email == server.accounts.normalizeEmail(req.email)
    requires server.accounts.users == map[0 := u.(isActive := false)]
    requires server.limiter.attempts == map[ip := Bucket(1, now + WindowMs)]
    modifies server.accounts, server.limiter
    ensures statuses == [401, 409]
  {
    var s3 := LoginAfterDelete(server, req, ip, now, u);
    var s4 := RegisterAfterDelete(server, req, ip, now, salt, u);
    statuses := [s3, s4];
  }

  /** Register, delete the account with the issued token, then log in and
      register again with the same details: the soft delete is permanent.
      A worked example on a fresh server at a single instant, with every
      signed token verifying; the general statements are
      `Gate.RevokedTokenRejected` and `Accounts.SoftDeleteIsPermanent`. */
  method DeleteAccountScenario(isEmail: string -> bool, normalizeEmail: string -> string, sign: Claims -> string,
                               verify: string -> JwtVerdict, req: RegisterRequest, ip: string, now: nat, salt: nat)
    returns (statuses: seq<nat>)
    requires RegisterErrors(req, isEmail) == []
    requires forall c :: verify(sign(c)).Verified?
    ensures statuses == [201, 200, 401, 409]
  {
    var server, first := DeletedServer(isEmail, normalizeEmail, sign, verify, req, ip, now, salt);
    var u := RegisteredUser(req, normalizeEmail(req.email), salt, now);
    var rest := LoginThenRegister(server, req, ip, now, salt, u);
    statuses := first + rest;
  }
}
