/** The request gates of the authentication middleware: the strict gate
    (`verifyToken`), the optional gate (`optionalAuth`) and the admin gate
    (`requireAdmin`), as decisions over the users and user_sessions tables. */
module Gate {
  import opened Opt
  import opened Store
  import JsString

  /** What `jwt.verify(token, secret)` does with a token: returns its claims,
      or throws an error whose `name` is one of the two it distinguishes, or
      something else. */
  datatype JwtVerdict = Verified(claims: Claims) | JsonWebTokenError | TokenExpiredError | OtherError

  /** The outcome of reading the Authorization header and checking the token. */
  datatype TokenDecode = NoBearer | BadToken | Expired | Failed | Ok(token: string, claims: Claims)

  /** The caller identity a gate attaches to the request. */
  datatype Identity = Identity(id: UserId, email: string, firstName: string, lastName: string, sessionId: nat)

  /** Why the strict gate refuses a request. */
  datatype Rejection = MissingToken | InvalidToken | TokenExpired | InvalidSession | AuthError {
    function Status(): nat {
      if AuthError? then 500 else 401
    }
    function Message(): string {
      match this
      case MissingToken => "Access token required"
      case InvalidToken => "Invalid token"
      case TokenExpired => "Token expired"
      case InvalidSession => "Invalid or expired session"
      case AuthError => "Authentication error"
    }
  }

  datatype GateResult = Admit(identity: Identity) | Reject(reason: Rejection)

  /** The admin gate's verdict. */
  datatype AdminDecision = Proceed | Deny(status: nat, message: string)

  /** A header that is present and starts with "Bearer " carries the token
      that follows those seven characters; any other header carries none. */
  function BearerToken(header: Option<string>): (r: Option<string>)
    ensures r.Some? <==> header.Some? && JsString.StartsWith(header.value, "Bearer ")
    ensures r.Some? ==> header.value == "Bearer " + r.value
  {
    if header.Some? && JsString.StartsWith(header.value, "Bearer ") then Some(header.value[7..]) else None
  }

  /** The token is recovered from any header the client builds from it. */
  lemma BearerRoundTrip(token: string)
    ensures BearerToken(Some("Bearer " + token)) == Some(token)
  {
    assert ("Bearer " + token)[..7] == "Bearer ";
    assert ("Bearer " + token)[7..] == token;
  }

  /** Header parsing followed by `jwt.verify`. */
  function Decode(header: Option<string>, verify: string -> JwtVerdict): TokenDecode {
    match BearerToken(header)
    case None => NoBearer
    case Some(t) =>
      match verify(t)
      case Verified(c) => Ok(t, c)
      case JsonWebTokenError => BadToken
      case TokenExpiredError => Expired
      case OtherError => Failed
  }

  /** The WHERE clause of the session lookup: the token matches, the session
      has not expired, the session is active and its user is active. */
  predicate Matches(users: map<UserId, User>, s: Session, token: string, now: nat) {
    s.token == token && s.expiresAt > now && s.isActive && s.userId in users && users[s.userId].isActive
  }

  /** The first session row, from position `from` on, the lookup returns. */
  function FindSessionFrom(users: map<UserId, User>, sessions: seq<Session>, token: string, now: nat, from: nat): (r: Option<nat>)
    requires from <= |sessions|
    ensures r.Some? ==> from <= r.value < |sessions| && Matches(users, sessions[r.value], token, now)
    ensures r.Some? ==> forall j :: from <= j < r.value ==> !Matches(users, sessions[j], token, now)
    ensures r.None? ==> forall j :: from <= j < |sessions| ==> !Matches(users, sessions[j], token, now)
    decreases |sessions| - from
  {
    if from == |sessions| then None
    else if Matches(users, sessions[from], token, now) then Some(from)
    else FindSessionFrom(users, sessions, token, now, from + 1)
  }

  /** The session lookup: the first row satisfying the WHERE clause, if any. */
  function FindSession(users: map<UserId, User>, sessions: seq<Session>, token: string, now: nat): Option<nat> {
    FindSessionFrom(users, sessions, token, now, 0)
  }

  /** The identity the gates build from a matching row. */
  function IdentityOf(users: map<UserId, User>, sessions: seq<Session>, i: nat): Identity
    requires i < |sessions| && sessions[i].userId in users
  {
    var u := users[sessions[i].userId];
    Identity(sessions[i].userId, u.email, u.firstName, u.lastName, i)
  }

  /** `verifyToken`: the strict gate. */
  function VerifyToken(header: Option<string>, verify: string -> JwtVerdict,
                       users: map<UserId, User>, sessions: seq<Session>, now: nat): (r: GateResult)
    ensures r == Reject(MissingToken) <==> BearerToken(header).None?
    ensures r == Reject(InvalidToken) <==> BearerToken(header).Some? && verify(BearerToken(header).value) == JsonWebTokenError
    ensures r == Reject(TokenExpired) <==> BearerToken(header).Some? && verify(BearerToken(header).value) == TokenExpiredError
    ensures r == Reject(AuthError) <==> BearerToken(header).Some? && verify(BearerToken(header).value) == OtherError
    ensures r.Admit? ==>
      && BearerToken(header).Some? && verify(BearerToken(header).value).Verified?
      && r.identity.sessionId < |sessions|
      && Matches(users, sessions[r.identity.sessionId], BearerToken(header).value, now)
      && r.identity.id == sessions[r.identity.sessionId].userId
      && r.identity.email == users[r.identity.id].email
    ensures r == Reject(InvalidSession) <==>
      && BearerToken(header).Some? && verify(BearerToken(header).value).Verified?
      && forall j :: 0 <= j < |sessions| ==> !Matches(users, sessions[j], BearerToken(header).value, now)
  {
    match Decode(header, verify)
    case NoBearer => Reject(MissingToken)
    case BadToken => Reject(InvalidToken)
    case Expired => Reject(TokenExpired)
    case Failed => Reject(AuthError)
    case Ok(t, _) =>
      match FindSession(users, sessions, t, now)
      case None => Reject(InvalidSession)
      case Some(i) => Admit(IdentityOf(users, sessions, i))
  }

  /** `optionalAuth`: the same checks, but every failure resolves to no user
      and the request always proceeds. */
  function OptionalAuth(header: Option<string>, verify: string -> JwtVerdict,
                        users: map<UserId, User>, sessions: seq<Session>, now: nat): Option<Identity>
  {
    var token := BearerToken(header);
    if token.None? then None
    else if !verify(token.value).Verified? then None
    else
      var found := FindSession(users, sessions, token.value, now);
      if found.None? then None else Some(IdentityOf(users, sessions, found.value))
  }

  /** The optional gate resolves exactly the identities the strict gate
      admits, and resolves nothing exactly when the strict gate rejects. */
  lemma OptionalAuthAgrees(header: Option<string>, verify: string -> JwtVerdict,
                           users: map<UserId, User>, sessions: seq<Session>, now: nat, i: Identity)
    ensures OptionalAuth(header, verify, users, sessions, now) == Some(i)
        <==> VerifyToken(header, verify, users, sessions, now) == Admit(i)
    ensures OptionalAuth(header, verify, users, sessions, now).None?
        <==> VerifyToken(header, verify, users, sessions, now).Reject?
  {
  }

  /** `requireAdmin`, run after a gate has resolved (or not) the caller. */
  function RequireAdmin(user: Option<Identity>, users: map<UserId, User>): (r: AdminDecision)
    ensures r == Deny(401, "Authentication required") <==> user.None?
    ensures r == Proceed <==> user.Some? && user.value.id in users && users[user.value.id].isAdmin
    ensures r.Deny? ==> r.status == 401 || r.status == 403
  {
    if user.None? then Deny(401, "Authentication required")
    else if user.value.id in users && users[user.value.id].isAdmin then Proceed
    else Deny(403, "Admin access required")
  }

  /** A session that was just issued, active and unexpired, for an active
      user, admits its bearer as that user, provided no earlier row carries
      the same token string. */
  lemma IssuedSessionAdmits(users: map<UserId, User>, sessions: seq<Session>, verify: string -> JwtVerdict,
                            token: string, now: nat)
    requires |sessions| > 0
    requires Matches(users, sessions[|sessions| - 1], token, now)
    requires forall j :: 0 <= j < |sessions| - 1 ==> sessions[j].token != token
    requires verify(token).Verified?
    ensures VerifyToken(Some("Bearer " + token), verify, users, sessions, now)
         == Admit(IdentityOf(users, sessions, |sessions| - 1))
  {
    BearerRoundTrip(token);
    var found := FindSession(users, sessions, token, now);
    assert found == Some(|sessions| - 1);
  }

  /** Once every session of `uid` is deactivated, no token admits `uid`,
      however valid its signature and embedded expiry still are. */
  lemma DeactivatedUserNotAdmitted(header: Option<string>, verify: string -> JwtVerdict,
                                   users: map<UserId, User>, sessions: seq<Session>, uid: UserId, now: nat)
    ensures var r := VerifyToken(header, verify, users, DeactivateAll(sessions, uid), now);
      r.Admit? ==> r.identity.id != uid
  {
    var after := DeactivateAll(sessions, uid);
    var r := VerifyToken(header, verify, users, after, now);
    if r.Admit? {
      var k := r.identity.sessionId;
      assert after[k].isActive;
      assert sessions[k].userId != uid;
    }
  }

  /** A token issued only to `uid` is refused as an invalid session once
      `uid`'s sessions are deactivated (password change, account deletion). */
  lemma RevokedTokenRejected(verify: string -> JwtVerdict, users: map<UserId, User>, sessions: seq<Session>,
                             uid: UserId, token: string, now: nat)
    requires forall j :: 0 <= j < |sessions| && sessions[j].token == token ==> sessions[j].userId == uid
    requires verify(token).Verified?
    ensures VerifyToken(Some("Bearer " + token), verify, users, DeactivateAll(sessions, uid), now)
         == Reject(InvalidSession)
  {
    BearerRoundTrip(token);
    var after := DeactivateAll(sessions, uid);
    forall j | 0 <= j < |after| ensures !Matches(users, after[j], token, now) {
      if after[j].token == token {
        assert sessions[j].token == token;
      }
    }
  }

  /** Soft-deleting a user closes every gate to that user. */
  lemma InactiveUserNotAdmitted(header: Option<string>, verify: string -> JwtVerdict,
                                users: map<UserId, User>, sessions: seq<Session>, uid: UserId, now: nat)
    requires uid in users && !users[uid].isActive
    ensures var r := VerifyToken(header, verify, users, sessions, now);
      r.Admit? ==> r.identity.id != uid
  {
  }
}
