/** The handlers of backend/routes/auth.js that change an account: login, refresh,
    logout, request-password-reset and reset-password. Each handler is an imperative
    method over the user collection; what it does to the matched account is specified
    by a pure step function on `AccountState`, about which the lemmas of AuthProperties
    are proved. Database lookups are searches of the collection `users`; clocks and
    random bytes are the parameters `now`, `tokenId`, `raw` and `salt`. */
module AuthRoutes {
  import opened Common
  import opened Crypto
  import opened Users

  const LockThreshold: nat := 5
  const LockDuration: int := 10 * 60 * 1000
  const MinPasswordLength: nat := 6
  const AccessTokenLifetime: nat := 15 * 60 * 1000
  const RefreshTokenLifetime: nat := 7 * 24 * 60 * 60 * 1000

  /** The status code and JSON `msg` a handler answers with. */
  datatype HttpReply = HttpReply(status: nat, msg: string)

  datatype LoginResult =
    | BadInput
    | InvalidCredentials
    | AccountLocked
    | LoggedIn(accessToken: Jwt, refreshToken: Jwt)
  {
    function Reply(): HttpReply
    {
      match this
      case BadInput => HttpReply(400, "")
      case InvalidCredentials => HttpReply(400, "Invalid credentials")
      case AccountLocked => HttpReply(403, "Account locked. Try later.")
      case LoggedIn(_, _) => HttpReply(200, "")
    }
  }

  datatype RefreshResult =
    | MissingToken
    | InvalidToken
    | ExpiredOrInvalid
    | Refreshed(accessToken: Jwt, refreshToken: Jwt)
  {
    function Reply(): HttpReply
    {
      match this
      case MissingToken => HttpReply(401, "Missing refresh token")
      case InvalidToken => HttpReply(401, "Invalid refresh token")
      case ExpiredOrInvalid => HttpReply(401, "Expired or invalid refresh token")
      case Refreshed(_, _) => HttpReply(200, "")
    }
  }

  datatype ResetRequestResult = UnknownEmail | ResetLinkCreated(token: string)
  {
    function Reply(): HttpReply
    {
      match this
      case UnknownEmail => HttpReply(200, "If exists, an email will be sent")
      case ResetLinkCreated(_) => HttpReply(200, "Reset link created")
    }
  }

  datatype ResetResult = ResetBadInput | UnknownUser | ResetInvalidToken | ResetDone
  {
    function Reply(): HttpReply
    {
      match this
      case ResetBadInput => HttpReply(400, "")
      case UnknownUser => HttpReply(400, "Invalid token")
      case ResetInvalidToken => HttpReply(400, "Expired or invalid token")
      case ResetDone => HttpReply(200, "Password reset successful")
    }
  }

  /** The logout reply: the cookie is cleared and the answer is always the same. */
  const LoggedOut := HttpReply(200, "Logged out")

  /** A handler's effect on the matched account together with its answer. */
  datatype Step<R> = Step(state: AccountState, result: R)

  function SignAccessToken(c: Suite, id: nat, role: Role, now: int): Jwt
  {
    Sign(c, AccessClaims(id, role.Name()), now, AccessTokenLifetime)
  }

  function SignRefreshToken(c: Suite, id: nat, tokenId: string, now: int): Jwt
  {
    Sign(c, RefreshClaims(id, tokenId), now, RefreshTokenLifetime)
  }

  /** The session record pushed by login and refresh. */
  function NewSession(tokenId: string, ip: string, userAgent: string, now: int): Session
  {
    Session(tokenId, ip, userAgent, now, None)
  }

  /** The login lock is in force at `now`. */
  predicate IsLocked(s: AccountState, now: int)
  {
    s.lockedUntil.Some? && s.lockedUntil.value > now
  }

  /** `user.resetTokenExpire < Date.now()`: an unset expiry compares false. */
  predicate ResetExpired(expire: Option<int>, now: int)
  {
    expire.Some? && expire.value < now
  }

  predicate Matches(x: Session, tokenId: string, activeOnly: bool)
  {
    x.tokenId == tokenId && (!activeOnly || x.IsActive())
  }

  /** `refreshTokens.find(...)` as an index: the first record with the token id (and, when
      `activeOnly`, no `revokedAt`). */
  function FirstMatch(sessions: seq<Session>, tokenId: string, activeOnly: bool): (r: Option<nat>)
    ensures r.Some? ==> r.value < |sessions| && Matches(sessions[r.value], tokenId, activeOnly)
    ensures r.Some? ==> forall j :: 0 <= j < r.value ==> !Matches(sessions[j], tokenId, activeOnly)
    ensures r.None? ==> forall j :: 0 <= j < |sessions| ==> !Matches(sessions[j], tokenId, activeOnly)
  {
    if sessions == [] then None
    else if Matches(sessions[0], tokenId, activeOnly) then Some(0)
    else match FirstMatch(sessions[1..], tokenId, activeOnly)
      case None => None
      case Some(i) => Some(i + 1)
  }

  /** The loop behind `Array.prototype.find` over the session records. */
  method FindSession(sessions: seq<Session>, tokenId: string, activeOnly: bool) returns (r: Option<nat>)
    ensures r == FirstMatch(sessions, tokenId, activeOnly)
  {
    var i := 0;
    while i < |sessions|
      invariant 0 <= i <= |sessions|
      invariant forall j :: 0 <= j < i ==> !Matches(sessions[j], tokenId, activeOnly)
    {
      if Matches(sessions[i], tokenId, activeOnly) {
        FirstMatchIsFirst(sessions, tokenId, activeOnly, i);
        return Some(i);
      }
      i := i + 1;
    }
    r := None;
    FirstMatchNone(sessions, tokenId, activeOnly);
  }

  lemma FirstMatchIsFirst(sessions: seq<Session>, tokenId: string, activeOnly: bool, i: nat)
    requires i < |sessions| && Matches(sessions[i], tokenId, activeOnly)
    requires forall j :: 0 <= j < i ==> !Matches(sessions[j], tokenId, activeOnly)
    ensures FirstMatch(sessions, tokenId, activeOnly) == Some(i)
  {
    var r := FirstMatch(sessions, tokenId, activeOnly);
    assert r.Some?;
  }

  lemma FirstMatchNone(sessions: seq<Session>, tokenId: string, activeOnly: bool)
    requires forall j :: 0 <= j < |sessions| ==> !Matches(sessions[j], tokenId, activeOnly)
    ensures FirstMatch(sessions, tokenId, activeOnly) == None
  {
  }

  /** Set `revokedAt` of record `i` to `now`. */
  function Revoke(sessions: seq<Session>, i: nat, now: int): (r: seq<Session>)
    requires i < |sessions|
  {
    sessions[i := sessions[i].(revokedAt := Some(now))]
  }

  // ---------------------------------------------------------------------------------
  // The handlers' effect on the matched account.

  /** Login for an account that exists, after input validation. */
  function LoginStep(c: Suite, id: nat, role: Role, s: AccountState, password: string, now: int,
                     tokenId: string, ip: string, userAgent: string): Step<LoginResult>
  {
    if IsLocked(s, now) then Step(s, AccountLocked)
    else if !BcryptCompare(c, password, s.passwordHash) then
      var attempts := s.failedLoginAttempts + 1;
      Step(s.(failedLoginAttempts := attempts,
              lockedUntil := if attempts >= LockThreshold then Some(now + LockDuration) else s.lockedUntil),
           InvalidCredentials)
    else
      Step(s.(failedLoginAttempts := 0, lockedUntil := None,
              refreshTokens := s.refreshTokens + [NewSession(tokenId, ip, userAgent, now)]),
           LoggedIn(SignAccessToken(c, id, role, now), SignRefreshToken(c, id, tokenId, now)))
  }

  /** Refresh for an account that exists, given the `tokenId` of a verified refresh token:
      revoke the matching live session and push a new one. */
  function RefreshStep(c: Suite, id: nat, role: Role, s: AccountState, tokenId: string, now: int,
                       newTokenId: string, ip: string, userAgent: string): Step<RefreshResult>
  {
    match FirstMatch(s.refreshTokens, tokenId, true)
    case None => Step(s, InvalidToken)
    case Some(i) =>
      Step(s.(refreshTokens := Revoke(s.refreshTokens, i, now) + [NewSession(newTokenId, ip, userAgent, now)]),
           Refreshed(SignAccessToken(c, id, role, now), SignRefreshToken(c, id, newTokenId, now)))
  }

  /** Logout for an account that exists: the first record with the token id gets
      `revokedAt = now`, whether or not it was already revoked. */
  function LogoutStep(s: AccountState, tokenId: string, now: int): AccountState
  {
    match FirstMatch(s.refreshTokens, tokenId, false)
    case None => s
    case Some(i) => s.(refreshTokens := Revoke(s.refreshTokens, i, now))
  }

  /** reset-password for an account that exists, exactly as the handler is written: the
      declared validators are never consulted, so the password length is not checked. */
  function ResetStepAsWritten(c: Suite, s: AccountState, token: string, password: string, salt: string, now: int): Step<ResetResult>
  {
    if s.resetTokenHash != Some(c.sha256(token)) || ResetExpired(s.resetTokenExpire, now) then Step(s, ResetInvalidToken)
    else
      Step(s.(passwordHash := BcryptHash(c, password, salt), resetTokenHash := None, resetTokenExpire := None,
              refreshTokens := []),
           ResetDone)
  }

  /** reset-password with its declared password-length validator enforced. */
  function ResetStep(c: Suite, s: AccountState, token: string, password: string, salt: string, now: int): Step<ResetResult>
  {
    if |password| < MinPasswordLength then Step(s, ResetBadInput)
    else ResetStepAsWritten(c, s, token, password, salt, now)
  }

  // ---------------------------------------------------------------------------------
  // Invariant preservation, used by the handlers.

  lemma RevokeKeepsTokenIds(sessions: seq<Session>, i: nat, now: int)
    requires i < |sessions|
    ensures |Revoke(sessions, i, now)| == |sessions|
    ensures forall j :: 0 <= j < |sessions| ==> Revoke(sessions, i, now)[j].tokenId == sessions[j].tokenId
    ensures TokenIds(Revoke(sessions, i, now)) == TokenIds(sessions)
  {
    var r := Revoke(sessions, i, now);
    assert forall t :: t in TokenIds(r) ==> t in TokenIds(sessions) by {
      forall t | t in TokenIds(r) ensures t in TokenIds(sessions) {
        var j :| 0 <= j < |r| && r[j].tokenId == t;
        assert sessions[j].tokenId == t;
      }
    }
    assert forall t :: t in TokenIds(sessions) ==> t in TokenIds(r) by {
      forall t | t in TokenIds(sessions) ensures t in TokenIds(r) {
        var j :| 0 <= j < |sessions| && sessions[j].tokenId == t;
        assert r[j].tokenId == t;
      }
    }
  }

  /** Appending a record with a token id not yet present keeps the ids distinct. */
  lemma AppendFreshKeepsDistinct(sessions: seq<Session>, x: Session)
    requires DistinctTokenIds(sessions) && x.tokenId !in TokenIds(sessions)
    ensures DistinctTokenIds(sessions + [x])
    ensures TokenIds(sessions + [x]) == TokenIds(sessions) + {x.tokenId}
  {
    var r := sessions + [x];
    forall i, j | 0 <= i < j < |r| ensures r[i].tokenId != r[j].tokenId {
      if j == |sessions| {
        assert r[i].tokenId in TokenIds(sessions);
      }
    }
    assert forall t :: t in TokenIds(r) ==> t in TokenIds(sessions) + {x.tokenId} by {
      forall t | t in TokenIds(r) ensures t in TokenIds(sessions) + {x.tokenId} {
        var j :| 0 <= j < |r| && r[j].tokenId == t;
        if j < |sessions| { assert sessions[j].tokenId == t; }
      }
    }
    assert r[|sessions|].tokenId == x.tokenId;
    assert forall t :: t in TokenIds(sessions) ==> t in TokenIds(r) by {
      forall t | t in TokenIds(sessions) ensures t in TokenIds(r) {
        var j :| 0 <= j < |sessions| && sessions[j].tokenId == t;
        assert r[j].tokenId == t;
      }
    }
  }

  lemma LoginStepKeepsInvariant(c: Suite, id: nat, role: Role, s: AccountState, password: string, now: int,
                                tokenId: string, ip: string, userAgent: string)
    requires Invariant(s) && tokenId !in TokenIds(s.refreshTokens)
    ensures Invariant(LoginStep(c, id, role, s, password, now, tokenId, ip, userAgent).state)
  {
    AppendFreshKeepsDistinct(s.refreshTokens, NewSession(tokenId, ip, userAgent, now));
  }

  lemma RefreshStepKeepsInvariant(c: Suite, id: nat, role: Role, s: AccountState, tokenId: string, now: int,
                                  newTokenId: string, ip: string, userAgent: string)
    requires Invariant(s) && newTokenId !in TokenIds(s.refreshTokens)
    ensures Invariant(RefreshStep(c, id, role, s, tokenId, now, newTokenId, ip, userAgent).state)
  {
    match FirstMatch(s.refreshTokens, tokenId, true)
    case None =>
    case Some(i) =>
      var revoked := Revoke(s.refreshTokens, i, now);
      RevokeKeepsTokenIds(s.refreshTokens, i, now);
      assert DistinctTokenIds(revoked);
      AppendFreshKeepsDistinct(revoked, NewSession(newTokenId, ip, userAgent, now));
  }

  lemma LogoutStepKeepsInvariant(s: AccountState, tokenId: string, now: int)
    requires Invariant(s)
    ensures Invariant(LogoutStep(s, tokenId, now))
  {
    match FirstMatch(s.refreshTokens, tokenId, false)
    case None =>
    case Some(i) =>
      RevokeKeepsTokenIds(s.refreshTokens, i, now);
  }

  // ---------------------------------------------------------------------------------
  // Lookups: `User.findOne({ email })` and `User.findById(id)`.

  /** The first account whose stored email equals the queried one after the schema's
      lowercase and trim setters. */
  function FindByEmail(users: seq<Account>, email: string): (r: Option<Account>)
    ensures r.Some? ==> r.value in users && r.value.email == NormalizeEmail(email)
    ensures r.None? ==> forall a :: a in users ==> a.email != NormalizeEmail(email)
  {
    if users == [] then None
    else if users[0].email == NormalizeEmail(email) then Some(users[0])
    else FindByEmail(users[1..], email)
  }

  function FindById(users: seq<Account>, id: nat): (r: Option<Account>)
    ensures r.Some? ==> r.value in users && r.value.id == id
    ensures r.None? ==> forall a :: a in users ==> a.id != id
  {
    if users == [] then None
    else if users[0].id == id then Some(users[0])
    else FindById(users[1..], id)
  }

  /** What a refresh-token cookie leads to: no cookie, a token `jwt.verify` rejects, or
      the account its payload names (if any) with the payload's `tokenId` (if any). */
  datatype Presented = NoCookie | Rejected | Presented(user: Option<Account>, tokenId: Option<string>)

  function Resolve(c: Suite, users: seq<Account>, cookie: Option<Jwt>, now: int): Presented
  {
    if cookie.None? then NoCookie
    else match Verify(c, cookie.value, now)
      case None => Rejected
      case Some(claims) => Presented(FindById(users, claims.userId), TokenIdOf(claims))
  }

  // ---------------------------------------------------------------------------------
  // The handlers.

  /** The part of POST /login after the account is found: the lock check, the password
      check with its failure counter, and on success a new session and the two tokens. */
  method LoginAccount(c: Suite, user: Account, password: string, now: int,
                      tokenId: string, ip: string, userAgent: string) returns (r: LoginResult)
    requires user.Valid() && tokenId !in TokenIds(user.refreshTokens)
    modifies user
    ensures user.Valid()
    ensures Step(user.State(), r) == LoginStep(c, user.id, user.role, old(user.State()), password, now, tokenId, ip, userAgent)
  {
    ghost var before := user.State();
    ghost var step := LoginStep(c, user.id, user.role, before, password, now, tokenId, ip, userAgent);
    LoginStepKeepsInvariant(c, user.id, user.role, before, password, now, tokenId, ip, userAgent);
    if user.lockedUntil.Some? && user.lockedUntil.value > now {
      assert step == Step(before, AccountLocked);
      return AccountLocked;
    }
    var valid := user.VerifyPassword(c, password);
    if !valid {
      var attempts := user.failedLoginAttempts + 1;
      user.failedLoginAttempts := attempts;
      if attempts >= LockThreshold {
        user.lockedUntil := Some(now + LockDuration);
      }
      assert step == Step(user.State(), InvalidCredentials);
      return InvalidCredentials;
    }
    user.failedLoginAttempts := 0;
    user.lockedUntil := None;
    var refresh := SignRefreshToken(c, user.id, tokenId, now);
    user.refreshTokens := user.refreshTokens + [NewSession(tokenId, ip, userAgent, now)];
    var access := SignAccessToken(c, user.id, user.role, now);
    assert step == Step(user.State(), LoggedIn(access, refresh));
    r := LoggedIn(access, refresh);
  }

  /** POST /login. */
  method Login(c: Suite, users: seq<Account>, email: string, password: string, now: int,
               tokenId: string, ip: string, userAgent: string) returns (r: LoginResult)
    requires forall a :: a in users ==> a.Valid() && tokenId !in TokenIds(a.refreshTokens)
    modifies users
    ensures forall a :: a in users ==> a.Valid()
    ensures |password| < MinPasswordLength ==> r == BadInput
    ensures |password| >= MinPasswordLength && FindByEmail(users, email).None? ==> r == InvalidCredentials
    ensures |password| < MinPasswordLength || FindByEmail(users, email).None? ==>
              forall a :: a in users ==> unchanged(a)
    ensures |password| >= MinPasswordLength && FindByEmail(users, email).Some? ==>
              var u := FindByEmail(users, email).value;
              Step(u.State(), r) == LoginStep(c, u.id, u.role, old(u.State()), password, now, tokenId, ip, userAgent) &&
              forall a :: a in users && a != u ==> unchanged(a)
  {
    if |password| < MinPasswordLength {
      return BadInput;
    }
    var found := FindByEmail(users, email);
    if found.None? {
      return InvalidCredentials;
    }
    var user := found.value;
    r := LoginAccount(c, user, password, now, tokenId, ip, userAgent);
  }

  /** POST /refresh. */
  method Refresh(c: Suite, users: seq<Account>, cookie: Option<Jwt>, now: int,
                 newTokenId: string, ip: string, userAgent: string) returns (r: RefreshResult)
    requires forall a :: a in users ==> a.Valid() && newTokenId !in TokenIds(a.refreshTokens)
    modifies users
    ensures forall a :: a in users ==> a.Valid()
    ensures match Resolve(c, users, cookie, now)
      case NoCookie => r == MissingToken && forall a :: a in users ==> unchanged(a)
      case Rejected => r == ExpiredOrInvalid && forall a :: a in users ==> unchanged(a)
      case Presented(Some(u), Some(t)) =>
        Step(u.State(), r) == RefreshStep(c, u.id, u.role, old(u.State()), t, now, newTokenId, ip, userAgent) &&
        forall a :: a in users && a != u ==> unchanged(a)
      case Presented(_, _) => r == InvalidToken && forall a :: a in users ==> unchanged(a)
  {
    if cookie.None? {
      return MissingToken;
    }
    var payload := Verify(c, cookie.value, now);
    if payload.None? {
      return ExpiredOrInvalid;
    }
    var found := FindById(users, payload.value.userId);
    var tokenId := TokenIdOf(payload.value);
    if found.None? || tokenId.None? {
      return InvalidToken;
    }
    var user := found.value;
    var valid := FindSession(user.refreshTokens, tokenId.value, true);
    if valid.None? {
      return InvalidToken;
    }
    RefreshStepKeepsInvariant(c, user.id, user.role, user.State(), tokenId.value, now, newTokenId, ip, userAgent);
    var newRefresh := SignRefreshToken(c, user.id, newTokenId, now);
    user.refreshTokens := Revoke(user.refreshTokens, valid.value, now);
    user.refreshTokens := user.refreshTokens + [NewSession(newTokenId, ip, userAgent, now)];
    var access := SignAccessToken(c, user.id, user.role, now);
    r := Refreshed(access, newRefresh);
  }

  /** POST /logout: always answers 200 and clears the cookie. */
  method Logout(c: Suite, users: seq<Account>, cookie: Option<Jwt>, now: int) returns (r: HttpReply)
    requires forall a :: a in users ==> a.Valid()
    modifies users
    ensures r == LoggedOut
    ensures forall a :: a in users ==> a.Valid()
    ensures match Resolve(c, users, cookie, now)
      case Presented(Some(u), Some(t)) =>
        u.State() == LogoutStep(old(u.State()), t, now) && forall a :: a in users && a != u ==> unchanged(a)
      case _ => forall a :: a in users ==> unchanged(a)
  {
    r := LoggedOut;
    if cookie.None? {
      return;
    }
    var payload := Verify(c, cookie.value, now);
    if payload.None? {
      return;
    }
    var found := FindById(users, payload.value.userId);
    var tokenId := TokenIdOf(payload.value);
    if found.None? || tokenId.None? {
      return;
    }
    var user := found.value;
    LogoutStepKeepsInvariant(user.State(), tokenId.value, now);
    var token := FindSession(user.refreshTokens, tokenId.value, false);
    if token.Some? {
      user.refreshTokens := Revoke(user.refreshTokens, token.value, now);
    }
  }

  /** POST /request-password-reset: the raw token goes back in the response body. */
  method RequestPasswordReset(c: Suite, users: seq<Account>, email: string, raw: string, now: int)
    returns (r: ResetRequestResult)
    requires forall a :: a in users ==> a.Valid()
    modifies users
    ensures forall a :: a in users ==> a.Valid()
    ensures FindByEmail(users, email).None? ==> r == UnknownEmail && forall a :: a in users ==> unchanged(a)
    ensures FindByEmail(users, email).Some? ==>
              var u := FindByEmail(users, email).value;
              r == ResetLinkCreated(raw) && u.State() == WithResetToken(c, old(u.State()), raw, now) &&
              forall a :: a in users && a != u ==> unchanged(a)
  {
    var found := FindByEmail(users, email);
    if found.None? {
      return UnknownEmail;
    }
    var token := found.value.CreatePasswordResetToken(c, raw, now);
    r := ResetLinkCreated(token);
  }

  /** POST /reset-password as written: the declared validators are never consulted, so
      any password, however short, is accepted once the token checks out. */
  method ResetPassword(c: Suite, users: seq<Account>, email: string, token: string, password: string,
                       salt: string, now: int) returns (r: ResetResult)
    requires forall a :: a in users ==> a.Valid()
    modifies users
    ensures forall a :: a in users ==> a.Valid()
    ensures FindByEmail(users, email).None? ==> r == UnknownUser && forall a :: a in users ==> unchanged(a)
    ensures FindByEmail(users, email).Some? ==>
              var u := FindByEmail(users, email).value;
              Step(u.State(), r) == ResetStepAsWritten(c, old(u.State()), token, password, salt, now) &&
              forall a :: a in users && a != u ==> unchanged(a)
  {
    var found := FindByEmail(users, email);
    if found.None? {
      return UnknownUser;
    }
    var user := found.value;
    var hash := c.sha256(token);
    if user.resetTokenHash != Some(hash) || ResetExpired(user.resetTokenExpire, now) {
      return ResetInvalidToken;
    }
    user.SetPassword(c, password, salt);
    user.resetTokenHash := None;
    user.resetTokenExpire := None;
    user.refreshTokens := [];
    r := ResetDone;
  }
}
