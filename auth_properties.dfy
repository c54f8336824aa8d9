/** What the authentication handlers guarantee, proved about the step functions of
    AuthRoutes: the five-strikes lockout, single-use refresh-token rotation, logout,
    and the password-reset round trip. */
module AuthProperties {
  import opened Common
  import opened Crypto
  import opened Users
  import opened AuthRoutes

  /** The token ids of the sessions that are still live. */
  function ActiveIds(sessions: seq<Session>): set<string>
  {
    set i | 0 <= i < |sessions| && sessions[i].IsActive() :: sessions[i].tokenId
  }

  // ---------------------------------------------------------------------------------
  // Login and the lockout.

  /** While the lock is in force even the right password is refused, and nothing changes. */
  lemma LockedRefusesEveryPassword(c: Suite, id: nat, role: Role, s: AccountState, password: string, now: int,
                                   tokenId: string, ip: string, userAgent: string)
    requires IsLocked(s, now)
    ensures LoginStep(c, id, role, s, password, now, tokenId, ip, userAgent) == Step(s, AccountLocked)
  {
  }

  /** A wrong password while unlocked counts one failure, locks for ten minutes from the
      fifth failure on, and changes nothing else. */
  lemma WrongPasswordCounts(c: Suite, id: nat, role: Role, s: AccountState, password: string, now: int,
                            tokenId: string, ip: string, userAgent: string)
    requires !IsLocked(s, now) && !BcryptCompare(c, password, s.passwordHash)
    ensures var st := LoginStep(c, id, role, s, password, now, tokenId, ip, userAgent);
      st.result == InvalidCredentials &&
      st.state.failedLoginAttempts == s.failedLoginAttempts + 1 &&
      (st.state.failedLoginAttempts >= LockThreshold ==> st.state.lockedUntil == Some(now + LockDuration)) &&
      (st.state.failedLoginAttempts < LockThreshold ==> st.state.lockedUntil == s.lockedUntil) &&
      st.state.(failedLoginAttempts := s.failedLoginAttempts, lockedUntil := s.lockedUntil) == s
  {
  }

  /** The right password while unlocked clears the counter and the lock, records exactly
      one new live session, and returns an access token and a refresh token that verify
      with the account's payloads until their lifetimes run out. */
  lemma RightPasswordLogsIn(c: Suite, id: nat, role: Role, s: AccountState, password: string, now: int,
                            tokenId: string, ip: string, userAgent: string, later: int)
    requires !IsLocked(s, now) && BcryptCompare(c, password, s.passwordHash)
    requires now <= later
    ensures var st := LoginStep(c, id, role, s, password, now, tokenId, ip, userAgent);
      st.result.LoggedIn? &&
      st.state.failedLoginAttempts == 0 && st.state.lockedUntil == None &&
      st.state.refreshTokens == s.refreshTokens + [Session(tokenId, ip, userAgent, now, None)] &&
      (later < now + AccessTokenLifetime <==> Verify(c, st.result.accessToken, later) == Some(AccessClaims(id, "admin"))) &&
      (later < now + RefreshTokenLifetime <==> Verify(c, st.result.refreshToken, later) == Some(RefreshClaims(id, tokenId)))
  {
    SignThenVerify(c, AccessClaims(id, role.Name()), now, AccessTokenLifetime, later);
    SignThenVerify(c, RefreshClaims(id, tokenId), now, RefreshTokenLifetime, later);
  }

  /** `k` wrong-password attempts at the given times. */
  function FailAll(c: Suite, id: nat, role: Role, s: AccountState, wrong: string, times: seq<int>): AccountState
    decreases |times|
  {
    if times == [] then s
    else FailAll(c, id, role, LoginStep(c, id, role, s, wrong, times[0], "", "", "").state, wrong, times[1..])
  }

  /** Fewer than five failures since the counter was last cleared leave the account
      unlocked: each one only increments the counter. */
  lemma {:induction false} FailuresAccumulate(c: Suite, id: nat, role: Role, s: AccountState, wrong: string, times: seq<int>)
    requires s.lockedUntil == None && !BcryptCompare(c, wrong, s.passwordHash)
    requires s.failedLoginAttempts + |times| < LockThreshold
    ensures FailAll(c, id, role, s, wrong, times) == s.(failedLoginAttempts := s.failedLoginAttempts + |times|)
    decreases |times|
  {
    if times != [] {
      var next := LoginStep(c, id, role, s, wrong, times[0], "", "", "").state;
      assert next == s.(failedLoginAttempts := s.failedLoginAttempts + 1);
      FailuresAccumulate(c, id, role, next, wrong, times[1..]);
    }
  }

  /** Five wrong passwords in a row from a clear account lock it for ten minutes after
      the fifth: within that window even the right password is refused. */
  lemma FiveFailuresLockOut(c: Suite, id: nat, role: Role, s: AccountState, wrong: string, times: seq<int>,
                            password: string, now: int, tokenId: string, ip: string, userAgent: string)
    requires s.failedLoginAttempts == 0 && s.lockedUntil == None && !BcryptCompare(c, wrong, s.passwordHash)
    requires |times| == LockThreshold
    requires now < times[4] + LockDuration
    ensures var locked := FailAll(c, id, role, s, wrong, times);
      locked.failedLoginAttempts == LockThreshold && locked.lockedUntil == Some(times[4] + LockDuration) &&
      LoginStep(c, id, role, locked, password, now, tokenId, ip, userAgent).result == AccountLocked
  {
    var first := times[..4];
    FailuresAccumulate(c, id, role, s, wrong, first);
    FailAllSplit(c, id, role, s, wrong, first, [times[4]]);
    assert first + [times[4]] == times;
  }

  lemma {:induction false} FailAllSplit(c: Suite, id: nat, role: Role, s: AccountState, wrong: string, a: seq<int>, b: seq<int>)
    ensures FailAll(c, id, role, s, wrong, a + b) == FailAll(c, id, role, FailAll(c, id, role, s, wrong, a), wrong, b)
    decreases |a|
  {
    if a == [] {
      assert a + b == b;
    } else {
      assert (a + b)[0] == a[0] && (a + b)[1..] == a[1..] + b;
      FailAllSplit(c, id, role, LoginStep(c, id, role, s, wrong, a[0], "", "", "").state, wrong, a[1..], b);
    }
  }

  /** The counter is not cleared when a lock runs out, so once five failures have been
      counted a single further failure after the lock expires locks the account again. */
  lemma ExpiredLockRelocksOnNextFailure(c: Suite, id: nat, role: Role, s: AccountState, wrong: string, now: int)
    requires s.failedLoginAttempts >= LockThreshold && !IsLocked(s, now)
    requires !BcryptCompare(c, wrong, s.passwordHash)
    ensures IsLocked(LoginStep(c, id, role, s, wrong, now, "", "", "").state, now)
  {
  }

  /** After the lock runs out the right password is accepted again and clears it. */
  lemma LockExpires(c: Suite, id: nat, role: Role, s: AccountState, password: string, now: int,
                    tokenId: string, ip: string, userAgent: string)
    requires s.lockedUntil.Some? && s.lockedUntil.value <= now
    requires BcryptCompare(c, password, s.passwordHash)
    ensures var st := LoginStep(c, id, role, s, password, now, tokenId, ip, userAgent);
      st.result.LoggedIn? && st.state.lockedUntil == None && st.state.failedLoginAttempts == 0
  {
  }

  // ---------------------------------------------------------------------------------
  // Refresh-token rotation.

  /** Refresh succeeds exactly when the presented token id names a live session;
      otherwise it answers 401 and leaves the account as it was. */
  lemma RefreshSucceedsIff(c: Suite, id: nat, role: Role, s: AccountState, tokenId: string, now: int,
                           newTokenId: string, ip: string, userAgent: string)
    ensures RefreshStep(c, id, role, s, tokenId, now, newTokenId, ip, userAgent).result.Refreshed? <==>
            tokenId in ActiveIds(s.refreshTokens)
    ensures tokenId !in ActiveIds(s.refreshTokens) ==>
            RefreshStep(c, id, role, s, tokenId, now, newTokenId, ip, userAgent) == Step(s, InvalidToken)
  {
    var ss := s.refreshTokens;
    if tokenId in ActiveIds(ss) {
      var j :| 0 <= j < |ss| && ss[j].IsActive() && ss[j].tokenId == tokenId;
      assert Matches(ss[j], tokenId, true);
    }
    match FirstMatch(ss, tokenId, true)
    case None =>
    case Some(i) =>
      assert ss[i].IsActive() && ss[i].tokenId == tokenId;
  }

  lemma RevokeActiveIds(sessions: seq<Session>, i: nat, now: int)
    requires i < |sessions| && DistinctTokenIds(sessions)
    ensures ActiveIds(Revoke(sessions, i, now)) == ActiveIds(sessions) - {sessions[i].tokenId}
  {
    var r := Revoke(sessions, i, now);
    forall t | t in ActiveIds(r) ensures t in ActiveIds(sessions) - {sessions[i].tokenId} {
      var j :| 0 <= j < |r| && r[j].IsActive() && r[j].tokenId == t;
      assert j != i && sessions[j] == r[j];
    }
    forall t | t in ActiveIds(sessions) - {sessions[i].tokenId} ensures t in ActiveIds(r) {
      var j :| 0 <= j < |sessions| && sessions[j].IsActive() && sessions[j].tokenId == t;
      assert j != i && r[j] == sessions[j];
    }
  }

  lemma AppendActiveIds(sessions: seq<Session>, x: Session)
    requires x.IsActive()
    ensures ActiveIds(sessions + [x]) == ActiveIds(sessions) + {x.tokenId}
  {
    var r := sessions + [x];
    forall t | t in ActiveIds(r) ensures t in ActiveIds(sessions) + {x.tokenId} {
      var j :| 0 <= j < |r| && r[j].IsActive() && r[j].tokenId == t;
      if j < |sessions| { assert sessions[j] == r[j]; }
    }
    forall t | t in ActiveIds(sessions) ensures t in ActiveIds(r) {
      var j :| 0 <= j < |sessions| && sessions[j].IsActive() && sessions[j].tokenId == t;
      assert r[j] == sessions[j];
    }
    assert r[|sessions|] == x;
  }

  /** A successful refresh retires the presented token and makes the new one live: the
      set of live token ids loses exactly the old id and gains exactly the new one. */
  lemma RefreshRotates(c: Suite, id: nat, role: Role, s: AccountState, tokenId: string, now: int,
                       newTokenId: string, ip: string, userAgent: string)
    requires Invariant(s) && newTokenId !in TokenIds(s.refreshTokens)
    requires tokenId in ActiveIds(s.refreshTokens)
    ensures ActiveIds(RefreshStep(c, id, role, s, tokenId, now, newTokenId, ip, userAgent).state.refreshTokens) ==
            ActiveIds(s.refreshTokens) - {tokenId} + {newTokenId}
  {
    RefreshSucceedsIff(c, id, role, s, tokenId, now, newTokenId, ip, userAgent);
    var i := FirstMatch(s.refreshTokens, tokenId, true).value;
    RevokeActiveIds(s.refreshTokens, i, now);
    AppendActiveIds(Revoke(s.refreshTokens, i, now), NewSession(newTokenId, ip, userAgent, now));
  }

  /** A refresh token works once: presenting it again after a successful refresh fails. */
  lemma RefreshTokenSingleUse(c: Suite, id: nat, role: Role, s: AccountState, tokenId: string, now: int,
                              newTokenId: string, ip: string, userAgent: string,
                              later: int, otherId: string)
    requires Invariant(s) && newTokenId !in TokenIds(s.refreshTokens)
    requires tokenId in ActiveIds(s.refreshTokens)
    ensures var s1 := RefreshStep(c, id, role, s, tokenId, now, newTokenId, ip, userAgent).state;
      RefreshStep(c, id, role, s1, tokenId, later, otherId, ip, userAgent).result == InvalidToken
  {
    RefreshRotates(c, id, role, s, tokenId, now, newTokenId, ip, userAgent);
    var s1 := RefreshStep(c, id, role, s, tokenId, now, newTokenId, ip, userAgent).state;
    assert tokenId != newTokenId by {
      var j :| 0 <= j < |s.refreshTokens| && s.refreshTokens[j].IsActive() && s.refreshTokens[j].tokenId == tokenId;
      assert tokenId in TokenIds(s.refreshTokens);
    }
    RefreshSucceedsIff(c, id, role, s1, tokenId, later, otherId, ip, userAgent);
  }

  /** The refresh token a login hands out is accepted by refresh while it has not expired. */
  lemma LoginThenRefresh(c: Suite, id: nat, role: Role, s: AccountState, password: string, now: int,
                         tokenId: string, ip: string, userAgent: string, later: int, newTokenId: string)
    requires !IsLocked(s, now) && BcryptCompare(c, password, s.passwordHash)
    requires now <= later < now + RefreshTokenLifetime
    ensures var st := LoginStep(c, id, role, s, password, now, tokenId, ip, userAgent);
      Verify(c, st.result.refreshToken, later) == Some(RefreshClaims(id, tokenId)) &&
      RefreshStep(c, id, role, st.state, tokenId, later, newTokenId, ip, userAgent).result.Refreshed?
  {
    RightPasswordLogsIn(c, id, role, s, password, now, tokenId, ip, userAgent, later);
    var st := LoginStep(c, id, role, s, password, now, tokenId, ip, userAgent);
    AppendActiveIds(s.refreshTokens, NewSession(tokenId, ip, userAgent, now));
    RefreshSucceedsIff(c, id, role, st.state, tokenId, later, newTokenId, ip, userAgent);
  }

  // ---------------------------------------------------------------------------------
  // Logout.

  /** After logout the presented token id no longer names a live session, and no other
      session is touched. */
  lemma LogoutRevokes(s: AccountState, tokenId: string, now: int)
    requires Invariant(s)
    ensures ActiveIds(LogoutStep(s, tokenId, now).refreshTokens) == ActiveIds(s.refreshTokens) - {tokenId}
    ensures LogoutStep(s, tokenId, now).(refreshTokens := s.refreshTokens) == s
  {
    var ss := s.refreshTokens;
    match FirstMatch(ss, tokenId, false)
    case None =>
      forall t | t in ActiveIds(ss) ensures t != tokenId {
        var j :| 0 <= j < |ss| && ss[j].IsActive() && ss[j].tokenId == t;
        assert !Matches(ss[j], tokenId, false);
      }
    case Some(i) =>
      RevokeActiveIds(ss, i, now);
  }

  /** Logging out twice with the same token leaves the same live sessions as once. */
  lemma LogoutIdempotent(s: AccountState, tokenId: string, now1: int, now2: int)
    requires Invariant(s)
    ensures ActiveIds(LogoutStep(LogoutStep(s, tokenId, now1), tokenId, now2).refreshTokens) ==
            ActiveIds(LogoutStep(s, tokenId, now1).refreshTokens)
  {
    LogoutStepKeepsInvariant(s, tokenId, now1);
    LogoutRevokes(s, tokenId, now1);
    LogoutRevokes(LogoutStep(s, tokenId, now1), tokenId, now2);
  }

  /** A session that was already revoked gets its `revokedAt` overwritten by a later
      logout with its token. */
  lemma LogoutOverwritesRevokedAt(s: AccountState, i: nat, now: int)
    requires Invariant(s) && i < |s.refreshTokens|
    ensures LogoutStep(s, s.refreshTokens[i].tokenId, now).refreshTokens[i].revokedAt == Some(now)
  {
    var ss := s.refreshTokens;
    assert Matches(ss[i], ss[i].tokenId, false);
    var k := FirstMatch(ss, ss[i].tokenId, false).value;
    assert k == i;
  }

  /** A logged-out refresh token cannot be used to refresh. */
  lemma LogoutThenRefreshFails(c: Suite, id: nat, role: Role, s: AccountState, tokenId: string, now: int,
                               later: int, newTokenId: string, ip: string, userAgent: string)
    requires Invariant(s)
    ensures RefreshStep(c, id, role, LogoutStep(s, tokenId, now), tokenId, later, newTokenId, ip, userAgent).result == InvalidToken
  {
    LogoutRevokes(s, tokenId, now);
    RefreshSucceedsIff(c, id, role, LogoutStep(s, tokenId, now), tokenId, later, newTokenId, ip, userAgent);
  }

  // ---------------------------------------------------------------------------------
  // Password reset.

  /** Both the handler as written and its corrected form keep the account invariant. */
  lemma ResetStepKeepsInvariant(c: Suite, s: AccountState, token: string, password: string, salt: string, now: int)
    requires Invariant(s)
    ensures Invariant(ResetStepAsWritten(c, s, token, password, salt, now).state)
    ensures Invariant(ResetStep(c, s, token, password, salt, now).state)
  {
  }

  /** A reset request followed, within the hour, by a reset with the raw token succeeds
      for any password: the new password verifies, the reset fields are cleared and every
      session is dropped. */
  lemma ResetRoundTrip(c: Suite, s: AccountState, raw: string, issued: int, password: string, salt: string, now: int)
    requires now <= issued + ResetTokenLifetime
    ensures var st := ResetStepAsWritten(c, WithResetToken(c, s, raw, issued), raw, password, salt, now);
      st.result == ResetDone &&
      BcryptCompare(c, password, st.state.passwordHash) &&
      st.state.resetTokenHash == None && st.state.resetTokenExpire == None &&
      st.state.refreshTokens == []
  {
    BcryptRoundTrip(c, password, salt);
  }

  /** A reset is refused as an invalid token exactly when the hash of the presented token
      differs from the stored one or the stored expiry has passed; a refused reset changes
      nothing, and the only other outcome is success. */
  lemma ResetRefusedIff(c: Suite, s: AccountState, token: string, password: string, salt: string, now: int)
    ensures var st := ResetStepAsWritten(c, s, token, password, salt, now);
      (st.result == ResetInvalidToken <==>
        (s.resetTokenHash != Some(c.sha256(token)) || (s.resetTokenExpire.Some? && s.resetTokenExpire.value < now))) &&
      (st.result == ResetInvalidToken ==> st.state == s) &&
      (st.result != ResetInvalidToken ==> st.result == ResetDone)
  {
  }

  /** A reset token is used up by a successful reset: presenting it again fails, whatever
      password comes with it. */
  lemma ResetTokenSingleUse(c: Suite, s: AccountState, token: string, password: string, salt: string, now: int,
                            password2: string, salt2: string, later: int)
    requires ResetStepAsWritten(c, s, token, password, salt, now).result == ResetDone
    ensures var st := ResetStepAsWritten(c, s, token, password, salt, now).state;
      ResetStepAsWritten(c, st, token, password2, salt2, later) == Step(st, ResetInvalidToken)
  {
  }

  /** A second reset request replaces the first token: the older one no longer works
      (unless the two tokens' SHA-256 digests collide), whatever the password. */
  lemma LatestResetTokenWins(c: Suite, s: AccountState, raw1: string, t1: int, raw2: string, t2: int,
                             password: string, salt: string, now: int)
    requires c.sha256(raw1) != c.sha256(raw2)
    ensures var twice := WithResetToken(c, WithResetToken(c, s, raw1, t1), raw2, t2);
      twice == WithResetToken(c, s, raw2, t2) &&
      ResetStepAsWritten(c, twice, raw1, password, salt, now) == Step(twice, ResetInvalidToken)
  {
  }

  /** A successful reset ends every session: no refresh token works afterwards. */
  lemma ResetEndsAllSessions(c: Suite, id: nat, role: Role, s: AccountState, token: string, password: string,
                             salt: string, now: int, tokenId: string, later: int, newTokenId: string, ip: string, userAgent: string)
    requires ResetStepAsWritten(c, s, token, password, salt, now).result == ResetDone
    ensures var st := ResetStepAsWritten(c, s, token, password, salt, now).state;
      st.refreshTokens == [] &&
      RefreshStep(c, id, role, st, tokenId, later, newTokenId, ip, userAgent) == Step(st, InvalidToken)
  {
  }

  /** A reset neither clears the failure counter nor lifts a lock in force, and touches
      nothing but the password hash, the reset fields and the sessions. */
  lemma ResetKeepsLock(c: Suite, s: AccountState, token: string, password: string, salt: string, now: int)
    ensures var st := ResetStepAsWritten(c, s, token, password, salt, now).state;
      st.failedLoginAttempts == s.failedLoginAttempts && st.lockedUntil == s.lockedUntil &&
      st.(passwordHash := s.passwordHash, resetTokenHash := s.resetTokenHash,
          resetTokenExpire := s.resetTokenExpire, refreshTokens := s.refreshTokens) == s
  {
  }

  /** As written, reset-password accepts the empty password whenever the token is good. */
  lemma ResetAsWrittenAcceptsShortPassword(c: Suite, s: AccountState, token: string, salt: string, now: int)
    requires s.resetTokenHash == Some(c.sha256(token)) && !ResetExpired(s.resetTokenExpire, now)
    ensures ResetStepAsWritten(c, s, token, "", salt, now).result == ResetDone
    ensures BcryptCompare(c, "", ResetStepAsWritten(c, s, token, "", salt, now).state.passwordHash)
  {
    BcryptRoundTrip(c, "", salt);
  }

  /** With its validator enforced, reset-password refuses a password shorter than six
      characters without touching the account, and otherwise behaves as written. */
  lemma ResetRejectsShortPassword(c: Suite, s: AccountState, token: string, password: string, salt: string, now: int)
    ensures |password| < MinPasswordLength ==> ResetStep(c, s, token, password, salt, now) == Step(s, ResetBadInput)
    ensures |password| >= MinPasswordLength ==>
              ResetStep(c, s, token, password, salt, now) == ResetStepAsWritten(c, s, token, password, salt, now)
  {
  }
}
