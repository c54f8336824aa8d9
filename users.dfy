/** The admin account document of backend/models/User.js: its refresh-session records,
    its defaults, and the three model methods `setPassword`, `verifyPassword` and
    `createPasswordResetToken`. */
module Users {
  import opened Common
  import opened Crypto
  import Text

  const ResetTokenLifetime: int := 60 * 60 * 1000

  /** The only role the schema admits. */
  datatype Role = Admin
  {
    function Name(): string { "admin" }
  }

  /** One refresh-token record: `tokenId` is required, `revokedAt` is unset while the
      session is live. */
  datatype Session = Session(tokenId: string, ip: string, userAgent: string, createdAt: int, revokedAt: Option<int>)
  {
    predicate IsActive() { revokedAt.None? }
  }

  /** The mutable part of an account document. */
  datatype AccountState = AccountState(
    passwordHash: PasswordHash,
    failedLoginAttempts: nat,
    lockedUntil: Option<int>,
    resetTokenHash: Option<string>,
    resetTokenExpire: Option<int>,
    refreshTokens: seq<Session>)

  function TokenIds(sessions: seq<Session>): set<string>
  {
    set i | 0 <= i < |sessions| :: sessions[i].tokenId
  }

  predicate DistinctTokenIds(sessions: seq<Session>)
  {
    forall i, j :: 0 <= i < j < |sessions| ==> sessions[i].tokenId != sessions[j].tokenId
  }

  /** What every operation keeps: no two sessions share a token id, and the two reset
      fields are set and cleared together. */
  predicate Invariant(s: AccountState)
  {
    DistinctTokenIds(s.refreshTokens) && (s.resetTokenHash.Some? <==> s.resetTokenExpire.Some?)
  }

  /** The schema defaults for a new document. */
  function InitialState(passwordHash: PasswordHash): (s: AccountState)
    ensures Invariant(s)
    ensures s.failedLoginAttempts == 0 && s.lockedUntil == None && s.refreshTokens == []
    ensures s.resetTokenHash == None && s.resetTokenExpire == None
  {
    AccountState(passwordHash, 0, None, None, None, [])
  }

  /** The email as stored: the schema lowercases and trims it. */
  function NormalizeEmail(email: string): string
  {
    Text.Lower(Text.Trim(email))
  }

  /** The state `createPasswordResetToken(raw)` leaves at time `now`: only the SHA-256 of
      the raw token is kept, with an expiry one hour later; a previous token is overwritten. */
  function WithResetToken(c: Suite, s: AccountState, raw: string, now: int): AccountState
  {
    s.(resetTokenHash := Some(c.sha256(raw)), resetTokenExpire := Some(now + ResetTokenLifetime))
  }

  /** A reset token keeps the invariant and touches nothing but the two reset fields. */
  lemma WithResetTokenKeepsRest(c: Suite, s: AccountState, raw: string, now: int)
    requires Invariant(s)
    ensures Invariant(WithResetToken(c, s, raw, now))
    ensures WithResetToken(c, s, raw, now).(resetTokenHash := s.resetTokenHash, resetTokenExpire := s.resetTokenExpire) == s
  {
  }

  class Account {
    const id: nat
    const name: string
    const email: string
    const role: Role
    var passwordHash: PasswordHash
    var failedLoginAttempts: nat
    var lockedUntil: Option<int>
    var resetTokenHash: Option<string>
    var resetTokenExpire: Option<int>
    var refreshTokens: seq<Session>

    function State(): AccountState
      reads this
    {
      AccountState(passwordHash, failedLoginAttempts, lockedUntil, resetTokenHash, resetTokenExpire, refreshTokens)
    }

    predicate Valid()
      reads this
    {
      Invariant(State())
    }

    /** `User.create({ name, email, passwordHash })`: the email goes through the schema's
        lowercase and trim setters, the role and counters take their defaults. */
    constructor (id: nat, name: string, email: string, passwordHash: PasswordHash)
      ensures this.id == id && this.name == name && this.email == NormalizeEmail(email)
      ensures role == Admin
      ensures State() == InitialState(passwordHash)
      ensures Valid()
    {
      this.id := id;
      this.name := name;
      this.email := NormalizeEmail(email);
      role := Admin;
      this.passwordHash := passwordHash;
      failedLoginAttempts := 0;
      lockedUntil := None;
      resetTokenHash := None;
      resetTokenExpire := None;
      refreshTokens := [];
    }

    /** `setPassword(password)`: store a fresh salted hash; the password then verifies. */
    method SetPassword(c: Suite, password: string, salt: string)
      modifies this
      ensures State() == old(State()).(passwordHash := BcryptHash(c, password, salt))
      ensures VerifyPassword(c, password)
    {
      passwordHash := BcryptHash(c, password, salt);
    }

    /** `verifyPassword(password)`. */
    predicate VerifyPassword(c: Suite, password: string)
      reads this
    {
      BcryptCompare(c, password, passwordHash)
    }

    /** `createPasswordResetToken()` with the random bytes as the parameter `raw`: returns
        the raw token and keeps only its hash and an expiry. */
    method CreatePasswordResetToken(c: Suite, raw: string, now: int) returns (token: string)
      requires Valid()
      modifies this
      ensures Valid()
      ensures token == raw
      ensures State() == WithResetToken(c, old(State()), raw, now)
      ensures resetTokenHash == Some(c.sha256(token))
    {
      resetTokenHash := Some(c.sha256(raw));
      resetTokenExpire := Some(now + ResetTokenLifetime);
      token := raw;
    }
  }
}
