/** The cryptographic libraries the authentication code calls (bcrypt, Node's SHA-256,
    jsonwebtoken's HMAC signatures). Their internals are foreign: each primitive is an
    arbitrary function value in a `Suite`, and every property proved in this model holds
    for every choice of those functions. */
module Crypto {
  import opened Common

  /** The primitives: `sha256` is `createHash('sha256').update(x).digest('hex')`,
      `bcryptKdf` the salted cost-12 key derivation of `bcrypt.hash`, and `jwtMac` the
      HMAC that `jwt.sign` computes under the process-wide secret over a payload and its
      expiry. */
  datatype Suite = Suite(
    sha256: string -> string,
    bcryptKdf: (string, string) -> string,
    jwtMac: (Claims, int) -> string)

  /** A bcrypt hash string carries its own salt next to the derived digest. */
  datatype PasswordHash = PasswordHash(salt: string, digest: string)

  /** `bcrypt.hash(password, 12)` with the random salt made a parameter. */
  function BcryptHash(c: Suite, password: string, salt: string): PasswordHash
  {
    PasswordHash(salt, c.bcryptKdf(password, salt))
  }

  /** `bcrypt.compare(password, hash)`: re-derive with the stored salt and compare. */
  predicate BcryptCompare(c: Suite, password: string, h: PasswordHash)
  {
    c.bcryptKdf(password, h.salt) == h.digest
  }

  /** A password always matches the hash made from it, whatever the salt. */
  lemma BcryptRoundTrip(c: Suite, password: string, salt: string)
    ensures BcryptCompare(c, password, BcryptHash(c, password, salt))
  {
  }

  /** The payloads the application signs: `{ id, role }` for access tokens and
      `{ id, tokenId }` for refresh tokens. */
  datatype Claims =
    | AccessClaims(userId: nat, role: string)
    | RefreshClaims(userId: nat, tokenId: string)

  /** The `tokenId` field of a verified payload; an access-token payload has none. */
  function TokenIdOf(claims: Claims): (r: Option<string>)
    ensures r.Some? <==> claims.RefreshClaims?
  {
    if claims.RefreshClaims? then Some(claims.tokenId) else None
  }

  /** A signed token: payload, expiry (`exp`, here in milliseconds) and signature. */
  datatype Jwt = Jwt(claims: Claims, expiresAt: int, signature: string)

  /** `jwt.sign(claims, secret, { expiresIn })` at time `now`. */
  function Sign(c: Suite, claims: Claims, now: int, lifetime: nat): (t: Jwt)
    ensures t.claims == claims && t.expiresAt == now + lifetime
  {
    Jwt(claims, now + lifetime, c.jwtMac(claims, now + lifetime))
  }

  /** `jwt.verify(token, secret)` at time `now`: the payload when the signature matches
      and the token has not expired, otherwise the call throws (`None`). */
  function Verify(c: Suite, t: Jwt, now: int): Option<Claims>
  {
    if t.signature == c.jwtMac(t.claims, t.expiresAt) && now < t.expiresAt then Some(t.claims) else None
  }

  /** A token verifies, with its own payload, exactly until its lifetime runs out. */
  lemma SignThenVerify(c: Suite, claims: Claims, issued: int, lifetime: nat, now: int)
    ensures now < issued + lifetime ==> Verify(c, Sign(c, claims, issued, lifetime), now) == Some(claims)
    ensures now >= issued + lifetime ==> Verify(c, Sign(c, claims, issued, lifetime), now) == None
  {
  }

  /** A verified payload is the one that was signed: changing the payload of a token
      without re-signing it breaks verification unless the MAC happens to collide. */
  lemma VerifiedClaimsAreSigned(c: Suite, t: Jwt, now: int)
    requires Verify(c, t, now).Some?
    ensures t.signature == c.jwtMac(Verify(c, t, now).value, t.expiresAt)
  {
  }
}
