/** The token helpers: `generateAccessToken` and `generateRefreshToken` each
    sign the payload `{ id: userId }` with one secret and one lifetime, and
    `jsonwebtoken`'s `verify` checks signature and expiry. The cryptography is
    abstract: a signed token records the secret it was signed with, so a
    signature check is a comparison of secrets. Time is whole seconds, as in
    the `iat` and `exp` claims. */
module Token {
  import opened Wrappers

  /** A user's MongoDB `_id`, as carried in the `id` claim. */
  type UserId = nat

  /** The process configuration `JWT_SECRET` and `JWT_REFRESH_SECRET`. */
  datatype Secrets = Secrets(access: string, refresh: string)

  /** `expiresIn: "30s"`. */
  const ACCESS_LIFETIME: int := 30
  /** `expiresIn: "7d"`, in seconds. */
  const REFRESH_LIFETIME: int := 7 * 24 * 60 * 60

  /** A token string as the server may receive it: either a well-formed JWT
      (payload `{id, iat, exp}`, HS256 signature made with `secret`) or any
      other string. Two JWTs with the same secret and claims are the same
      string. `Malformed(text)` is reserved for strings that are not the
      encoding of any signed token, so no token string has two
      representations, and equality of `Token` values is equality of token
      strings. */
  datatype Token =
    | Jwt(secret: string, id: UserId, iat: int, exp: int)
    | Malformed(text: string)

  /** `jwt.sign({ id }, secret, { expiresIn: lifetime })` at second `now`. */
  function Sign(secret: string, id: UserId, lifetime: int, now: int): Token {
    Jwt(secret, id, now, now + lifetime)
  }

  /** `jwt.verify(token, secret)`: the decoded `id` when the signature was made
      with `secret` and the clock is before `exp`, otherwise failure (an
      invalid signature and an expired token both fail, indistinguishably). */
  function Verify(t: Token, secret: string, now: int): (r: Option<UserId>)
    ensures r.Some? <==> t.Jwt? && t.secret == secret && now < t.exp
    ensures r.Some? ==> r.value == t.id
  {
    match t
    case Jwt(s, id, _, exp) => if s == secret && now < exp then Some(id) else None
    case Malformed(_) => None
  }

  /** `generateAccessToken(userId)` at second `now`. */
  function GenerateAccessToken(s: Secrets, id: UserId, now: int): (t: Token)
    ensures t.Jwt? && t.id == id && t.iat == now
    ensures forall later :: Verify(t, s.access, later) == (if later < now + ACCESS_LIFETIME then Some(id) else None)
    ensures s.access != s.refresh ==> forall later :: Verify(t, s.refresh, later) == None
  {
    Sign(s.access, id, ACCESS_LIFETIME, now)
  }

  /** `generateRefreshToken(userId)` at second `now`. */
  function GenerateRefreshToken(s: Secrets, id: UserId, now: int): (t: Token)
    ensures t.Jwt? && t.id == id && t.iat == now
    ensures forall later :: Verify(t, s.refresh, later) == (if later < now + REFRESH_LIFETIME then Some(id) else None)
    ensures s.access != s.refresh ==> forall later :: Verify(t, s.access, later) == None
  {
    Sign(s.refresh, id, REFRESH_LIFETIME, now)
  }

  /** Tokens carry no randomness: two refresh tokens for one user issued in the
      same second are the same string, and tokens issued in different seconds
      or for different users differ. */
  lemma RefreshTokensEqualIff(s: Secrets, a: UserId, b: UserId, t1: int, t2: int)
    ensures GenerateRefreshToken(s, a, t1) == GenerateRefreshToken(s, b, t2) <==> a == b && t1 == t2
  {
  }

  /** An access token is never a refresh token of the same configuration, as
      long as the two secrets differ. */
  lemma AccessIsNotRefresh(s: Secrets, a: UserId, b: UserId, t1: int, t2: int)
    requires s.access != s.refresh
    ensures GenerateAccessToken(s, a, t1) != GenerateRefreshToken(s, b, t2)
  {
  }
}
