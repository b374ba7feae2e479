/**
 * The collaborators the credential handlers call but whose code is not part of
 * this model: the token library (sign / verify), the password hasher
 * (hash / compare), the process environment and the failing store calls.
 * Library calls are function-valued fields, so every property proved about the
 * handlers holds for every codec and hasher; the few properties that depend on
 * what the libraries do take one of the predicates below as a precondition.
 */
module Collaborators {
  import opened Options

  type UserId = nat
  type Time = int

  /** The claims object `{ id }` a token carries; `id` is None when a verified payload has no usable id. */
  datatype Payload = Payload(id: Option<UserId>)

  /**
   * The token library. `sign(payload, secret, expiresIn, now)` is None when the
   * library throws (an empty secret, a malformed expiry); `verify(token, secret, now)`
   * is None for every failure (bad signature, malformed token, expired at `now`).
   */
  datatype Codec = Codec(
    sign: (Payload, string, Option<string>, Time) -> Option<string>,
    verify: (string, string, Time) -> Option<Payload>)

  /** The password hasher: `hash(plaintext, salt)` and `compare(plaintext, stored)`. */
  datatype Hasher = Hasher(
    hash: (string, string) -> string,
    compare: (string, string) -> bool)

  /** The environment variables the handlers read; the empty string stands for an unset variable. */
  datatype Env = Env(jwtSecret: string, refreshSecret: string, refreshExpires: string)

  /** Everything a handler is constructed with. */
  datatype Deps = Deps(env: Env, codec: Codec, hasher: Hasher)

  /** The store calls the handlers make; a request may find any of them failing. */
  datatype StoreCall =
    | FindUserByEmail
    | FindUserById
    | CreateUser
    | FindRefreshToken
    | CreateRefreshToken
    | FindManyUsers

  /** What one request brings along: the clock, the hasher's random salt, and the store calls that throw. */
  datatype Ctx = Ctx(now: Time, salt: string, down: set<StoreCall>)

  const DefaultRefreshTtl: string := "7d"
  const AccessTtl: string := "15m"

  /** `REFRESH_TOKEN_SECRET || JWT_SECRET`: the refresh secret, or the access secret when it is unset. */
  function RefreshSecret(env: Env): (s: string)
    ensures env.refreshSecret != "" ==> s == env.refreshSecret
    ensures env.refreshSecret == "" ==> s == env.jwtSecret
    ensures s == "" <==> env.refreshSecret == "" && env.jwtSecret == ""
  {
    if env.refreshSecret != "" then env.refreshSecret else env.jwtSecret
  }

  /** `REFRESH_TOKEN_EXPIRES || '7d'`. */
  function RefreshTtl(env: Env): (ttl: string)
    ensures ttl != ""
    ensures env.refreshExpires != "" ==> ttl == env.refreshExpires
    ensures env.refreshExpires == "" ==> ttl == DefaultRefreshTtl
  {
    if env.refreshExpires != "" then env.refreshExpires else DefaultRefreshTtl
  }

  /**
   * A codec that behaves like a signed-token library at the moment of issue, for
   * tokens without an expiry and for the expiries in `ttls`: with a non-empty
   * secret, signing succeeds, yields a non-empty token without spaces (a compact
   * serialisation), and that token verifies under the same secret to the same
   * payload. An expiry outside `ttls` (one the library refuses, or one that has
   * already run out when the token is issued) is left unconstrained.
   */
  ghost predicate Sound(c: Codec, ttls: set<string>) {
    forall p: Payload, s: string, ttl: Option<string>, t: Time {:trigger c.sign(p, s, ttl, t)} ::
      s != "" && (ttl.None? || ttl.value in ttls) ==>
        c.sign(p, s, ttl, t).Some? && c.sign(p, s, ttl, t).value != "" &&
        ' ' !in c.sign(p, s, ttl, t).value &&
        c.verify(c.sign(p, s, ttl, t).value, s, t) == Some(p)
  }

  /** A codec under which a token signed with one secret never verifies under a different one. */
  ghost predicate Separate(c: Codec) {
    forall p: Payload, s: string, ttl: Option<string>, t: Time, s2: string, t2: Time
      {:trigger c.verify(c.sign(p, s, ttl, t).value, s2, t2)} ::
      s != s2 && c.sign(p, s, ttl, t).Some? ==> c.verify(c.sign(p, s, ttl, t).value, s2, t2).None?
  }

  /** A hasher whose compare accepts the plaintext a stored hash was made from. */
  ghost predicate HasherSound(h: Hasher) {
    forall pw: string, salt: string {:trigger h.hash(pw, salt)} :: h.compare(pw, h.hash(pw, salt))
  }
}
