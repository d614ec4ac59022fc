/**
 * bcryptjs and jsonwebtoken, the two libraries the credential store and the identity
 * resolver call, kept abstract: each is a pair of functions, and the properties the
 * core relies on are stated as axioms (`BcryptAxioms`, `JwtAxioms`) that the lemmas
 * needing them take as preconditions. Time is in whole seconds since the epoch.
 */
module Crypto {
  import opened Wrappers
  import opened ObjectIds

  /** The work factor passed to `bcrypt.hash`. */
  const SaltRounds: nat := 10

  /** `expiresIn: "7d"`, in seconds. */
  const SevenDays: int := 7 * 24 * 60 * 60

  /** The secret used when `JWT_SECRET` is unset or empty. */
  const FallbackSecret := "your-secret-key"

  /** `process.env.JWT_SECRET || "your-secret-key"`, the one expression both the signer
      and the verifier use. */
  function SigningSecret(env: Option<string>): (secret: string)
    ensures secret != ""
    ensures env.Some? && env.value != "" ==> secret == env.value
    ensures !(env.Some? && env.value != "") ==> secret == FallbackSecret
  {
    if env.Some? && env.value != "" then env.value else FallbackSecret
  }

  /** `bcrypt.hash(password, rounds)` with the random salt made explicit, and
      `bcrypt.compare(password, hash)`. */
  datatype Bcrypt = Bcrypt(hash: (string, nat, string) -> string, compare: (string, string) -> bool)

  /** A hash accepts the password it was made from and no other (collision freedom is an
      idealisation), and is never the empty string. */
  ghost predicate BcryptAxioms(b: Bcrypt) {
    && (forall p, rounds, salt :: b.compare(p, b.hash(p, rounds, salt)))
    && (forall p, q, rounds, salt :: p != q ==> !b.compare(q, b.hash(p, rounds, salt)))
    && (forall p, rounds, salt :: b.hash(p, rounds, salt) != "")
  }

  /** The identity claims a login token carries: `{ userId, email }`. */
  datatype Claims = Claims(userId: ObjectId, email: string)

  datatype TokenError = Malformed | BadSignature | Expired

  datatype Verified = Valid(claims: Claims) | Invalid(error: TokenError)

  /** `jwt.sign(claims, secret)` with the `exp` claim (section 4.1.4 of RFC 7519) given
      as an absolute time, and `jwt.verify(token, secret)` at time `now`. */
  datatype Jwt = Jwt(sign: (Claims, string, int) -> string, verify: (string, string, int) -> Verified)

  /** A compact JWS serialisation: base64url segments joined by '.', so never empty
      and never containing a space. */
  predicate Compact(token: string) {
    token != "" && ' ' !in token
  }

  /** A token verifies under the secret it was signed with until its expiry; under any
      other secret it fails on its signature; only signed tokens ever verify; every
      token is compact. */
  ghost predicate JwtAxioms(j: Jwt) {
    && (forall c, key, exp, now :: j.verify(j.sign(c, key, exp), key, now) ==
          if now < exp then Valid(c) else Invalid(Expired))
    && (forall c, key, other, exp, now :: other != key ==>
          j.verify(j.sign(c, key, exp), other, now) == Invalid(BadSignature))
    && (forall token, key, now :: j.verify(token, key, now).Valid? ==>
          exists exp :: now < exp && token == j.sign(j.verify(token, key, now).claims, key, exp))
    && (forall c, key, exp :: Compact(j.sign(c, key, exp)))
  }
}
