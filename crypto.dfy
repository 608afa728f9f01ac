/**
 * The cryptography the backend calls into, kept abstract.
 *
 * bcrypt is modelled as an injective digest that remembers what it was computed from, so
 * `bcrypt.compare(plain, digest)` holds exactly when `digest` was made from `plain`; salts and
 * cost factors are not modelled. A JSON Web Token is modelled by the claims it carries and its
 * lifetime; signing and verifying are left to a `decode` function supplied by the caller
 * (see module Auth).
 */
module Crypto {
  import opened Wrappers

  /** A bcrypt digest. */
  datatype Digest = Digest(source: string)

  /** `bcrypt.hash(plain, salt)`. */
  function Hash(plain: string): Digest {
    Digest(plain)
  }

  /** `bcrypt.compare(plain, digest)`. */
  predicate Compare(plain: string, d: Digest) {
    d.source == plain
  }

  /**
   * The message `bcrypt.compare` rejects with when the text or the digest is `undefined`; a
   * handler that catches it answers 500.
   */
  const CompareArgumentsMissing: string := "data and hash arguments required"

  /** A digest matches the text it was made from and nothing else. */
  lemma HashMatchesOnlyItsSource(plain: string, other: string)
    ensures Compare(other, Hash(plain)) <==> other == plain
  {
  }

  /** A JSON value, as it may appear in a decoded token payload. */
  datatype Json = JBool(b: bool) | JString(s: string) | JNumber(n: int) | JNull

  /** The payload fields the middlewares read: `id` (patients, doctors) and `isAdmin` (admin). */
  datatype Claims = Claims(id: Option<nat>, isAdmin: Option<Json>)

  /** A token `jwt.sign` issued: its claims and its lifetime in seconds (`None`: never expires). */
  datatype Token = Token(claims: Claims, lifetimeSeconds: Option<nat>)

  /** The claims a patient or doctor login signs: `{ id: account._id }`, with no expiry. */
  function AccountToken(id: nat): Token {
    Token(Claims(Some(id), None), None)
  }

  /** One day, the lifetime of an admin token (`expiresIn: '1d'`). */
  const AdminTokenLifetimeSeconds: nat := 24 * 60 * 60

  /** The admin token: `{ isAdmin: true }`, valid for a day. */
  const AdminToken: Token := Token(Claims(None, Some(JBool(true))), Some(AdminTokenLifetimeSeconds))
}
