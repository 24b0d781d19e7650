/**
 * The two cryptographic libraries the backend calls, as parameters.
 *
 * bcrypt is a pair of functions: `hash(plain, rounds)` and
 * `compare(plain, hash)`. jsonwebtoken is a signing function and a
 * decoding function, both keyed by the server secret (which they close
 * over); the decoder checks the signature only, and the expiry check that
 * `jwt.verify` makes against the clock is written out in `Verify`.
 */
module Crypto {
  import opened Wrappers
  import opened Schema

  /** `bcrypt.hash(plain, rounds)`. */
  type Hasher = (string, nat) -> string

  /** `bcrypt.compare(plain, hash)`. */
  type Comparer = (string, string) -> bool

  /** The work factor registration hashes with. */
  const SaltRounds: nat := 10

  /** The claims a password-login token carries. */
  datatype Claims = Claims(id: UserId, role: string, branch: string, email: string)

  /** A decoded token: its claims with the issue time `iat` and expiry `exp`, in seconds. */
  datatype Decoded = Decoded(claims: Claims, iat: int, exp: int)

  /** `jwt.sign(claims, secret, { expiresIn })` called at time `iat`, with `exp` the resulting expiry. */
  type Signer = (Claims, int, int) -> string

  /** The signature check of `jwt.verify`: the payload of a token signed with the server secret, or None. */
  type Decoder = string -> Option<Decoded>

  /** `expiresIn: "1d"`, in seconds. */
  const OneDay: int := 86400

  /** `jwt.verify(token, secret)` at time `now`: a genuine token is accepted while `now` is before its expiry. */
  function Verify(decode: Decoder, token: string, now: int): (r: Option<Decoded>)
    ensures r.Some? <==> decode(token).Some? && now < decode(token).value.exp
    ensures r.Some? ==> r == decode(token)
  {
    match decode(token)
    case None => None
    case Some(d) => if now < d.exp then Some(d) else None
  }

  /** What the model assumes of a signer and a decoder sharing a secret at one token: the decoder gives back exactly what was signed, and the token has no space in it. */
  ghost predicate Recovers(sign: Signer, decode: Decoder, c: Claims, iat: int, exp: int) {
    && decode(sign(c, iat, exp)) == Some(Decoded(c, iat, exp))
    && ' ' !in sign(c, iat, exp)
  }

  /** A token that decodes is accepted up to, and not at or after, its expiry. */
  lemma ExpiryBoundary(sign: Signer, decode: Decoder, c: Claims, iat: int, exp: int, now: int)
    requires Recovers(sign, decode, c, iat, exp)
    ensures Verify(decode, sign(c, iat, exp), now) == if now < exp then Some(Decoded(c, iat, exp)) else None
  {
  }
}
