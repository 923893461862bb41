/** Stand-ins for the libraries the handlers call and whose code is not part of this
    model: bcryptjs (salted hashing and comparing), jsonwebtoken (signing), the token
    check passport-jwt performs, and the key configuration both sides read. */
module Externals {
  import opened Common
  import opened AuthHeader

  /** The claims login signs into a token: exactly `{id, name, avatar}`. */
  datatype Payload = Payload(id: string, name: string, avatar: string)

  /** The cryptographic primitives, as uninterpreted values:
      `hash(plaintext, salt)` is `bcrypt.hash` with a salt from `bcrypt.genSalt(10)`;
      `compare(plaintext, hash)` is `bcrypt.compare`;
      `sign(payload, secret, expiresIn)` is `jwt.sign`;
      `verify(token, secret)` is the signature and expiry check of a bearer token,
      giving the payload back or nothing. */
  datatype Crypto = Crypto(
    hash: (string, string) -> string,
    compare: (string, string) -> bool,
    sign: (Payload, string, nat) -> string,
    verify: (string, string) -> Option<Payload>)

  /** The one property assumed of bcrypt: a password matches any hash made of it. */
  ghost predicate HashMatches(c: Crypto)
  {
    forall plaintext, salt :: c.compare(plaintext, c.hash(plaintext, salt))
  }

  /** The property assumed of the token primitives: checking a token with the secret it
      was signed with gives back the signed payload (within its lifetime). */
  ghost predicate TokensVerify(c: Crypto)
  {
    forall p, secret, expiresIn :: c.verify(c.sign(p, secret, expiresIn), secret) == Some(p)
  }

  /** The property assumed of signing: a signed token is a compact JWS, three base64url
      parts joined by dots, so it is one word with no white space in it. */
  ghost predicate SignsWords(c: Crypto)
  {
    forall p, secret, expiresIn :: IsWord(c.sign(p, secret, expiresIn))
  }

  /** `config/keys`: the signing secret read both by login and by the token strategy. */
  datatype Keys = Keys(secretOrKey: string)
}
