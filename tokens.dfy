/** JSON Web Tokens as the Express back end uses them, kept symbolic: a token
    is the payload it was signed with and the validity window it was given;
    `jwt.verify` is a parameter of whatever uses it and answers with the
    payload, or with one of the two failures the code tells apart. */
module Tokens {
  import opened Seqs
  import opened Schemas

  /** The claims the code signs: `{ id }` for a session, `{ userId }` for a
      password reset. A claim that was not signed is absent. */
  datatype Payload = Payload(id: Option<Id>, userId: Option<Id>)

  datatype Token = Signed(payload: Payload, expiresIn: string)

  /** The outcome of `jwt.verify`: the payload, or a JsonWebTokenError
      (bad signature, malformed token) or a TokenExpiredError. */
  datatype Verified = Decoded(payload: Payload) | Invalid | Expired

  /** `jwt.sign({ id }, secret, { expiresIn: '7d' })`. */
  function SessionToken(id: Id): Token
  {
    Signed(Payload(Some(id), None), "7d")
  }

  /** `jwt.sign({ userId }, secret, { expiresIn: '1h' })`. */
  function ResetToken(id: Id): Token
  {
    Signed(Payload(None, Some(id)), "1h")
  }
}
