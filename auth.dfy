/** The signed session token as the handlers see it. Signing and verifying the
    token are not modelled: verification is a parameter `verify` that yields the
    payload, or None where the library returns null or throws. */
module Auth {
  import opened Common

  /** The claims `signToken` puts in the token: the user's id and role. */
  datatype Payload = Payload(id: string, role: Option<string>)

  /** `let user = null; try { if (token) user = await verifyToken(token) } catch { user = null }`:
      a missing or empty cookie gives no user, and so does a failed verification. */
  function CurrentUser(token: Option<string>, verify: string -> Option<Payload>): (user: Option<Payload>)
    ensures (token.None? || token.value == "") ==> user.None?
    ensures token.Some? && token.value != "" ==> user == verify(token.value)
  {
    match token
    case None => None
    case Some(t) => if t == "" then None else verify(t)
  }

  /** `payload.role === r`, false when the payload has no role. */
  predicate HasRole(p: Payload, r: string) {
    p.role == Some(r)
  }
}
