/** What the route handlers see of a request's session, and what they send
    back: either a body or an error status with its message. */
module Http {
  import opened Wrappers

  /** The signed-in user; a request without a session carries None. */
  datatype Session = Session(userId: string, role: string)

  predicate HasRole(session: Option<Session>, role: string) {
    session.Some? && session.value.role == role
  }

  datatype Reply<+T> = Ok(body: T) | Error(status: int, message: string)

  /** A reply together with the store the request leaves behind; the reply
      carries the columns the update selects, of type B. */
  datatype Patched<B, T> = Patched(reply: Reply<B>, store: map<string, T>)
}
