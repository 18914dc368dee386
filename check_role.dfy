/** The two Express guards of middleware/checkRole.js, as decisions over the
    request's session: let the request through, or answer with an HTTP status. */
module CheckRole {
  import opened Wrappers

  /** The user record the login stores in the session; `rol` may be missing. */
  datatype User = User(username: string, rol: Option<string>)

  /** `req.session`, whose `user` is set once someone has logged in. */
  datatype Session = Session(user: Option<User>)

  /** What a guard does with the request: call `next()`, or respond with a status. */
  datatype Verdict = Next | Respond(status: int)

  const AdminRole: string := "Administrador"

  predicate HasUser(session: Option<Session>) {
    session.Some? && session.value.user.Some?
  }

  /** `isAdmin`: 401 without a logged-in user, 403 for a user whose role is not
      exactly `Administrador`, `next()` otherwise. */
  function IsAdmin(session: Option<Session>): (v: Verdict)
    ensures v == Respond(401) <==> !HasUser(session)
    ensures v == Respond(403) <==> HasUser(session) && session.value.user.value.rol != Some(AdminRole)
    ensures v == Next <==> HasUser(session) && session.value.user.value.rol == Some(AdminRole)
  {
    if session.None? || session.value.user.None? then Respond(401)
    else if session.value.user.value.rol != Some(AdminRole) then Respond(403)
    else Next
  }

  /** `isAuthenticated`: 401 without a logged-in user, `next()` for any user
      whatever the role. */
  function IsAuthenticated(session: Option<Session>): (v: Verdict)
    ensures v == Respond(401) <==> !HasUser(session)
    ensures v == Next <==> HasUser(session)
  {
    if session.None? || session.value.user.None? then Respond(401) else Next
  }

  /** Every request `isAdmin` lets through is also let through by
      `isAuthenticated`, and both refuse an anonymous request the same way. */
  lemma {:induction false} AdminIsAuthenticated(session: Option<Session>)
    ensures IsAdmin(session) == Next ==> IsAuthenticated(session) == Next
    ensures IsAuthenticated(session) == Respond(401) <==> IsAdmin(session) == Respond(401)
    ensures IsAdmin(session).Respond? ==> IsAdmin(session).status in {401, 403}
  {
  }
}
