// The role gate placed in front of protected routes: built from a list of
// allowed roles, it answers a request with 401, with 403, or by handing the
// request on to the next handler.
module RoleAuth {
  import opened Common

  datatype User = User(role: string)

  /** The part of a request the gate reads: the authenticated user, if any. */
  datatype Request = Request(user: Option<User>)

  /** Either a response is sent (status and `msg`) and next is not called,
      or next is called and nothing is sent. */
  datatype GateResult = Respond(status: int, msg: string) | CallNext

  const NotAuthenticated := Respond(401, "Not authenticated")
  const NotAuthorized := Respond(403, "Access denied. Not authorized.")

  /** The middleware that the factory returns for `roles`, applied to `req`. */
  function Authorize(roles: seq<string>, req: Request): (r: GateResult)
    ensures r == NotAuthenticated <==> req.user.None?
    ensures r == NotAuthorized <==> req.user.Some? && req.user.value.role !in roles
    ensures r == CallNext <==> req.user.Some? && req.user.value.role in roles
  {
    if req.user.None? then NotAuthenticated
    else if req.user.value.role !in roles then NotAuthorized
    else CallNext
  }

  /** Authentication is checked first: a request without a user gets 401
      whatever the role list, even an empty one. */
  lemma AuthenticationCheckedFirst(roles: seq<string>)
    ensures Authorize(roles, Request(None)) == NotAuthenticated
  {
  }

  /** Allowing more roles never turns a pass into a rejection. */
  lemma MoreRolesNeverReject(roles: seq<string>, more: seq<string>, req: Request)
    requires forall r :: r in roles ==> r in more
    requires Authorize(roles, req) == CallNext
    ensures Authorize(more, req) == CallNext
  {
  }

  /** An empty role list lets no request through. */
  lemma NoRolesRejectsAll(req: Request)
    ensures Authorize([], req) != CallNext
  {
  }
}
