/** The guard of `Frontend/src/components/ProtectedRoute.jsx`, a function of `user` alone. */
module RouteGuard {
  import opened Wrappers
  import opened AuthContext

  const LoginPath := "/login"

  /** What the guard renders: a `<Navigate>` element or its children. */
  datatype Guarded<C> = Redirect(to: string, replace: bool) | Children(children: C)

  /** With no user, a replacing redirect to the login page; with one, the children as they are. */
  function ProtectedRoute<C>(user: Option<User>, children: C): (r: Guarded<C>)
    ensures user.None? <==> r.Redirect?
    ensures r.Redirect? ==> r.to == LoginPath && r.replace
    ensures r.Children? ==> r.children == children
  {
    if user.None? then Redirect(LoginPath, true) else Children(children)
  }

  /** Which user is signed in makes no difference to the guard. */
  lemma GuardIgnoresIdentity<C>(u: User, v: User, children: C)
    ensures ProtectedRoute(Some(u), children) == ProtectedRoute(Some(v), children)
  {
  }
}
