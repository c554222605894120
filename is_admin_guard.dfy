/**
 * The admin guard of the user-management endpoints: a request without a
 * user is Unauthorized, a user without ADMIN is Forbidden, and an ADMIN
 * passes.
 */
module IsAdminGuard {
  import opened Base
  import opened Entities
  import CaslConfig
  import BooksPermissions

  /** `canActivate`, for the user the session put on the request (if any). */
  function CanActivate(user: Option<User>): (r: Result<bool>)
  {
    if user.None? then Err(Unauthorized)
    else if ADMIN !in user.value.permissions then Err(Forbidden)
    else Ok(true)
  }

  /** The guard's three outcomes, and it never answers `false`: a caller it
      does not let through always gets one of the two errors. */
  lemma Outcomes(user: Option<User>)
    ensures CanActivate(user) != Ok(false)
    ensures CanActivate(user) == Err(Unauthorized) <==> user.None?
    ensures CanActivate(user) == Err(Forbidden) <==> user.Some? && ADMIN !in user.value.permissions
    ensures CanActivate(user) == Ok(true) <==> user.Some? && ADMIN in user.value.permissions
  {
  }

  /** The callers it admits are exactly the authenticated superusers of the
      access guard, who pass every ability on every subject. */
  lemma AgreesWithSuperuser(user: Option<User>, a: BooksPermissions.Action, subject: Option<Result<Book>>)
    ensures CanActivate(user).Ok? <==> user.Some? && CaslConfig.SuperuserRole in CaslConfig.ActorOf(user).roles
    ensures CanActivate(user).Ok? ==> CaslConfig.AccessGuard(CaslConfig.ActorOf(user), a, subject) == Pass
  {
    if CanActivate(user).Ok? {
      CaslConfig.SuperuserPasses(CaslConfig.ActorOf(user), a, subject);
    }
  }
}
