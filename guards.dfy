/** The per-request session: `req.session.user`, set at login and cleared at logout. */
module Sessions {
  import opened Common

  /** What login stores in the session. The profile update later spreads the
      submitted email into the same object, hence the optional email. */
  datatype SessionUser = SessionUser(id: int, role: string, username: string, email: Option<string>)

  class Session {
    var user: Option<SessionUser>

    constructor ()
      ensures user.None?
    {
      user := None;
    }
  }
}

/** The three guards of middleware/auth.js, as decisions on the session user. */
module AuthGuards {
  import opened Common
  import opened Sessions

  /** What a guard does with the request: hand it on, redirect, or render the
      403 access-denied page. */
  datatype GuardOutcome = Proceed | RedirectTo(path: string) | AccessDenied

  const StaffRoles: seq<string> := ["staff", "manager", "admin"]

  function RequireLogin(user: Option<SessionUser>): (g: GuardOutcome)
    ensures g == Proceed <==> user.Some?
    ensures g != Proceed ==> g == RedirectTo("/")
  {
    if user.None? then RedirectTo("/") else Proceed
  }

  function RequireAdmin(user: Option<SessionUser>): (g: GuardOutcome)
    ensures g == Proceed <==> user.Some? && user.value.role == "admin"
    ensures g != Proceed ==> g == AccessDenied
  {
    if user.None? || user.value.role != "admin" then AccessDenied else Proceed
  }

  function RequireStaff(user: Option<SessionUser>): (g: GuardOutcome)
    ensures g == Proceed <==> user.Some? && user.value.role in {"staff", "manager", "admin"}
    ensures g != Proceed ==> g == RedirectTo("/")
  {
    if user.Some? && user.value.role in StaffRoles then Proceed else RedirectTo("/")
  }

  /** Two guards in a route's middleware list: the second runs only when the
      first hands the request on. */
  function Then(first: GuardOutcome, second: GuardOutcome): GuardOutcome {
    if first == Proceed then second else first
  }

  /** Passing requireAdmin implies passing requireStaff, which implies passing
      requireLogin; a logged-in user with any other role passes requireLogin only. */
  lemma GuardChain(user: Option<SessionUser>)
    ensures RequireAdmin(user) == Proceed ==> RequireStaff(user) == Proceed
    ensures RequireStaff(user) == Proceed ==> RequireLogin(user) == Proceed
    ensures user.Some? && user.value.role !in StaffRoles ==>
              RequireLogin(user) == Proceed && RequireStaff(user) != Proceed
              && RequireAdmin(user) != Proceed
  {
  }

  /** The admin routes of routes/users.js and routes/complaints.js list
      requireLogin before requireAdmin, so there an anonymous request is
      redirected to "/" and only a logged-in non-admin sees the 403. The
      complaint detail route of routes/admin.js lists requireAdmin alone, so
      there an anonymous request gets the 403 as well (see RequireAdmin). */
  lemma AdminRouteGuards(user: Option<SessionUser>)
    ensures Then(RequireLogin(user), RequireAdmin(user)) == Proceed
        <==> user.Some? && user.value.role == "admin"
    ensures user.None? ==> Then(RequireLogin(user), RequireAdmin(user)) == RedirectTo("/")
    ensures user.Some? && user.value.role != "admin" ==>
              Then(RequireLogin(user), RequireAdmin(user)) == AccessDenied
  {
  }

  /** The staff routes list requireLogin before requireStaff; the pair behaves
      as requireStaff alone. */
  lemma StaffRouteGuards(user: Option<SessionUser>)
    ensures Then(RequireLogin(user), RequireStaff(user)) == RequireStaff(user)
  {
  }
}
