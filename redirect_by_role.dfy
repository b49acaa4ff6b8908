/**
 * The landing redirect: once the signed-in user's role is known, users with
 * an allowed role go to the dashboard and everyone else to the unauthorized
 * page; while the role is still unknown nothing happens.
 */
module RoleRedirect {
  import opened Wrappers

  datatype Navigation = NoAction | Dashboard | Unauthorized

  /** The roles that may see the dashboard. */
  const AllowedRoles: set<string> := {"owner", "coordinator", "engineer"}

  /** The navigation chosen for `role`; `None` stands for a role that is still `null`. */
  function Redirect(role: Option<string>): (nav: Navigation)
    ensures nav == Dashboard <==> role.Some? && role.value in AllowedRoles
    ensures nav == Unauthorized <==> role.Some? && role.value !in AllowedRoles
    ensures nav == NoAction <==> role == None
  {
    if role == Some("owner") || role == Some("coordinator") || role == Some("engineer") then
      Dashboard
    else if role != None then
      Unauthorized
    else
      NoAction
  }

  /** The route each navigation leads to, if any. */
  function Route(nav: Navigation): (path: Option<string>)
    ensures path.Some? <==> nav != NoAction
  {
    match nav
    case NoAction => None
    case Dashboard => Some("/dashboard")
    case Unauthorized => Some("/unauthorized")
  }

  /** Role names are compared exactly: a differently cased allowed role is unauthorized. */
  lemma RoleCaseMatters()
    ensures Redirect(Some("Owner")) == Unauthorized
    ensures Redirect(Some("")) == Unauthorized
  {
  }
}
