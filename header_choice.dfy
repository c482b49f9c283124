/** The server-side header wrapper (components/ServerHeaderWrapper.js): derives the
    visitor's role from the session token and picks the admin header or the public
    header, reading the path from the `__pathname` cookie the middleware sets. */
module HeaderChoice {
  import opened Common
  import opened Auth
  import Middleware

  datatype Header = AdminHeader | PublicHeader(role: string)

  /** `user?.role || 'guest'`: no user, no role or an empty role all give 'guest'. */
  function RoleOf(user: Option<Payload>): (role: string)
    ensures role != ""
    ensures user.None? ==> role == "guest"
    ensures user.Some? && user.value.role.Some? && user.value.role.value != "" ==> role == user.value.role.value
    ensures user.Some? && (user.value.role.None? || user.value.role.value == "") ==> role == "guest"
  {
    if user.Some? && user.value.role.Some? && user.value.role.value != "" then user.value.role.value
    else "guest"
  }

  /** `cookieStore.get('__pathname')?.value || ''`. */
  function PathnameOf(cookie: Option<string>): string {
    match cookie
    case None => ""
    case Some(p) => p
  }

  /** The admin header is shown exactly when the role is 'admin' and the path
      starts with `/admin`; in every other case the public header gets the role. */
  function Choose(token: Option<string>, verify: string -> Option<Payload>, pathnameCookie: Option<string>): (h: Header)
    ensures var role := RoleOf(CurrentUser(token, verify));
      && (h == AdminHeader <==> role == "admin" && "/admin" <= PathnameOf(pathnameCookie))
      && (h.PublicHeader? ==> h.role == role)
    ensures pathnameCookie.None? ==> h == PublicHeader(RoleOf(CurrentUser(token, verify)))
    ensures (token.None? || token.value == "") ==> h == PublicHeader("guest")
  {
    var role := RoleOf(CurrentUser(token, verify));
    var pathname := PathnameOf(pathnameCookie);
    if role == "admin" && "/admin" <= pathname then AdminHeader else PublicHeader(role)
  }

  /** With the cookie the middleware set on a request it let through, an admin-area
      page always gets the admin header: the middleware only lets admins in. */
  lemma AdminAreaGetsAdminHeader(token: Option<string>, verify: string -> Option<Payload>, pathname: string)
    requires Middleware.Handle(token, verify, pathname).Next?
    requires "/admin" <= pathname
    ensures Choose(token, verify, Some(Middleware.Handle(token, verify, pathname).pathnameCookie)) == AdminHeader
  {
  }
}
