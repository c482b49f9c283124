/** The request middleware (middleware.js): decides, from the session token and the
    requested path, whether to redirect or to let the request through, and in the
    latter case records the path in the `__pathname` cookie for the header. */
module Middleware {
  import opened Common
  import opened Auth

  datatype Response =
    | Redirect(location: string)
    | Next(pathnameCookie: string)   // `NextResponse.next()` with `__pathname` set

  predicate IsAdmin(user: Option<Payload>) { user.Some? && HasRole(user.value, "admin") }
  predicate IsUser(user: Option<Payload>) { user.Some? && HasRole(user.value, "user") }

  /** The access policy the guards implement: signed-in visitors do not see the
      login and sign-up pages, the admin area is for admins and the personal area
      for users. Every test is a prefix test on the path. */
  predicate MayVisit(user: Option<Payload>, pathname: string) {
    && (user.Some? ==> !("/connexion" <= pathname) && !("/inscription" <= pathname))
    && ("/admin" <= pathname ==> IsAdmin(user))
    && ("/mon-espace" <= pathname ==> IsUser(user))
  }

  /** The chain of early returns after the user has been determined. */
  function Decide(user: Option<Payload>, pathname: string): (r: Response)
    ensures r.Next? <==> MayVisit(user, pathname)
    ensures r.Next? ==> r.pathnameCookie == pathname
    ensures r == Redirect("/connexion") <==>
              user.None? && ("/admin" <= pathname || "/mon-espace" <= pathname)
    ensures r == Redirect("/") <==>
              user.Some? && (|| "/connexion" <= pathname || "/inscription" <= pathname
                             || ("/admin" <= pathname && !IsAdmin(user))
                             || ("/mon-espace" <= pathname && !IsUser(user)))
    ensures r.Redirect? ==> r.location == "/" || r.location == "/connexion"
  {
    if user.Some? && "/connexion" <= pathname then Redirect("/")
    else if user.Some? && "/inscription" <= pathname then Redirect("/")
    else if "/admin" <= pathname && user.None? then Redirect("/connexion")
    else if "/admin" <= pathname && !IsAdmin(user) then Redirect("/")
    else if "/mon-espace" <= pathname && user.None? then Redirect("/connexion")
    else if "/mon-espace" <= pathname && !IsUser(user) then Redirect("/")
    else Next(pathname)
  }

  /** `middleware(req)`: the token cookie is verified (a missing token or a failed
      verification means no user) and the decision is taken on that user. */
  function Handle(token: Option<string>, verify: string -> Option<Payload>, pathname: string): (r: Response)
    ensures (token.None? || token.value == "") ==> r == Decide(None, pathname)
    ensures (token.Some? && token.value != "" && verify(token.value).None?) ==> r == Decide(None, pathname)
    ensures r.Next? ==> r.pathnameCookie == pathname
  {
    Decide(CurrentUser(token, verify), pathname)
  }

  /** The guards are prefix tests: a path that merely starts with `/admin` or
      `/mon-espace` (such as `/administration`) is guarded like the area itself. */
  lemma GuardsArePrefixTests(user: Option<Payload>, rest: string)
    ensures Decide(user, "/admin" + rest).Redirect? == Decide(user, "/admin").Redirect?
    ensures Decide(user, "/admin" + rest).Redirect? ==>
              Decide(user, "/admin" + rest) == Decide(user, "/admin")
    ensures Decide(user, "/mon-espace" + rest).Redirect? == Decide(user, "/mon-espace").Redirect?
    ensures Decide(user, "/mon-espace" + rest).Redirect? ==>
              Decide(user, "/mon-espace" + rest) == Decide(user, "/mon-espace")
  {
    assert "/admin" <= "/admin" + rest;
    assert "/mon-espace" <= "/mon-espace" + rest;
    assert ("/admin" + rest)[1] == 'a';
    assert ("/mon-espace" + rest)[1] == 'm';
  }

  /** An admin is turned away from the personal area, and a user from the admin area. */
  lemma RolesAreExclusive(p: Payload, rest: string)
    ensures HasRole(p, "admin") ==> Decide(Some(p), "/mon-espace" + rest) == Redirect("/")
    ensures HasRole(p, "user") ==> Decide(Some(p), "/admin" + rest) == Redirect("/")
  {
    assert "/admin" <= "/admin" + rest;
    assert "/mon-espace" <= "/mon-espace" + rest;
    assert ("/admin" + rest)[1] == 'a';
    assert ("/mon-espace" + rest)[1] == 'm';
  }
}
