/**
 * The route guard `authGuard` of src/hooks.server.ts and the composed
 * request handler `sequence(supabase, authGuard)`.
 *
 * Two rules, tried in order: a request without a session whose path starts
 * with `/private` is redirected (303 See Other) to `/auth`; a request with a
 * session whose path is exactly `/auth` is redirected to `/private`. Every
 * other request continues to the page handlers.
 */
module Guard {
  import opened Wrappers
  import opened Js
  import opened Text
  import opened Session

  /** What the guard does with a request; SvelteKit's throwing `redirect()`
      is returned as a value. */
  datatype Decision = Continue | Redirect(status: int, location: string)

  const SeeOther := 303
  const ProtectedPrefix := "/private"
  const LoginPath := "/auth"
  const LandingPath := "/private"

  /** The guard's policy on the session stored in `locals` and the path. */
  function Guard(session: Option<Session>, path: string): (d: Decision)
    ensures d.Redirect? ==> d.status == SeeOther && (d.location == LoginPath || d.location == LandingPath)
    ensures d.Redirect? && d.location == LoginPath ==> session.None?
    ensures session.Some? && path != LoginPath ==> d == Continue
    ensures session.None? && !StartsWith(path, ProtectedPrefix) ==> d == Continue
  {
    if session.None? && StartsWith(path, ProtectedPrefix) then Redirect(SeeOther, LoginPath)
    else if session.Some? && path == LoginPath then Redirect(SeeOther, LandingPath)
    else Continue
  }

  /** The request event: its URL path and the `locals` the guard writes. */
  class RequestEvent {
    const pathname: string
    var session: Option<Session>
    var user: Option<JsValue>

    constructor (pathname: string)
      ensures this.pathname == pathname && session == None && user == None
    {
      this.pathname := pathname;
      session, user := None, None;
    }

    /** `authGuard` after `safeGetSession` resolved: records session and
        user in `locals`, then decides on the recorded session. */
    method AuthGuard(auth: AuthResult) returns (d: Decision)
      modifies this
      ensures session == auth.session && user == auth.user
      ensures d == Guard(auth.session, pathname)
    {
      session := auth.session;
      user := auth.user;
      if session.None? && StartsWith(pathname, ProtectedPrefix) {
        return Redirect(SeeOther, LoginPath);
      }
      if session.Some? && pathname == LoginPath {
        return Redirect(SeeOther, LandingPath);
      }
      return Continue;
    }
  }

  /** The outcome of the composed handler: a framework 500 for an uncaught
      exception, a redirect, or the page handlers with the recorded locals. */
  datatype Response = Fatal | Redirected(status: int, location: string) | Downstream(auth: AuthResult)

  /** `sequence(supabase, authGuard)` for one request. */
  function Handle(req: Request, backend: Option<Session>, env: Env, path: string): (resp: Response)
    ensures resp.Fatal? <==> ResolveSession(req, backend, env).Threw?
    ensures resp.Downstream? ==> resp.auth == ResolveSession(req, backend, env).auth
    ensures ResolveSession(req, backend, env).Resolved? ==>
              var d := Guard(ResolveSession(req, backend, env).auth.session, path);
              (d == Continue ==> resp == Downstream(ResolveSession(req, backend, env).auth)) &&
              (d.Redirect? ==> resp == Redirected(d.status, d.location))
  {
    match ResolveSession(req, backend, env)
    case Threw => Fatal
    case Resolved(auth) =>
      match Guard(auth.session, path)
      case Redirect(status, location) => Redirected(status, location)
      case Continue => Downstream(auth)
  }

  /** Rule 1, both directions: the redirect to the login path happens exactly
      for a missing session on a path with the protected prefix. */
  lemma RedirectToLoginIff(session: Option<Session>, path: string)
    ensures Guard(session, path) == Redirect(SeeOther, LoginPath) <==> session.None? && StartsWith(path, ProtectedPrefix)
  {
  }

  /** Rule 2, both directions: the redirect to the landing path happens
      exactly for a session on the login path. */
  lemma RedirectToLandingIff(session: Option<Session>, path: string)
    ensures Guard(session, path) == Redirect(SeeOther, LandingPath) <==> session.Some? && path == LoginPath
  {
  }

  /** Everything else continues; the guard only ever redirects with 303. */
  lemma GuardContinuesOtherwise(session: Option<Session>, path: string)
    ensures Guard(session, path) == Continue <==>
            !(session.None? && StartsWith(path, ProtectedPrefix)) && !(session.Some? && path == LoginPath)
    ensures Guard(session, path).Redirect? ==> Guard(session, path).status == SeeOther
  {
  }

  /** The prefix test is textual: `/privateer` is protected too. */
  lemma PrefixTestIsTextual()
    ensures Guard(None, "/privateer") == Redirect(SeeOther, LoginPath)
    ensures Guard(None, "/private/dashboard") == Redirect(SeeOther, LoginPath)
    ensures Guard(None, "/priv") == Continue
  {
  }

  /** No redirect loop: in the same session state, the redirect target
      itself continues. */
  lemma RedirectTargetContinues(session: Option<Session>, path: string)
    ensures Guard(session, path).Redirect? ==> Guard(session, Guard(session, path).location) == Continue
  {
  }

  /** Page handlers under `/private` only ever see a verified session. */
  lemma ProtectedPagesSeeSession(req: Request, backend: Option<Session>, env: Env, path: string)
    requires StartsWith(path, ProtectedPrefix)
    ensures Handle(req, backend, env, path).Downstream? ==>
            Handle(req, backend, env, path).auth.session == backend && backend.Some? &&
            Handle(req, backend, env, path).auth.user.Some?
  {
  }

  /** Without a backend session a protected path is redirected to the login
      path and no page handler runs (unless the auth cookie is malformed). */
  lemma UnauthenticatedProtectedRedirects(req: Request, env: Env, path: string)
    requires StartsWith(path, ProtectedPrefix)
    requires CookieToken(req, env).Parsed?
    ensures Handle(req, None, env, path) == Redirected(SeeOther, LoginPath)
  {
  }

  /** Whenever resolution ends without a session (no backend session, a
      falsy token or a failed verification), a protected path is redirected
      to the login path. */
  lemma UnresolvedSessionProtectedRedirects(req: Request, backend: Option<Session>, env: Env, path: string)
    requires StartsWith(path, ProtectedPrefix)
    requires ResolveSession(req, backend, env) == Resolved(Unauthenticated)
    ensures Handle(req, backend, env, path) == Redirected(SeeOther, LoginPath)
  {
  }

  /** Paths outside the protected prefix other than the login path are never
      redirected: their page handlers run with the resolved `{session, user}`. */
  lemma UnguardedPathsContinue(req: Request, backend: Option<Session>, env: Env, path: string)
    requires !StartsWith(path, ProtectedPrefix) && path != LoginPath
    requires ResolveSession(req, backend, env).Resolved?
    ensures Handle(req, backend, env, path) == Downstream(ResolveSession(req, backend, env).auth)
  {
  }

  /** An authenticated request for the login path is sent to the landing path. */
  lemma AuthenticatedLoginRedirects(req: Request, backend: Option<Session>, env: Env)
    requires ResolveSession(req, backend, env).Resolved?
    requires ResolveSession(req, backend, env).auth.session.Some?
    ensures Handle(req, backend, env, LoginPath) == Redirected(SeeOther, LandingPath)
  {
  }
}
