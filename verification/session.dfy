/**
 * The per-request session resolver `safeGetSession` of src/hooks.server.ts.
 *
 * It picks one bearer token from three candidates, in this order: the second
 * space-separated field of the `Authentication` header, the `access_token`
 * of the base64-encoded JSON auth cookie, and the backend session's own
 * access token. The first candidate that is neither `null` nor `undefined`
 * wins (JavaScript's `??`). The request is authenticated only when the
 * backend reports a session, the chosen token is truthy and the token passes
 * JSON Web Token verification (RFC 7519) against the server secret.
 *
 * The foreign pieces are parameters: the lenient base64 (RFC 4648 sections
 * 4 and 5) plus UTF-8 decoding of `Buffer`, `JSON.parse`, `jwt.verify`, and the session
 * the backend client's `getSession()` returned.
 */
module Session {
  import opened Wrappers
  import opened Js
  import opened Text

  /** The backend's session record; the hooks read only its access token. */
  datatype Session = Session(accessToken: string)

  /** What the resolver reads from the request: the value `headers.get`
      returns for `Authentication` (None for `null`) and the request cookies. */
  datatype Request = Request(authentication: Option<string>, cookies: map<string, string>)

  /** `JSON.parse`: a value, or the `SyntaxError` it throws. */
  datatype ParseResult = Parsed(value: JsValue) | SyntaxError

  /** `jwt.verify`: the decoded payload, or the error it throws. */
  datatype Verdict = Verified(claims: JsValue) | Rejected

  /** Configuration and the foreign library calls the resolver depends on. */
  datatype Env = Env(
    project: string,                        // SUPABASE_PROJECT
    secret: string,                         // SUPABASE_JWT_SECRET
    base64ToUtf8: string -> string,         // Buffer.from(s, 'base64').toString('utf-8')
    jsonParse: string -> ParseResult,       // JSON.parse
    jwtVerify: (JsValue, string) -> Verdict // jwt.verify(token, secret)
  )

  /** `{session, user}`; None stands for `null`. */
  datatype AuthResult = AuthResult(session: Option<Session>, user: Option<JsValue>)

  /** The resolver either resolves or rejects with the uncaught `SyntaxError`
      of `JSON.parse` on a malformed auth cookie. */
  datatype Outcome = Resolved(auth: AuthResult) | Threw

  const Unauthenticated := AuthResult(None, None)
  const HeaderName := "Authentication"
  const Base64Marker := "base64-"
  const EmptyJson := "{}"
  const AccessTokenKey := "access_token"

  /** The auth cookie's name, `sb-<project>-auth-token`. */
  function AuthCookieName(project: string): string {
    "sb-" + project + "-auth-token"
  }

  /** `headers.get('Authentication')?.split(' ')[1]`. */
  function HeaderToken(header: Option<string>): (t: JsValue)
    ensures t == Undefined || t.Str?
    ensures t.Str? ==> header.Some? && ' ' in header.value && ' ' !in t.s
  {
    match header
    case None => Undefined
    case Some(v) =>
      var fields := Split(v, ' ');
      SplitFieldsExcludeSeparator(v, ' ');
      if |fields| >= 2 then Str(fields[1]) else Undefined
  }

  /** `cookies.get(name)?.replace(/^base64-/, '') || ''`. */
  function CookieText(cookie: Option<string>): (text: string)
    ensures cookie.None? ==> text == ""
    ensures cookie.Some? && StartsWith(cookie.value, Base64Marker) ==> Base64Marker + text == cookie.value
    ensures cookie.Some? && !StartsWith(cookie.value, Base64Marker) ==> text == cookie.value
  {
    match cookie
    case None => ""
    case Some(v) => StripLeading(v, Base64Marker)
  }

  /** The request's auth cookie, if present. */
  function AuthCookie(req: Request, env: Env): (c: Option<string>)
    ensures c.Some? <==> AuthCookieName(env.project) in req.cookies
    ensures c.Some? ==> c.value == req.cookies[AuthCookieName(env.project)]
  {
    var name := AuthCookieName(env.project);
    if name in req.cookies then Some(req.cookies[name]) else None
  }

  /** `Buffer.from(text, 'base64').toString('utf-8') || '{}'`. */
  function JsonText(text: string, env: Env): (json: string)
    ensures json != ""
    ensures env.base64ToUtf8(text) == "" ==> json == EmptyJson
    ensures env.base64ToUtf8(text) != "" ==> json == env.base64ToUtf8(text)
  {
    var decoded := env.base64ToUtf8(text);
    if decoded == "" then EmptyJson else decoded
  }

  /** `JSON.parse(json)?.access_token`, or the thrown `SyntaxError`. */
  function CookieToken(req: Request, env: Env): (r: ParseResult)
    ensures r.SyntaxError? <==> env.jsonParse(JsonText(CookieText(AuthCookie(req, env)), env)).SyntaxError?
    ensures r.Parsed? && !env.jsonParse(JsonText(CookieText(AuthCookie(req, env)), env)).value.Obj? ==> r.value == Undefined
  {
    match env.jsonParse(JsonText(CookieText(AuthCookie(req, env)), env))
    case SyntaxError => SyntaxError
    case Parsed(v) => Parsed(OptionalProperty(v, AccessTokenKey))
  }

  /** `session?.access_token`. */
  function SessionToken(session: Option<Session>): (t: JsValue)
    ensures t == Undefined <==> session.None?
    ensures session.Some? ==> t == Str(session.value.accessToken)
  {
    match session
    case None => Undefined
    case Some(s) => Str(s.accessToken)
  }

  /** The token precedence: the header token if defined, otherwise the cookie
      token if defined, otherwise the session token. */
  function ChosenToken(header: JsValue, cookie: JsValue, session: JsValue): (t: JsValue)
    ensures t == header || t == cookie || t == session
    ensures !Nullish(header) ==> t == header
    ensures Nullish(header) && !Nullish(cookie) ==> t == cookie
    ensures Nullish(header) && Nullish(cookie) ==> t == session
  {
    if !Nullish(header) then header
    else if !Nullish(cookie) then cookie
    else session
  }

  /**
   * The specification of `safeGetSession`: a malformed auth cookie rejects;
   * otherwise the request is authenticated exactly when the backend has a
   * session, the chosen token is truthy and it verifies, and then the user
   * is the verifier's payload for that token. A user is never reported
   * without a session, and the session reported is the backend's.
   */
  function ResolveSession(req: Request, backend: Option<Session>, env: Env): (r: Outcome)
    ensures r.Threw? <==> CookieToken(req, env).SyntaxError?
    ensures r.Resolved? ==> (r.auth.session.Some? <==> r.auth.user.Some?)
    ensures r.Resolved? && r.auth.session.Some? ==> r.auth.session == backend
    ensures r.Resolved? && r.auth.session.None? ==> r.auth == Unauthenticated
  {
    match CookieToken(req, env)
    case SyntaxError => Threw
    case Parsed(cookieToken) =>
      var token := ChosenToken(HeaderToken(req.authentication), cookieToken, SessionToken(backend));
      if backend.None? || !Truthy(token) then Resolved(Unauthenticated)
      else
        match env.jwtVerify(token, env.secret)
        case Rejected => Resolved(Unauthenticated)
        case Verified(claims) => Resolved(AuthResult(backend, Some(claims)))
  }

  /** The token `ResolveSession` verifies, for a request whose cookie parsed. */
  function ResolvedToken(req: Request, backend: Option<Session>, env: Env): JsValue
    requires CookieToken(req, env).Parsed?
  {
    ChosenToken(HeaderToken(req.authentication), CookieToken(req, env).value, SessionToken(backend))
  }

  /**
   * `safeGetSession` step by step: the local `user` starts as `null`, the
   * token is the left-associated chain `header ?? cookie ?? session`, and
   * each failed test returns early with the current `user`.
   */
  method SafeGetSession(req: Request, backend: Option<Session>, env: Env) returns (r: Outcome)
    ensures r == ResolveSession(req, backend, env)
  {
    var user: Option<JsValue> := None;
    var headerToken := HeaderToken(req.authentication);
    var decodedCookie := JsonText(CookieText(AuthCookie(req, env)), env);
    var parsed := env.jsonParse(decodedCookie);
    if parsed.SyntaxError? {
      return Threw;
    }
    var cookieToken := OptionalProperty(parsed.value, AccessTokenKey);
    var sessionToken := SessionToken(backend);
    var token := Coalesce(Coalesce(headerToken, cookieToken), sessionToken);
    assert token == ChosenToken(headerToken, cookieToken, sessionToken);
    if backend.None? || !Truthy(token) {
      return Resolved(AuthResult(None, user));
    }
    var verdict := env.jwtVerify(token, env.secret);
    if verdict.Rejected? {
      return Resolved(AuthResult(None, user));
    }
    user := Some(verdict.claims);
    return Resolved(AuthResult(backend, user));
  }

  // ----- The header token -----

  /** A header gives no token exactly when it is missing or has no space. */
  lemma HeaderTokenUndefinedIff(header: Option<string>)
    ensures HeaderToken(header) == Undefined <==> header.None? || ' ' !in header.value
    ensures !HeaderToken(header).Null?
  {
  }

  /** The header token is the second space-separated field, whatever the first word is. */
  lemma HeaderTokenIsSecondField(word: string, t: string, tail: string)
    requires ' ' !in word && ' ' !in t
    requires tail == "" || tail[0] == ' '
    ensures HeaderToken(Some(word + " " + t + tail)) == Str(t)
  {
    assert word + " " + t + tail == word + [' '] + (t + tail);
    SplitAtFirstSeparator(word, t + tail, ' ');
    SplitFirstField(t, tail, ' ');
  }

  /** A doubled space yields the empty token, which is defined but falsy. */
  lemma DoubleSpaceGivesEmptyToken(word: string, rest: string)
    requires ' ' !in word
    ensures HeaderToken(Some(word + "  " + rest)) == Str("")
    ensures !Truthy(HeaderToken(Some(word + "  " + rest))) && !Nullish(HeaderToken(Some(word + "  " + rest)))
  {
    assert word + "  " + rest == word + " " + "" + (" " + rest);
    HeaderTokenIsSecondField(word, "", " " + rest);
  }

  // ----- The cookie token -----

  /** Only a leading `base64-` marker is stripped, and only once. */
  lemma CookieTextStripsMarkerOnce(v: string)
    ensures StartsWith(v, Base64Marker) ==> Base64Marker + CookieText(Some(v)) == v
    ensures !StartsWith(v, Base64Marker) ==> CookieText(Some(v)) == v
    ensures CookieText(Some(Base64Marker + Base64Marker + v)) == Base64Marker + v
  {
  }

  /** A cookie whose text decodes to the empty string is parsed as `{}` and
      gives no cookie token. */
  lemma EmptyCookieGivesNoToken(req: Request, env: Env)
    requires env.jsonParse(EmptyJson) == Parsed(Obj(map[]))
    requires env.base64ToUtf8(CookieText(AuthCookie(req, env))) == ""
    ensures CookieToken(req, env) == Parsed(Undefined)
  {
  }

  /** An absent cookie gives no cookie token, since `Buffer` decodes the
      empty string to the empty string. */
  lemma AbsentCookieGivesNoToken(req: Request, env: Env)
    requires env.jsonParse(EmptyJson) == Parsed(Obj(map[]))
    requires AuthCookie(req, env).None? && env.base64ToUtf8("") == ""
    ensures CookieToken(req, env) == Parsed(Undefined)
  {
  }

  /** The cookie token is the `access_token` property of the parsed cookie
      JSON, and `undefined` when that object has no such property. */
  lemma CookieTokenIsAccessTokenField(req: Request, env: Env, fields: map<string, JsValue>)
    requires env.jsonParse(JsonText(CookieText(AuthCookie(req, env)), env)) == Parsed(Obj(fields))
    ensures AccessTokenKey in fields ==> CookieToken(req, env) == Parsed(fields[AccessTokenKey])
    ensures AccessTokenKey !in fields ==> CookieToken(req, env) == Parsed(Undefined)
  {
  }

  /** `JSON.parse` of a malformed cookie throws before any token is looked
      at: the resolver rejects even with a valid header token or no session. */
  lemma MalformedCookieThrows(req: Request, backend: Option<Session>, env: Env)
    requires env.jsonParse(JsonText(CookieText(AuthCookie(req, env)), env)) == SyntaxError
    ensures ResolveSession(req, backend, env) == Threw
  {
  }

  // ----- Precedence and outcome -----

  /** Without a backend session the result is unauthenticated, whatever the
      header and cookie carry. */
  lemma NoBackendSessionIsUnauthenticated(req: Request, env: Env)
    requires CookieToken(req, env).Parsed?
    ensures ResolveSession(req, None, env) == Resolved(Unauthenticated)
  {
  }

  /** A defined header token is the one verified; cookie and session tokens are ignored. */
  lemma {:induction false} HeaderTokenTakesPrecedence(req: Request, backend: Option<Session>, env: Env, word: string, t: string, tail: string)
    requires req.authentication == Some(word + " " + t + tail)
    requires ' ' !in word && ' ' !in t && (tail == "" || tail[0] == ' ')
    requires CookieToken(req, env).Parsed?
    ensures ResolvedToken(req, backend, env) == Str(t)
  {
    HeaderTokenIsSecondField(word, t, tail);
  }

  /** Without a header token, a defined cookie token wins over the session's. */
  lemma CookieTokenBeforeSessionToken(req: Request, backend: Option<Session>, env: Env)
    requires HeaderToken(req.authentication) == Undefined
    requires CookieToken(req, env).Parsed? && !Nullish(CookieToken(req, env).value)
    ensures ResolvedToken(req, backend, env) == CookieToken(req, env).value
  {
  }

  /** Without header and cookie tokens, the session's own token is verified. */
  lemma SessionTokenIsLastResort(req: Request, backend: Option<Session>, env: Env)
    requires HeaderToken(req.authentication) == Undefined
    requires CookieToken(req, env).Parsed? && Nullish(CookieToken(req, env).value)
    ensures ResolvedToken(req, backend, env) == SessionToken(backend)
  {
  }

  /** An empty header token does not fall through to the cookie or session
      token: the request is unauthenticated. */
  lemma {:induction false} EmptyHeaderTokenBlocksFallthrough(req: Request, backend: Option<Session>, env: Env, word: string, rest: string)
    requires req.authentication == Some(word + "  " + rest) && ' ' !in word
    requires CookieToken(req, env).Parsed?
    ensures ResolveSession(req, backend, env) == Resolved(Unauthenticated)
  {
    DoubleSpaceGivesEmptyToken(word, rest);
  }

  /** The request is authenticated exactly when the backend has a session,
      the chosen token is truthy and it verifies; the user is then the
      verifier's payload for exactly that token. */
  lemma AuthenticatedIff(req: Request, backend: Option<Session>, env: Env)
    requires CookieToken(req, env).Parsed?
    ensures var r := ResolveSession(req, backend, env);
            var t := ResolvedToken(req, backend, env);
            r.Resolved? &&
            (r.auth.session.Some? <==> backend.Some? && Truthy(t) && env.jwtVerify(t, env.secret).Verified?) &&
            (r.auth.session.Some? ==> r.auth.user == Some(env.jwtVerify(t, env.secret).claims))
  {
  }

  /** With a header token present the cookie's content does not matter, as
      long as it parses. */
  lemma HeaderTokenIgnoresCookie(req1: Request, req2: Request, backend: Option<Session>, env: Env)
    requires req1.authentication == req2.authentication
    requires !Nullish(HeaderToken(req1.authentication))
    requires CookieToken(req1, env).Parsed? && CookieToken(req2, env).Parsed?
    ensures ResolveSession(req1, backend, env) == ResolveSession(req2, backend, env)
  {
  }

  // ----- Scenarios -----

  /** `Authentication: Bearer abc` with a backend session, and `abc`
      verifying to some claims, gives the session and those claims. */
  lemma BearerHeaderScenario(req: Request, s: Session, env: Env, claims: JsValue)
    requires req.authentication == Some("Bearer abc")
    requires CookieToken(req, env).Parsed?
    requires env.jwtVerify(Str("abc"), env.secret) == Verified(claims)
    ensures ResolveSession(req, Some(s), env) == Resolved(AuthResult(Some(s), Some(claims)))
  {
    var header := "Bearer" + " " + "abc" + "";
    assert header == "Bearer abc";
    HeaderTokenTakesPrecedence(req, Some(s), env, "Bearer", "abc", "");
    assert ResolvedToken(req, Some(s), env) == Str("abc");
  }

  /** No header, a `base64-` cookie whose JSON carries `xyz`, and `xyz`
      failing verification: unauthenticated. */
  lemma RejectedCookieScenario(req: Request, s: Session, env: Env, encoded: string, json: string)
    requires req.authentication == None
    requires AuthCookie(req, env) == Some(Base64Marker + encoded)
    requires env.base64ToUtf8(encoded) == json && json != ""
    requires env.jsonParse(json) == Parsed(Obj(map[AccessTokenKey := Str("xyz")]))
    requires env.jwtVerify(Str("xyz"), env.secret) == Rejected
    ensures ResolveSession(req, Some(s), env) == Resolved(Unauthenticated)
  {
  }
}
