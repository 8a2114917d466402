# Request authentication hooks, modelled in Dafny

This project models the server hooks of a SvelteKit application that uses a
Supabase backend (`src/hooks.server.ts`). For every request the hooks:

- resolve the session (`safeGetSession`). One bearer token is picked from three
  candidates, in this order, using the first that is neither `null` nor `undefined`:
  1. the second space-separated field of the non-standard `Authentication` header;
  2. the `access_token` of the auth cookie `sb-<project>-auth-token`, whose value
     may carry a `base64-` marker and holds base64-encoded JSON;
  3. the backend session's own access token.

  The request is authenticated only when the backend reports a session, the
  chosen token is truthy and the token passes JSON Web Token verification
  (RFC 7519) against the server secret.
- guard routes (`authGuard`). A request without a session for a path under
  `/private` is redirected with 303 to `/auth`. A request with a session for
  exactly `/auth` is redirected to `/private`.
- allow two backend response headers through SvelteKit's header filter.
- write back every cookie the auth library sets, with `path` forced to `/`.

Modules:
- `Js` (js.dfy): JavaScript values, truthiness, `??` and `?.`.
- `Text` (text.dfy): `split`, `startsWith` and a leading-prefix `replace`.
- `Session` (session.dfy): the specification `ResolveSession`, the
  step-by-step method `SafeGetSession` proved equal to it, and the precedence
  and outcome lemmas.
- `Guard` (guard.dfy): the policy `Guard` and the `RequestEvent` class whose
  `AuthGuard` method records `locals.session`/`locals.user` and then decides.
  It also holds the composed handler `Handle`.
- `ResponseHeaders` (headers.dfy): the allow-list.
- `Cookies` (cookies.dfy): the `CookieJar` class and its `SetAll` loop, proved
  against the fold `AfterSetAll`.

The foreign calls are fields of the `Session.Env` datatype:
- `Buffer.from(s, 'base64').toString('utf-8')`, which is lenient base64
  (RFC 4648 sections 4 and 5) followed by UTF-8 decoding;
- `JSON.parse`;
- `jwt.verify`.

Lemmas that need a fact about them take it as a `requires`, for example that
`JSON.parse('{}')` is the empty object. The session returned by the backend
client's `getSession()` is a parameter.

Two behaviours of the code are easy to miss:
- A malformed auth cookie is not ignored. `JSON.parse` on the decoded cookie
  throws, and nothing catches it (src/hooks.server.ts:66). So the resolver
  rejects (`Outcome.Threw`), and the composed handler ends in a framework
  error (`Response.Fatal`). `Session.MalformedCookieThrows` shows this happens
  even with a valid header token, because the parse runs before the session
  and token tests.
- The token is the first candidate that is not `null`/`undefined` (`??`), not
  the first non-empty one. So a defined but empty header token
  (`Authentication: Bearer  abc`, with two spaces) is chosen. The request then
  is unauthenticated, even when the cookie or the session holds a valid token
  (`Session.EmptyHeaderTokenBlocksFallthrough`). The `Headers` class trims
  header values, so `"Bearer "` with only a trailing space arrives as
  `"Bearer"` and gives no header token. The empty token needs an inner double
  space.

## Model

| member | source | states |
|---|---|---|
| Js.OptionalProperty | src/hooks.server.ts:66 | `v?.access_token` is the property's value for an object that has it, and `undefined` for any other object or non-object |
| Js.Truthy | src/hooks.server.ts:74 | `!token`: falsy exactly for `undefined`, `null`, `false`, `0` and `""`, so every truthy value is defined (`??` would not skip it) |
| Js.Coalesce | src/hooks.server.ts:73 | `a ?? b` is `a` unless `a` is `null`/`undefined`, and `b` otherwise |
| Text.Split | src/hooks.server.ts:59 | `split(' ')` yields at least one field, and exactly one precisely when the string has no space |
| Text.JoinSplit | src/hooks.server.ts:59 | joining the fields of `split(sep)` with `sep` gives back the header value (no character lost or added) |
| Text.SplitFieldsExcludeSeparator | src/hooks.server.ts:59 | no field of the split contains a space |
| Text.SplitAtFirstSeparator | src/hooks.server.ts:59 | the first field runs up to the first space, and the remaining fields are the split of what follows it |
| Text.StripLeading | src/hooks.server.ts:63 | `replace(/^base64-/, '')` removes the marker only when the value starts with it, and otherwise returns the value unchanged |
| Session.JsonText | src/hooks.server.ts:61-65 | the text handed to `JSON.parse` is never empty: an empty decoding becomes `{}`, anything else is the decoding itself |
| Session.HeaderToken | src/hooks.server.ts:59 | `headers.get('Authentication')?.split(' ')[1]` is `undefined` or a string; a string token comes from a header with a space and contains no space itself |
| Session.AuthCookie | src/hooks.server.ts:63 | the cookie looked up is the one named `sb-<project>-auth-token`, present exactly when the request carries it |
| Session.CookieText | src/hooks.server.ts:63 | the text handed to the base64 decoder is empty for an absent cookie, the value without its leading marker when it has one, and the value itself otherwise |
| Session.CookieToken | src/hooks.server.ts:66 | `JSON.parse(...)?.access_token` throws exactly when the parse does, and is `undefined` when the parsed JSON is not an object |
| Session.CookieTokenIsAccessTokenField | src/hooks.server.ts:61-66 | the cookie token is the `access_token` property of the parsed cookie object, and `undefined` when it has none |
| Session.SessionToken | src/hooks.server.ts:71 | `session?.access_token` is `undefined` exactly without a session, and the session's access token otherwise |
| Session.ChosenToken | src/hooks.server.ts:73 | token precedence: the header token if defined, else the cookie token if defined, else the session token |
| Session.ResolveSession | src/hooks.server.ts:56-87 | rejects exactly when the cookie JSON is malformed; a user is reported iff a session is, and the session is always the backend's |
| Session.SafeGetSession | src/hooks.server.ts:56-87 | the step-by-step resolver (`user` starting at `null`, `header ?? cookie ?? session`, early returns) equals the specification `ResolveSession` |
| Session.HeaderTokenUndefinedIff | src/hooks.server.ts:59 | there is no header token exactly when the header is missing or has no space, and the header token is never `null` |
| Session.HeaderTokenIsSecondField | src/hooks.server.ts:59 | the header token is the second space-separated field, whatever the first word is |
| Session.DoubleSpaceGivesEmptyToken | src/hooks.server.ts:59 | a doubled space after the first word gives the empty token, which is defined but falsy |
| Session.CookieTextStripsMarkerOnce | src/hooks.server.ts:63 | only a leading `base64-` is stripped, and only once |
| Session.EmptyCookieGivesNoToken | src/hooks.server.ts:61-66 | a cookie that decodes to the empty string is parsed as `{}` and gives no cookie token |
| Session.AbsentCookieGivesNoToken | src/hooks.server.ts:61-66 | an absent cookie is decoded from `''`, parsed as `{}` and gives no cookie token |
| Session.MalformedCookieThrows | src/hooks.server.ts:66 | a cookie whose decoding is not JSON makes the resolver throw, whatever header or session is present |
| Session.NoBackendSessionIsUnauthenticated | src/hooks.server.ts:68-75 | without a backend session the result is `{session: null, user: null}` even with a header or cookie token |
| Session.HeaderTokenTakesPrecedence | src/hooks.server.ts:59-73 | a defined header token is the token verified |
| Session.CookieTokenBeforeSessionToken | src/hooks.server.ts:73 | without a header token, a defined cookie token is verified instead of the session's |
| Session.SessionTokenIsLastResort | src/hooks.server.ts:71-73 | without header and cookie tokens, the session's own access token is verified |
| Session.EmptyHeaderTokenBlocksFallthrough | src/hooks.server.ts:73-75 | an empty header token does not fall through to the cookie or session token: unauthenticated |
| Session.AuthenticatedIff | src/hooks.server.ts:74-86 | authenticated iff backend session, truthy chosen token and successful verification; the user is then the verifier's payload for exactly that token |
| Session.HeaderTokenIgnoresCookie | src/hooks.server.ts:73 | with a header token, the outcome does not depend on the cookie's content as long as it parses |
| Session.BearerHeaderScenario | src/hooks.server.ts:59-86 | `Authentication: Bearer abc` with a session and `abc` verifying gives the session and the verified claims |
| Session.RejectedCookieScenario | src/hooks.server.ts:61-84 | a `base64-` cookie carrying `xyz` that fails verification gives `{session: null, user: null}` |
| Guard.Guard | src/hooks.server.ts:105-111 | the policy redirects only with 303 to `/auth` or `/private`; the redirect to `/auth` only without a session; with a session it continues on every path but `/auth`, and without one on every path outside `/private` |
| Guard.RequestEvent.AuthGuard | src/hooks.server.ts:100-114 | records session and user in `locals`, then decides with the guard policy on the recorded session |
| Guard.Handle | src/hooks.server.ts:116 | the composed handler fails exactly when the resolver throws; otherwise it redirects exactly as the guard decides on the resolved session, and page handlers receive exactly the resolved `{session, user}` |
| Guard.RedirectToLoginIff | src/hooks.server.ts:105-107 | redirect 303 to `/auth` iff there is no session and the path starts with `/private` |
| Guard.RedirectToLandingIff | src/hooks.server.ts:109-111 | redirect 303 to `/private` iff there is a session and the path is exactly `/auth` |
| Guard.GuardContinuesOtherwise | src/hooks.server.ts:105-113 | every other request continues, and every redirect has status 303 |
| Guard.PrefixTestIsTextual | src/hooks.server.ts:105 | the prefix test is textual: `/privateer` and `/private/dashboard` are protected, `/priv` is not |
| Guard.RedirectTargetContinues | src/hooks.server.ts:105-111 | no redirect loop: in the same session state the redirect target continues |
| Guard.ProtectedPagesSeeSession | src/hooks.server.ts:100-116 | a page handler under `/private` runs only with the backend's session and a verified user |
| Guard.UnauthenticatedProtectedRedirects | src/hooks.server.ts:68-107 | without a backend session, a `/private` path is redirected to `/auth` and no page handler runs |
| Guard.UnresolvedSessionProtectedRedirects | src/hooks.server.ts:74-107 | whenever resolution ends without a session (no backend session, falsy token or failed verification), a `/private` path is redirected to `/auth` |
| Guard.UnguardedPathsContinue | src/hooks.server.ts:105-113 | paths outside `/private` other than `/auth` reach the page handlers with the resolved `{session, user}` |
| Guard.AuthenticatedLoginRedirects | src/hooks.server.ts:109-111 | an authenticated request for `/auth` is redirected to `/private` |
| ResponseHeaders.FilterSerializedResponseHeaders | src/hooks.server.ts:90-96 | a header passes iff its name is one of `content-range`, `x-supabase-api-version` |
| ResponseHeaders.AllowListIsExact | src/hooks.server.ts:95 | exactly two names pass, compared exactly (`Content-Range` does not) |
| Cookies.WithRootPath | src/hooks.server.ts:26 | `{...options, path: '/'}` sets `path` to `/`, keeps every other option and adds nothing |
| Cookies.Written | src/hooks.server.ts:26 | the entry written for a cookie keeps its value and has path `/` |
| Cookies.AfterSetAll | src/hooks.server.ts:25-26 | writing the cookies in list order keeps every cookie already in the jar |
| Cookies.SetAllKeys | src/hooks.server.ts:24-27 | after `setAll` the jar holds the old names plus every name written |
| Cookies.SetAllLeavesOthers | src/hooks.server.ts:24-27 | cookies not named in `cookiesToSet` keep their old entries |
| Cookies.SetAllLastWriteWins | src/hooks.server.ts:24-27 | writes happen in list order: the jar holds the last entry for each name |
| Cookies.SetAllWritesRootPath | src/hooks.server.ts:24-27 | every cookie written has path `/`, its value and its other options |
| Cookies.CookieJar.Set | src/hooks.server.ts:26 | `cookies.set` stores the cookie under its name and changes nothing else |
| Cookies.CookieJar.SetAll | src/hooks.server.ts:24-28 | the `forEach` loop leaves the jar equal to the ordered fold `AfterSetAll` of the old jar |

## Left out

- The internals of `jwt.verify`, `Buffer` base64/UTF-8 decoding and `JSON.parse`: these are foreign library calls, modelled as arbitrary functions in `Session.Env`.
- The backend client (`createServerClient`) and its `getSession()` network call: its result is a parameter. That the call is skipped when `JSON.parse` throws makes no difference to the outcome and is not modelled.
- `getAll` (src/hooks.server.ts:18): a pass-through to the framework's cookie jar, with no logic of its own.
- `console.error` logging on a failed verification: I/O.
- `async`/`await` scheduling, the mechanics of `sequence`, and the throwing `redirect()`: a redirect is a returned `Guard.Decision`, and an uncaught exception is `Response.Fatal`.
- Header lookup is case-insensitive and `Headers` trims values. `Session.Request.authentication` is the value `headers.get` already returned.
- Cookies.CookieJar.Set: keys the jar by cookie name only. SvelteKit also keys by domain and path. The path is always `/` here, so only the domain option is not modelled.
- JavaScript numbers are modelled as reals, because JSON never yields NaN. Only the truthiness of numbers matters here.
- src/routes/+page.server.ts, src/routes/+layout.server.ts, src/routes/[company_handle]/+layout.server.ts and src/lib/db.ts: data fetches, timing and configuration, with no decision logic. They are not part of this model.
