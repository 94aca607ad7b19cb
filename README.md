# Session and token layer of the strategy dashboard

The dashboard keeps its sign-in session in the browser's `localStorage`.
Three client modules use it, and one server route issues the tokens:

- `src/utils/auth.ts` holds the token helpers. `isTokenExpired` reads the
  `exp` claim of a JSON Web Token (RFC 7519). `refreshAccessToken` trades the
  refresh token for a new access token in one round trip. `getAccessToken`
  hands out the stored token or refreshes. `isAuthenticated` and `logout`
  build on them.
- `src/utils/api.ts` holds `fetchWithAuth`. It attaches a bearer token read
  from the `authToken` key, sends the call, and turns 401 and other non-2xx
  statuses into errors. On 401 it also clears that key and goes to `/login`.
- `src/contexts/AuthContext.tsx` holds the React auth context. Its two state
  cells, `token` and `isAuthenticated`, follow the `accessToken` key through
  the mount effect, `login` and `logout`.
- `src/app/api/auth/route.ts` is the login/refresh proxy. It forwards the
  request body to the backend. It returns the backend's answer, and on
  success it sets the token cookies.

Each file is one Dafny module:

- `token_validator.dfy`: `split('.')` and the expiry predicate.
- `auth.dfy`: the helpers.
- `api.dfy`: the wrapper.
- `auth_context.dfy`: the context, as a class.
- `auth_route.dfy`: the proxy, as a pure function.
- `session.dfy`: properties of all of them together.

`js.dfy` and `browser.dfy` model the JavaScript values and the browser
globals.

Storage is a `map<string, string>`. It is the field `storage` of a
`Browser.Window` object, which also holds `href` (`window.location.href`).
The window also has a ghost log, `sent`, of the requests that `fetch` sent.
Each state-changing operation is a method on that window. It is specified
by pure functions of the old storage, such as `Auth.StoreAfterRefresh` and
`Auth.RefreshResult`. Lemmas state the properties of those functions.

These parts of the runtime are parameters:

- `Date.now()` is the parameter `now`, in whole milliseconds.
- Base64 decoding, JSON parsing and reading `exp` are one abstract decoder,
  `decode: string -> Payload`.
- Every server answer is a parameter. This covers the refresh endpoint, the
  data API and the backend behind the proxy.

The model follows the code where it departs from the intended session design:

- A token whose `exp` is absent or does not coerce to a number is reported
  unexpired. The reason is that `Date.now() >= NaN` is false
  (`TokenValidator.MissingExpNeverExpires`). The intended fail-closed rule would count it as
  expired.
- `getAccessToken` does not check the expiry of a refreshed token. It can
  hand out an expired token (`Auth.RefreshedTokenIsNotChecked`). The intended design
  promises that it never does.
- `fetchWithAuth` reads `authToken`, but the token helpers and the auth
  context write only `accessToken` and `refreshToken`. The login form
  (`components/auth/LoginForm`) is not part of this model.
  From any storage without `authToken`, every data call fails with "No
  authentication token found" (`Session.FetchNeverFindsToken`). On 401 the
  wrapper removes `authToken` only, not the session tokens.
- The context's `login` stores only the access token. Its `logout` removes
  only the access token and does not navigate. So the helpers can still
  refresh afterwards (`Session.ContextLogoutStillRefreshes`).
- An ok refresh reply whose `accessToken` is missing stores the string
  "undefined" and resolves to `undefined`. Since `undefined` is not `null`,
  `isAuthenticated()` is true (`Auth.RefreshWithoutTokenField`).

## Model

| member | source | states |
|---|---|---|
| `TokenValidator.Split` | src/utils/auth.ts:4 | `split('.')` yields at least one piece, no piece contains a dot, and there is one piece exactly when the token has no dot |
| `TokenValidator.JoinSplit` | src/utils/auth.ts:4 | joining the pieces of a token with dots gives the token back |
| `TokenValidator.SplitJoin` | src/utils/auth.ts:4 | splitting a dot-join of dot-free pieces gives back those pieces |
| `TokenValidator.PayloadSegment` | src/utils/auth.ts:4 | the payload segment `split('.')[1]` exists exactly when the token contains a dot, and it is the dot-free text between the first dot and the next dot or the end |
| `TokenValidator.IsTokenExpired` | src/utils/auth.ts:2-10 | an unreadable payload (no dot, or a decoding that throws) is expired; with a numeric `exp`, expired iff `now >= exp * 1000`; with an `exp` that is absent or does not coerce to a number (NaN), never expired |
| `TokenValidator.UnreadableIsExpired` | src/utils/auth.ts:7-9 | fail-closed: a token without a dot, or whose payload fails to decode, is expired |
| `TokenValidator.ExpiryBoundary` | src/utils/auth.ts:5-6 | at `now == exp * 1000` the token is already expired; one millisecond earlier it is not |
| `TokenValidator.ExpiryIsMonotonic` | src/utils/auth.ts:5-6 | a token expired at some time stays expired at every later time |
| `TokenValidator.MissingExpNeverExpires` | src/utils/auth.ts:5-6 | a token whose `exp` is absent or does not coerce to a number is unexpired at every time |
| `TokenValidator.MalformedTokenIsExpired` | src/utils/auth.ts:3-9 | the malformed token "abc" is expired under any decoder and at any time |
| `Auth.RefreshResult` | src/utils/auth.ts:13-42 | resolves to null without a refresh token; is non-null iff the request returned ok with a readable body whose `accessToken` is non-null, and then is that value |
| `Auth.StoreAfterRefresh` | src/utils/auth.ts:32-36 | no key other than `accessToken` changes; after an ok reply with a readable body `accessToken` holds `String(data.accessToken)`; otherwise storage is unchanged |
| `Auth.RefreshAccessToken` | src/utils/auth.ts:13-42 | resolves to `RefreshResult` and leaves storage as `StoreAfterRefresh`; sends one refresh request carrying the stored refresh token, or none without one; does not navigate |
| `Auth.AccessTokenResult` | src/utils/auth.ts:45-53 | the stored token when it is present and unexpired, otherwise exactly the result of one refresh |
| `Auth.StoreAfterGetAccessToken` | src/utils/auth.ts:45-53 | storage is untouched when the stored token is usable, and is exactly the storage after one refresh otherwise; no key other than `accessToken` ever changes |
| `Auth.GetAccessToken` | src/utils/auth.ts:45-53 | resolves to `AccessTokenResult`, changes storage as `StoreAfterGetAccessToken`, and sends at most one request |
| `Auth.IsAuthenticated` | src/utils/auth.ts:56-59 | true iff `getAccessToken()` resolves to something other than null, with the same effect on storage and requests |
| `Auth.StoreAfterLogout` | src/utils/auth.ts:62-64 | both token keys are absent afterwards and every other key keeps its value |
| `Auth.Logout` | src/utils/auth.ts:62-66 | storage becomes `StoreAfterLogout` of the old storage, `href` becomes `/login`, and nothing is sent |
| `Auth.RefreshWithoutRefreshToken` | src/utils/auth.ts:14-18 | without a refresh token, refreshing resolves to null, leaves storage unchanged and sends no request |
| `Auth.RefreshStoresWhatItReturns` | src/utils/auth.ts:32-36 | a refreshed token is stored under `accessToken` exactly as returned, and the refresh token is untouched |
| `Auth.FailedRefreshChangesNothing` | src/utils/auth.ts:37-41 | a rejected fetch, a non-ok status or an unreadable body resolves to null and leaves storage, including the refresh token, unchanged |
| `Auth.RefreshWithoutTokenField` | src/utils/auth.ts:32-36 | an ok reply without `accessToken` resolves to `undefined` (so counts as signed in) and stores the string "undefined" |
| `Auth.TokenFromStorageIsUnexpired` | src/utils/auth.ts:46-52 | a non-null token handed out without a request is the stored one, and it is not expired |
| `Auth.RefreshedTokenIsNotChecked` | src/utils/auth.ts:32-35 | there are storage, server and decoder values for which `getAccessToken()` resolves to a token that is itself expired |
| `Auth.StaleTokenIsReplaced` | src/utils/auth.ts:46-50 | a stored token one second past its `exp` triggers one refresh request, and the new token is both stored and returned |
| `Auth.FreshTokenIsKept` | src/utils/auth.ts:46-52 | a stored token valid for another hour is returned as it is, with no request and storage unchanged |
| `Auth.LogoutIdempotent` | src/utils/auth.ts:62-64 | logging out twice leaves the same storage as logging out once |
| `Auth.SignedOutAfterLogout` | src/utils/auth.ts:62-64 | after logout no token can be obtained and no request is sent, whatever the time and the server |
| `Api.Decimal` | src/utils/api.ts:56 | the status in the error message is a non-empty string of decimal digits, without leading zeros, whose value is the status |
| `Api.Message` | src/utils/api.ts:29-57 | the messages are "No authentication token found", "Unauthorized access", "HTTP error! status: " followed by the status in decimal, and a rejected fetch's own message |
| `Api.MessageCarriesStatus` | src/utils/api.ts:56 | two HTTP errors with the same message have the same status, so the message identifies the status |
| `Api.BuildHeaders` | src/utils/api.ts:34-38 | the headers are the caller's keys plus `Content-Type` and `Authorization`; caller entries take precedence; otherwise `Authorization` is `Bearer <token>` and `Content-Type` is `application/json` |
| `Api.SentInit` | src/utils/api.ts:41-46 | the caller's request options are kept, except that `credentials` is `include` and `mode` is `cors` whatever the caller gave |
| `Api.FetchOutcome` | src/utils/api.ts:24-64 | fails with NoToken iff `authToken` is absent or empty; a rejected fetch is rethrown unchanged; succeeds iff a token was found and the status is 2xx, returning the response as is; fails with Unauthorized iff the status is 401; any other non-2xx status fails with HttpError carrying that status |
| `Api.StoreAfterFetch` | src/utils/api.ts:49-53 | a 401 removes `authToken`, any other outcome leaves storage unchanged, and no other key ever changes |
| `Api.FetchWithAuth` | src/utils/api.ts:24-64 | settles as `FetchOutcome` and changes storage as `StoreAfterFetch`; sends the bearer request only when a token was found; navigates to `/login` exactly on 401 |
| `Api.UnauthorizedKeepsSessionTokens` | src/utils/api.ts:49-53 | after a 401 the access and refresh tokens are still stored, and the next call fails with NoToken |
| `Api.CallerHeadersWin` | src/utils/api.ts:34-38 | a caller-supplied `Authorization` header replaces the bearer token, and `Content-Type` stays `application/json` |
| `AuthContext.StoreAfterLogin` | src/contexts/AuthContext.tsx:86-90 | `accessToken` holds the given token afterwards and every other key keeps its value |
| `AuthContext.StoreAfterLogout` | src/contexts/AuthContext.tsx:92-96 | `accessToken` is absent afterwards and every other key, including `refreshToken`, keeps its value |
| `AuthContext.AuthProvider.constructor` | src/contexts/AuthContext.tsx:74-75 | the initial state is `token == null` and not authenticated, which satisfies the invariant `isAuthenticated <==> token != null` |
| `AuthContext.AuthProvider.MountEffect` | src/contexts/AuthContext.tsx:77-84 | adopts a stored non-empty access token and sets authenticated without checking expiry; otherwise the state is unchanged; preserves the invariant |
| `AuthContext.AuthProvider.Login` | src/contexts/AuthContext.tsx:86-90 | `token` becomes the given token and the session is authenticated; storage becomes `StoreAfterLogin`; preserves the invariant |
| `AuthContext.AuthProvider.Logout` | src/contexts/AuthContext.tsx:92-96 | `token` becomes null and the session is not authenticated; storage becomes `StoreAfterLogout`; there is no navigation; preserves the invariant |
| `AuthContext.UseAuth` | src/contexts/AuthContext.tsx:105-111 | fails with "useAuth must be used within an AuthProvider" iff no provider value is present; otherwise returns that value |
| `AuthContext.UseAuthInsideProvider` | src/contexts/AuthContext.tsx:99-110 | inside a provider, `useAuth()` returns the provider's current `isAuthenticated` and `token` |
| `AuthContext.LoginWritesAccessTokenOnly` | src/contexts/AuthContext.tsx:86-90 | logging in leaves `refreshToken` and `authToken` as they were |
| `AuthContext.LoginThenLogout` | src/contexts/AuthContext.tsx:86-96 | logging in and then out leaves storage as logging out alone would |
| `AuthRoute.TokenCookie` | src/app/api/auth/route.ts:26-47 | every token cookie is http-only and same-site lax, and is secure iff `NODE_ENV` is `production` |
| `AuthRoute.Post` | src/app/api/auth/route.ts:4-57 | forwards the re-serialised body to `${BACKEND_URL}/auth` iff it parses as JSON; anything thrown gives 500 "Internal server error" without cookies; a backend failure keeps its status and carries `data.message` or "Authentication failed" with no cookies; a success returns 200 with the backend body and an access cookie whose max-age is `expiresIn` |
| `AuthRoute.CookiesOnlyOnSuccess` | src/app/api/auth/route.ts:19-47 | cookies are set iff the request was forwarded and the backend answered ok |
| `AuthRoute.RefreshCookieIffRefreshToken` | src/app/api/auth/route.ts:38-47 | a refresh cookie is set iff `data.refreshToken` is truthy; it carries that token with max-age 2592000 seconds |
| `Session.ApplyNeverWritesAuthToken` | src/utils/api.ts:27 | no storage operation in the layer writes `authToken`: it keeps its value or is removed |
| `Session.RunNeverWritesAuthToken` | src/utils/api.ts:27 | across any sequence of logins, logouts, refreshes, token reads and data calls, `authToken` keeps its initial value or disappears |
| `Session.FetchNeverFindsToken` | src/utils/api.ts:27-31 | starting without `authToken`, every data call fails with NoToken after any sequence of the modelled operations, however the user logged in through them |
| `Session.ContextLoginThenToken` | src/contexts/AuthContext.tsx:86-90 | after the context's login with a non-empty unexpired token, `getAccessToken()` returns it with no request |
| `Session.ContextLogoutStillRefreshes` | src/contexts/AuthContext.tsx:92-96 | after the context's logout a stored refresh token still yields a token on an ok refresh; after the helpers' logout nothing does |

## Left out

- Asynchrony and concurrency: two overlapping `getAccessToken()` calls can each refresh, and React state updates are scheduled. The model runs each operation to completion, and a state update takes effect at once.
- Base64 and JSON decoding are not implemented. The abstract `decode` parameter stands for them. The model therefore does not capture that `atob` rejects the `-` and `_` of the base64url alphabet that JWTs use, which makes such tokens expired.
- Floating point: `exp` and `Date.now()` are whole numbers. A missing or non-numeric `exp` is an explicit NaN case rather than IEEE arithmetic.
- `fetch`, `Response`, `NextResponse` and the cookie store are not implemented. Their results are parameters, and the proxy's response is a value. JSON property values other than strings, `null` and absent are not modelled.
- `Api.BuildHeaders`: header names are compared exactly, as object keys are. The model does not capture that `Headers` folds case, so `authorization` and `Authorization` from a spread would be combined. It also does not capture that spreading a `Headers` instance passed as `options.headers` contributes nothing.
- Api.FetchWithAuth: does not model that `new Headers` throws before any request on an invalid header name or value, such as a token containing a newline. It also does not model that `Headers` trims leading and trailing whitespace from values.
- AuthRoute.Post: the forwarded body is `JSON.stringify` of the parsed request body. The model takes that printed text as its input and does not model the parse-and-print step, which can change whitespace and drop duplicate keys.
- The login form `components/auth/LoginForm`, which the login page renders, is not part of this model. Whatever it writes to storage is outside the operations that `Session.FetchNeverFindsToken` ranges over.
- `console.error` in the wrapper's and the route's catch blocks is not modelled. It only logs before the rethrow or the 500 response.
- The CRUD screens, routing guards, layout and pages are UI over plain HTTP calls, so they are not modelled. The commented-out earlier versions of `api.ts` and `AuthContext.tsx` are not live code and are not modelled either.
- The context value holds the two state cells only. Its `login` and `logout` entries are the provider's methods and are not part of the value.
