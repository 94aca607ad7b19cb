/** The server-side login/refresh proxy (`POST /api/auth`): forward the
    request body to the backend and turn its answer into a response with
    up to two cookies. */
module AuthRoute {
  import opened Js
  import opened Browser

  /** The environment variables the handler reads (`undefined` when unset). */
  datatype Env = Env(backendUrl: JsToken, nodeEnv: JsToken)

  /** The backend's JSON body: `raw` is the body as a whole, the other fields
      are the properties the handler reads from it. */
  datatype BackendData = BackendData(
    raw: string,
    message: JsToken,
    accessToken: JsToken,
    refreshToken: JsToken,
    expiresIn: Option<int>)

  /** What the backend call comes to. */
  datatype BackendReply =
    | BackendThrew        // `fetch` rejects or the backend body is not JSON
    | BackendAnswer(status: nat, data: BackendData)

  /** The call made to the backend: its URL and its JSON body. */
  datatype Forward = Forward(url: string, body: string)

  datatype Cookie = Cookie(
    name: string,
    value: JsToken,
    httpOnly: bool,
    secure: bool,
    sameSite: string,
    maxAge: Option<int>)

  datatype ResponseBody =
    | Echo(data: BackendData)     // the backend body, passed through
    | Message(message: string)    // `{ message }`

  datatype ProxyResponse = ProxyResponse(status: nat, body: ResponseBody, cookies: seq<Cookie>)

  /** The backend call (if any) and the response returned. */
  datatype Handled = Handled(forwarded: Option<Forward>, response: ProxyResponse)

  /** Thirty days, in seconds: the refresh cookie's lifetime. */
  const RefreshMaxAge: int := 30 * 24 * 60 * 60

  /** The cookie attributes both token cookies share. */
  function TokenCookie(name: string, value: JsToken, env: Env, maxAge: Option<int>): (c: Cookie)
    ensures c.name == name && c.value == value && c.maxAge == maxAge
    ensures c.httpOnly && c.sameSite == "lax"
    ensures c.secure <==> env.nodeEnv == Text("production")
  {
    Cookie(name, value, true, env.nodeEnv == Text("production"), "lax", maxAge)
  }

  /** The answer to a backend call that came back: on an ok status the
      backend body with the token cookies, otherwise the backend's status
      with its message. */
  function Answer(status: nat, data: BackendData, env: Env): ProxyResponse {
    if !IsOk(status) then
      ProxyResponse(status, Message(if Truthy(data.message) then data.message.s else "Authentication failed"), [])
    else
      var access := TokenCookie(AccessTokenKey, data.accessToken, env, data.expiresIn);
      var refresh := TokenCookie(RefreshTokenKey, data.refreshToken, env, Some(RefreshMaxAge));
      ProxyResponse(200, Echo(data), if Truthy(data.refreshToken) then [access, refresh] else [access])
  }

  const InternalError: ProxyResponse := ProxyResponse(500, Message("Internal server error"), [])

  /** `POST(request)`. `requestBody` is the request's body parsed and printed
      again by `JSON.stringify`, absent when it is not JSON; `reply` is what
      the backend answers if it is called. */
  function Post(requestBody: Option<string>, env: Env, reply: BackendReply): (h: Handled)
    // the body goes to `${BACKEND_URL}/auth` unchanged, and only a readable body is forwarded
    ensures h.forwarded.Some? <==> requestBody.Some?
    ensures requestBody.Some? ==>
              h.forwarded == Some(Forward(ToJsString(env.backendUrl) + "/auth", requestBody.value))
    // anything thrown becomes a 500 without cookies
    ensures requestBody.None? || reply.BackendThrew? ==> h.response == InternalError
    // a backend failure keeps its status and sets no cookie
    ensures requestBody.Some? && reply.BackendAnswer? && !IsOk(reply.status) ==>
              h.response.status == reply.status && h.response.cookies == [] &&
              h.response.body.Message? &&
              (Truthy(reply.data.message) ==> h.response.body.message == reply.data.message.s) &&
              (!Truthy(reply.data.message) ==> h.response.body.message == "Authentication failed")
    // a backend success is passed through with status 200 and an access cookie first
    ensures requestBody.Some? && reply.BackendAnswer? && IsOk(reply.status) ==>
              h.response.status == 200 && h.response.body == Echo(reply.data) &&
              |h.response.cookies| >= 1 &&
              h.response.cookies[0].name == AccessTokenKey &&
              h.response.cookies[0].value == reply.data.accessToken &&
              h.response.cookies[0].maxAge == reply.data.expiresIn
    // every cookie is http-only, same-site lax, and secure exactly in production
    ensures forall c :: c in h.response.cookies ==>
              c.httpOnly && c.sameSite == "lax" && (c.secure <==> env.nodeEnv == Text("production"))
  {
    match requestBody
    case None => Handled(None, InternalError)
    case Some(body) =>
      var forward := Forward(ToJsString(env.backendUrl) + "/auth", body);
      match reply
      case BackendThrew => Handled(Some(forward), InternalError)
      case BackendAnswer(status, data) => Handled(Some(forward), Answer(status, data, env))
  }

  /** The proxy sets cookies exactly when the backend accepted the request. */
  lemma CookiesOnlyOnSuccess(requestBody: Option<string>, env: Env, reply: BackendReply)
    ensures Post(requestBody, env, reply).response.cookies != [] <==>
              requestBody.Some? && reply.BackendAnswer? && IsOk(reply.status)
  {
  }

  /** A refresh cookie, living thirty days, is set exactly when the backend's
      `refreshToken` is truthy, and it carries that token. */
  lemma RefreshCookieIffRefreshToken(requestBody: Option<string>, env: Env, reply: BackendReply)
    requires requestBody.Some? && reply.BackendAnswer? && IsOk(reply.status)
    ensures var cookies := Post(requestBody, env, reply).response.cookies;
            (exists c :: c in cookies && c.name == RefreshTokenKey) <==> Truthy(reply.data.refreshToken)
    ensures var cookies := Post(requestBody, env, reply).response.cookies;
            forall c :: c in cookies && c.name == RefreshTokenKey ==>
              c.value == reply.data.refreshToken && c.maxAge == Some(2592000)
  {
    KeysDistinct();
    var cookies := Post(requestBody, env, reply).response.cookies;
    if Truthy(reply.data.refreshToken) {
      assert cookies[1] in cookies && cookies[1].name == RefreshTokenKey;
    }
  }
}
