/** The authenticated-fetch wrapper used by every data call: attach the
    bearer token from storage, send, and classify the response status. */
module Api {
  import opened Js
  import opened Browser

  /** The caller's request options: `headers` (absent when not given) and the
      remaining scalar `RequestInit` fields such as `method` and `body`. */
  datatype FetchOptions = FetchOptions(init: map<string, string>, headers: Option<map<string, string>>)

  datatype HttpResponse = HttpResponse(status: nat, body: string)

  /** What `fetch` comes to for the data call. */
  datatype ApiReply =
    | Rejected(reason: string)      // `fetch` rejects; the error is rethrown unchanged
    | Responded(response: HttpResponse)

  /** The errors `fetchWithAuth` throws. */
  datatype FetchError =
    | NoToken
    | Unauthorized
    | HttpError(status: nat)
    | NetworkError(reason: string)

  /** The decimal digits of `n`, most significant first, as a template literal prints it. */
  function Decimal(n: nat): (s: string)
    ensures |s| >= 1
    ensures forall k :: 0 <= k < |s| ==> '0' <= s[k] <= '9'
    ensures DigitsValue(s) == n
    ensures n > 0 ==> s[0] != '0'
  {
    if n < 10 then [Digit(n)]
    else
      var front := Decimal(n / 10);
      var s := front + [Digit(n % 10)];
      assert s[..|s| - 1] == front;
      s
  }

  function Digit(d: nat): (c: char)
    requires d < 10
    ensures '0' <= c <= '9' && c as int - '0' as int == d
  {
    ('0' as int + d) as char
  }

  /** The number a string of decimal digits denotes. */
  function DigitsValue(s: string): nat
    requires forall k :: 0 <= k < |s| ==> '0' <= s[k] <= '9'
  {
    if s == [] then 0
    else DigitsValue(s[..|s| - 1]) * 10 + (s[|s| - 1] as int - '0' as int)
  }

  /** The `message` of each thrown error. */
  function Message(e: FetchError): (m: string)
    ensures e == NoToken ==> m == "No authentication token found"
    ensures e == Unauthorized ==> m == "Unauthorized access"
    ensures e.HttpError? ==> m == "HTTP error! status: " + Decimal(e.status)
    ensures e.NetworkError? ==> m == e.reason
  {
    match e
    case NoToken => "No authentication token found"
    case Unauthorized => "Unauthorized access"
    case HttpError(status) => "HTTP error! status: " + Decimal(status)
    case NetworkError(reason) => reason
  }

  /** The thrown error carries the status only inside its message, and two
      different statuses give two different messages. */
  lemma MessageCarriesStatus(a: nat, b: nat)
    requires Message(HttpError(a)) == Message(HttpError(b))
    ensures a == b
  {
    var prefix := "HTTP error! status: ";
    assert Message(HttpError(a))[|prefix|..] == Decimal(a);
    assert Message(HttpError(b))[|prefix|..] == Decimal(b);
  }

  /** The outgoing headers: content type and bearer token first, then the
      caller's entries spread over them. */
  function BuildHeaders(token: string, callerHeaders: map<string, string>): (h: map<string, string>)
    ensures h.Keys == callerHeaders.Keys + {"Content-Type", "Authorization"}
    ensures forall k :: k in callerHeaders ==> h[k] == callerHeaders[k]
    ensures "Authorization" !in callerHeaders ==> h["Authorization"] == "Bearer " + token
    ensures "Content-Type" !in callerHeaders ==> h["Content-Type"] == "application/json"
  {
    map["Content-Type" := "application/json", "Authorization" := "Bearer " + token] + callerHeaders
  }

  /** The outgoing request options: the caller's, with `credentials` and
      `mode` forced. */
  function SentInit(init: map<string, string>): (i: map<string, string>)
    ensures i.Keys == init.Keys + {"credentials", "mode"}
    ensures i["credentials"] == "include" && i["mode"] == "cors"
    ensures forall k :: k in init && k != "credentials" && k != "mode" ==> i[k] == init[k]
  {
    init + map["credentials" := "include", "mode" := "cors"]
  }

  /** The request `fetchWithAuth(url, options)` sends once a token is found. */
  function ApiCall(token: string, url: string, options: FetchOptions): Request {
    ApiRequest(url, SentInit(options.init), BuildHeaders(token, options.headers.GetOr(map[])))
  }

  /** A non-empty `authToken` is stored. */
  predicate HasAuthToken(store: Store) {
    Truthy(GetItem(store, AuthTokenKey))
  }

  /** How `fetchWithAuth` settles: the response, or the error it throws. */
  function FetchOutcome(store: Store, reply: ApiReply): (r: Result<HttpResponse, FetchError>)
    ensures r == Failure(NoToken) <==> !HasAuthToken(store)
    ensures HasAuthToken(store) && reply.Rejected? ==> r == Failure(NetworkError(reply.reason))
    ensures r.Success? <==> HasAuthToken(store) && reply.Responded? && IsOk(reply.response.status)
    ensures r.Success? ==> r.value == reply.response
    ensures r == Failure(Unauthorized) <==> HasAuthToken(store) && reply.Responded? && reply.response.status == 401
    ensures HasAuthToken(store) && reply.Responded? && reply.response.status != 401 && !IsOk(reply.response.status) ==>
              r == Failure(HttpError(reply.response.status))
    ensures r.Failure? && r.error.HttpError? ==>
              reply.Responded? && r.error.status == reply.response.status && !IsOk(r.error.status)
  {
    if !HasAuthToken(store) then Failure(NoToken)
    else match reply
      case Rejected(reason) => Failure(NetworkError(reason))
      case Responded(response) =>
        if response.status == 401 then Failure(Unauthorized)
        else if !IsOk(response.status) then Failure(HttpError(response.status))
        else Success(response)
  }

  /** A 401 answer to a call that was sent: storage is cleared and the page leaves for /login. */
  predicate RejectsSession(store: Store, reply: ApiReply) {
    HasAuthToken(store) && reply.Responded? && reply.response.status == 401
  }

  /** `localStorage` after `fetchWithAuth`: only a 401 changes it, and only
      by removing `authToken`. */
  function StoreAfterFetch(store: Store, reply: ApiReply): (s: Store)
    ensures RejectsSession(store, reply) ==> AuthTokenKey !in s
    ensures !RejectsSession(store, reply) ==> s == store
    ensures forall k :: k != AuthTokenKey ==> GetItem(s, k) == GetItem(store, k)
  {
    if RejectsSession(store, reply) then store - {AuthTokenKey} else store
  }

  /** `fetchWithAuth(url, options)`. It reads `authToken`, never checks the
      token's expiry and never refreshes. */
  method FetchWithAuth(w: Window, url: string, options: FetchOptions, reply: ApiReply)
    returns (r: Result<HttpResponse, FetchError>)
    modifies w
    ensures r == FetchOutcome(old(w.storage), reply)
    ensures w.storage == StoreAfterFetch(old(w.storage), reply)
    ensures w.sent == old(w.sent) +
              if HasAuthToken(old(w.storage))
              then [ApiCall(old(w.storage)[AuthTokenKey], url, options)] else []
    ensures w.href == if RejectsSession(old(w.storage), reply) then "/login" else old(w.href)
  {
    var token := w.GetItem(AuthTokenKey);
    if !Truthy(token) {
      return Failure(NoToken);
    }
    var headers := BuildHeaders(token.s, options.headers.GetOr(map[]));
    w.Send(ApiRequest(url, SentInit(options.init), headers));
    match reply
    case Rejected(reason) =>
      r := Failure(NetworkError(reason));
    case Responded(response) =>
      if response.status == 401 {
        w.RemoveItem(AuthTokenKey);
        w.Navigate("/login");
        return Failure(Unauthorized);
      }
      if !IsOk(response.status) {
        return Failure(HttpError(response.status));
      }
      r := Success(response);
  }

  /** A 401 removes `authToken` only: the access and refresh tokens that the
      token helpers manage stay in place. */
  lemma UnauthorizedKeepsSessionTokens(store: Store, reply: ApiReply)
    requires RejectsSession(store, reply)
    ensures GetItem(StoreAfterFetch(store, reply), AccessTokenKey) == GetItem(store, AccessTokenKey)
    ensures GetItem(StoreAfterFetch(store, reply), RefreshTokenKey) == GetItem(store, RefreshTokenKey)
    ensures FetchOutcome(StoreAfterFetch(store, reply), reply) == Failure(NoToken)
  {
    KeysDistinct();
  }

  /** The caller's `Authorization` header replaces the stored token's. */
  lemma CallerHeadersWin(token: string, callerHeaders: map<string, string>, value: string)
    requires callerHeaders == map["Authorization" := value]
    ensures BuildHeaders(token, callerHeaders)["Authorization"] == value
    ensures BuildHeaders(token, callerHeaders)["Content-Type"] == "application/json"
  {
  }
}
