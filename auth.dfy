/** The token helpers: refresh the access token through the local auth
    route, hand out a usable access token, report whether the user is
    signed in, and sign out. Each runs against the browser's storage; the
    answer of the refresh endpoint is supplied as a parameter. */
module Auth {
  import opened Js
  import opened Browser
  import opened TokenValidator

  /** The JSON body of a refresh reply, as `response.json()` reads it. */
  datatype RefreshBody =
    | Unparsable                      // `response.json()` rejects
    | RefreshData(accessToken: JsToken) // the body's `accessToken` property (null or absent allowed)

  /** What the refresh request comes to. */
  datatype RefreshReply =
    | FetchRejected                   // `fetch` itself rejects (network failure)
    | HttpReply(status: int, body: RefreshBody)

  /** A refresh token is present: `refreshAccessToken` will send a request. */
  predicate HasRefreshToken(store: Store) {
    Truthy(GetItem(store, RefreshTokenKey))
  }

  /** The refresh request goes out and comes back ok with a readable body,
      so `accessToken` is overwritten. */
  predicate RefreshStores(store: Store, reply: RefreshReply) {
    HasRefreshToken(store) && reply.HttpReply? && IsOk(reply.status) && reply.body.RefreshData?
  }

  /** The value `refreshAccessToken()` resolves to. */
  function RefreshResult(store: Store, reply: RefreshReply): (r: JsToken)
    ensures !HasRefreshToken(store) ==> r == Null
    ensures r != Null <==> RefreshStores(store, reply) && reply.body.accessToken != Null
    ensures r != Null ==> r == reply.body.accessToken
  {
    if RefreshStores(store, reply) then reply.body.accessToken else Null
  }

  /** `localStorage` after `refreshAccessToken()`. */
  function StoreAfterRefresh(store: Store, reply: RefreshReply): (s: Store)
    ensures forall k :: k != AccessTokenKey ==> GetItem(s, k) == GetItem(store, k)
    ensures RefreshStores(store, reply) ==>
              GetItem(s, AccessTokenKey) == Text(ToJsString(reply.body.accessToken))
    ensures !RefreshStores(store, reply) ==> s == store
  {
    if RefreshStores(store, reply) then store[AccessTokenKey := ToJsString(reply.body.accessToken)]
    else store
  }

  /** The requests `refreshAccessToken()` sends: one, or none without a refresh token. */
  ghost function RefreshRequests(store: Store): seq<Request> {
    if HasRefreshToken(store) then [RefreshRequest(store[RefreshTokenKey])] else []
  }

  /** `refreshAccessToken()`: at most one round trip, no retry; only
      `accessToken` is ever written, and only on an ok reply. */
  method RefreshAccessToken(w: Window, reply: RefreshReply) returns (r: JsToken)
    modifies w
    ensures r == RefreshResult(old(w.storage), reply)
    ensures w.storage == StoreAfterRefresh(old(w.storage), reply)
    ensures w.sent == old(w.sent) + RefreshRequests(old(w.storage))
    ensures w.href == old(w.href)
  {
    var refreshToken := w.GetItem(RefreshTokenKey);
    if !Truthy(refreshToken) {
      return Null;
    }
    w.Send(RefreshRequest(refreshToken.s));
    match reply
    case FetchRejected =>
      r := Null;
    case HttpReply(status, body) =>
      if IsOk(status) {
        match body
        case Unparsable =>
          r := Null;
        case RefreshData(token) =>
          w.SetItem(AccessTokenKey, ToJsString(token));
          r := token;
      } else {
        r := Null;
      }
  }

  /** The stored access token is present and not expired at `now`. */
  predicate HoldsUsableToken(store: Store, now: int, decode: Decoder) {
    Truthy(GetItem(store, AccessTokenKey)) && !IsTokenExpired(store[AccessTokenKey], now, decode)
  }

  /** The value `getAccessToken()` resolves to. */
  function AccessTokenResult(store: Store, now: int, decode: Decoder, reply: RefreshReply): (r: JsToken)
    ensures HoldsUsableToken(store, now, decode) ==> r == GetItem(store, AccessTokenKey)
    ensures !HoldsUsableToken(store, now, decode) ==> r == RefreshResult(store, reply)
  {
    if HoldsUsableToken(store, now, decode) then Text(store[AccessTokenKey])
    else RefreshResult(store, reply)
  }

  /** `localStorage` after `getAccessToken()`. */
  function StoreAfterGetAccessToken(store: Store, now: int, decode: Decoder, reply: RefreshReply): (s: Store)
    ensures HoldsUsableToken(store, now, decode) ==> s == store
    ensures !HoldsUsableToken(store, now, decode) ==> s == StoreAfterRefresh(store, reply)
    ensures forall k :: k != AccessTokenKey ==> GetItem(s, k) == GetItem(store, k)
  {
    if HoldsUsableToken(store, now, decode) then store else StoreAfterRefresh(store, reply)
  }

  /** The requests `getAccessToken()` sends. */
  ghost function AccessTokenRequests(store: Store, now: int, decode: Decoder): seq<Request> {
    if HoldsUsableToken(store, now, decode) then [] else RefreshRequests(store)
  }

  /** `getAccessToken()`: the stored token when it is present and unexpired,
      otherwise whatever one refresh yields. */
  method GetAccessToken(w: Window, now: int, decode: Decoder, reply: RefreshReply) returns (r: JsToken)
    modifies w
    ensures r == AccessTokenResult(old(w.storage), now, decode, reply)
    ensures w.storage == StoreAfterGetAccessToken(old(w.storage), now, decode, reply)
    ensures w.sent == old(w.sent) + AccessTokenRequests(old(w.storage), now, decode)
    ensures |w.sent| <= |old(w.sent)| + 1
    ensures w.href == old(w.href)
  {
    var accessToken := w.GetItem(AccessTokenKey);
    if !Truthy(accessToken) || IsTokenExpired(accessToken.s, now, decode) {
      r := RefreshAccessToken(w, reply);
      return;
    }
    r := accessToken;
  }

  /** `isAuthenticated()`: `getAccessToken()` resolves to something other than `null`. */
  method IsAuthenticated(w: Window, now: int, decode: Decoder, reply: RefreshReply) returns (b: bool)
    modifies w
    ensures b <==> AccessTokenResult(old(w.storage), now, decode, reply) != Null
    ensures w.storage == StoreAfterGetAccessToken(old(w.storage), now, decode, reply)
    ensures w.sent == old(w.sent) + AccessTokenRequests(old(w.storage), now, decode)
    ensures w.href == old(w.href)
  {
    var token := GetAccessToken(w, now, decode, reply);
    b := token != Null;
  }

  /** `localStorage` after `logout()`. */
  function StoreAfterLogout(store: Store): (s: Store)
    ensures AccessTokenKey !in s && RefreshTokenKey !in s
    ensures forall k :: k != AccessTokenKey && k != RefreshTokenKey ==> GetItem(s, k) == GetItem(store, k)
  {
    store - {AccessTokenKey, RefreshTokenKey}
  }

  /** `logout()`: drop both tokens and go to the login page. */
  method Logout(w: Window)
    modifies w
    ensures w.storage == StoreAfterLogout(old(w.storage))
    ensures w.href == "/login"
    ensures w.sent == old(w.sent)
  {
    w.RemoveItem(AccessTokenKey);
    w.RemoveItem(RefreshTokenKey);
    w.Navigate("/login");
    assert w.storage == old(w.storage) - {AccessTokenKey} - {RefreshTokenKey};
  }

  // Properties relating the operations above.

  /** Without a refresh token, refreshing resolves to null, sends nothing and
      leaves storage as it was. */
  lemma RefreshWithoutRefreshToken(store: Store, reply: RefreshReply)
    requires !HasRefreshToken(store)
    ensures RefreshResult(store, reply) == Null
    ensures StoreAfterRefresh(store, reply) == store
    ensures RefreshRequests(store) == []
  {
  }

  /** A refreshed token is stored under `accessToken` as exactly the string returned. */
  lemma RefreshStoresWhatItReturns(store: Store, reply: RefreshReply)
    requires RefreshResult(store, reply).Text?
    ensures GetItem(StoreAfterRefresh(store, reply), AccessTokenKey) == RefreshResult(store, reply)
    ensures GetItem(StoreAfterRefresh(store, reply), RefreshTokenKey) == GetItem(store, RefreshTokenKey)
  {
  }

  /** A failed refresh (rejected fetch, non-ok status, unreadable body)
      resolves to null and changes nothing in storage: the refresh token stays. */
  lemma FailedRefreshChangesNothing(store: Store, reply: RefreshReply)
    requires reply.FetchRejected? || (reply.HttpReply? && (!IsOk(reply.status) || reply.body.Unparsable?))
    ensures RefreshResult(store, reply) == Null
    ensures StoreAfterRefresh(store, reply) == store
  {
  }

  /** An ok refresh reply whose body has no `accessToken` resolves to
      `undefined`, which is not `null`: the user counts as signed in, and the
      string "undefined" is stored as the access token. */
  lemma RefreshWithoutTokenField(store: Store, now: int, decode: Decoder, reply: RefreshReply)
    requires HasRefreshToken(store) && !HoldsUsableToken(store, now, decode)
    requires reply == HttpReply(200, RefreshData(Undefined))
    ensures AccessTokenResult(store, now, decode, reply) == Undefined
    ensures StoreAfterGetAccessToken(store, now, decode, reply)[AccessTokenKey] == "undefined"
  {
  }

  /** A token handed out without a request is the stored one and is not expired. */
  lemma TokenFromStorageIsUnexpired(store: Store, now: int, decode: Decoder, reply: RefreshReply)
    requires AccessTokenRequests(store, now, decode) == []
    requires AccessTokenResult(store, now, decode, reply) != Null
    ensures AccessTokenResult(store, now, decode, reply) == GetItem(store, AccessTokenKey)
    ensures !IsTokenExpired(store[AccessTokenKey], now, decode)
  {
  }

  /** The refreshed token is not checked for expiry: with an undecodable
      stored token and a server that answers with another undecodable token,
      `getAccessToken()` resolves to a token that is itself expired. */
  lemma RefreshedTokenIsNotChecked(now: int)
    ensures var store := map[RefreshTokenKey := "r"];
            var reply := HttpReply(200, RefreshData(Text("x")));
            var decode: Decoder := _ => Unreadable;
            AccessTokenResult(store, now, decode, reply) == Text("x") &&
            IsTokenExpired("x", now, decode)
  {
    KeysDistinct();
    var decode: Decoder := _ => Unreadable;
    assert "x"[0] != '.';
    assert IsTokenExpired("x", now, decode);
  }

  /** A stored token whose `exp` passed a second ago is replaced by the one
      the server returns, which is also what the caller gets. */
  lemma StaleTokenIsReplaced(store: Store, now: int, decode: Decoder, e: int)
    requires Truthy(GetItem(store, AccessTokenKey)) && HasRefreshToken(store)
    requires ReadPayload(store[AccessTokenKey], decode) == Claims(ExpSeconds(e))
    requires now == e * 1000 + 1000
    ensures var reply := HttpReply(200, RefreshData(Text("new")));
            AccessTokenResult(store, now, decode, reply) == Text("new") &&
            GetItem(StoreAfterGetAccessToken(store, now, decode, reply), AccessTokenKey) == Text("new") &&
            AccessTokenRequests(store, now, decode) == [RefreshRequest(store[RefreshTokenKey])]
  {
  }

  /** A stored token valid for another hour is handed out as it is, with no
      request and no change to storage, whatever the server would answer. */
  lemma FreshTokenIsKept(store: Store, now: int, decode: Decoder, e: int, reply: RefreshReply)
    requires Truthy(GetItem(store, AccessTokenKey))
    requires ReadPayload(store[AccessTokenKey], decode) == Claims(ExpSeconds(e))
    requires e * 1000 == now + 3600 * 1000
    ensures AccessTokenResult(store, now, decode, reply) == GetItem(store, AccessTokenKey)
    ensures AccessTokenRequests(store, now, decode) == []
    ensures StoreAfterGetAccessToken(store, now, decode, reply) == store
  {
  }

  /** Logging out twice is the same as logging out once. */
  lemma LogoutIdempotent(store: Store)
    ensures StoreAfterLogout(StoreAfterLogout(store)) == StoreAfterLogout(store)
  {
  }

  /** After `logout()` no token can be obtained: `isAuthenticated()` is false
      and nothing is sent, whatever the clock and the server. */
  lemma SignedOutAfterLogout(store: Store, now: int, decode: Decoder, reply: RefreshReply)
    ensures AccessTokenResult(StoreAfterLogout(store), now, decode, reply) == Null
    ensures AccessTokenRequests(StoreAfterLogout(store), now, decode) == []
  {
  }
}
