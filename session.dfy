/** How the three storage users fit together: the token helpers, the auth
    context and the fetch wrapper share one `localStorage`, but the wrapper
    reads `authToken`, a key that neither of the others ever writes. */
module Session {
  import opened Js
  import TokenValidator
  import Auth
  import Api
  import AuthContext

  /** Every operation that touches storage, with the inputs it depends on. */
  datatype Op =
    | ContextLogin(token: string)
    | ContextLogout
    | HelperLogout
    | Refresh(refreshReply: Auth.RefreshReply)
    | ObtainToken(now: int, decode: TokenValidator.Decoder, reply: Auth.RefreshReply)
      // `getAccessToken()`, and `isAuthenticated()` which stores the same
    | Fetch(apiReply: Api.ApiReply)
    | Mount  // the auth context's mount effect only reads

  /** Storage after one operation. */
  function Apply(store: Store, op: Op): Store {
    match op
    case ContextLogin(t) => AuthContext.StoreAfterLogin(store, t)
    case ContextLogout => AuthContext.StoreAfterLogout(store)
    case HelperLogout => Auth.StoreAfterLogout(store)
    case Refresh(reply) => Auth.StoreAfterRefresh(store, reply)
    case ObtainToken(now, decode, reply) => Auth.StoreAfterGetAccessToken(store, now, decode, reply)
    case Fetch(reply) => Api.StoreAfterFetch(store, reply)
    case Mount => store
  }

  /** Storage after a sequence of operations, first to last. */
  function Run(store: Store, ops: seq<Op>): Store
    decreases |ops|
  {
    if ops == [] then store else Run(Apply(store, ops[0]), ops[1..])
  }

  /** No operation writes `authToken`: it keeps its value or disappears. */
  lemma ApplyNeverWritesAuthToken(store: Store, op: Op)
    ensures AuthTokenKey in Apply(store, op) ==>
              AuthTokenKey in store && Apply(store, op)[AuthTokenKey] == store[AuthTokenKey]
  {
    KeysDistinct();
    var s := Apply(store, op);
    assert GetItem(s, AuthTokenKey) == GetItem(store, AuthTokenKey) || AuthTokenKey !in s;
  }

  /** ... so across any session `authToken` keeps its value or disappears. */
  lemma {:induction false} RunNeverWritesAuthToken(store: Store, ops: seq<Op>)
    ensures AuthTokenKey in Run(store, ops) ==>
              AuthTokenKey in store && Run(store, ops)[AuthTokenKey] == store[AuthTokenKey]
    decreases |ops|
  {
    if ops != [] {
      ApplyNeverWritesAuthToken(store, ops[0]);
      RunNeverWritesAuthToken(Apply(store, ops[0]), ops[1..]);
    }
  }

  /** Starting without `authToken`, every authenticated data call fails with
      "No authentication token found" before sending anything, however the
      user logs in or refreshes. */
  lemma FetchNeverFindsToken(store: Store, ops: seq<Op>, reply: Api.ApiReply)
    requires AuthTokenKey !in store
    ensures !Api.HasAuthToken(Run(store, ops))
    ensures Api.FetchOutcome(Run(store, ops), reply) == Failure(Api.NoToken)
  {
    RunNeverWritesAuthToken(store, ops);
  }

  /** Logging in through the context with a token that is not expired makes
      `getAccessToken()` hand that token back without a request. */
  lemma ContextLoginThenToken(store: Store, t: string, now: int, decode: TokenValidator.Decoder,
                              reply: Auth.RefreshReply)
    requires t != "" && !TokenValidator.IsTokenExpired(t, now, decode)
    ensures Auth.AccessTokenResult(AuthContext.StoreAfterLogin(store, t), now, decode, reply) == Text(t)
    ensures Auth.AccessTokenRequests(AuthContext.StoreAfterLogin(store, t), now, decode) == []
  {
    assert AuthContext.StoreAfterLogin(store, t)[AccessTokenKey] == t;
  }

  /** The context's `logout()` keeps the refresh token, so the helpers'
      `isAuthenticated()` can still come out true afterwards by refreshing;
      the helpers' own `logout()` rules that out. */
  lemma ContextLogoutStillRefreshes(store: Store, now: int, decode: TokenValidator.Decoder, x: string)
    requires Auth.HasRefreshToken(store)
    ensures var reply := Auth.HttpReply(200, Auth.RefreshData(Text(x)));
            Auth.AccessTokenResult(AuthContext.StoreAfterLogout(store), now, decode, reply) == Text(x) &&
            Auth.AccessTokenResult(Auth.StoreAfterLogout(store), now, decode, reply) == Null
  {
    KeysDistinct();
    var s := AuthContext.StoreAfterLogout(store);
    assert GetItem(s, RefreshTokenKey) == GetItem(store, RefreshTokenKey);
    assert !Auth.HoldsUsableToken(s, now, decode);
  }
}
