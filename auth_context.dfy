/** The React auth context: two state cells, `token` and `isAuthenticated`,
    kept in step with the `accessToken` storage key by the mount effect,
    `login` and `logout`. */
module AuthContext {
  import opened Js
  import opened Browser

  /** `localStorage` after the context's `login(token)`. */
  function StoreAfterLogin(store: Store, token: string): (s: Store)
    ensures GetItem(s, AccessTokenKey) == Text(token)
    ensures forall k :: k != AccessTokenKey ==> GetItem(s, k) == GetItem(store, k)
  {
    store[AccessTokenKey := token]
  }

  /** `localStorage` after the context's `logout()`: the refresh token stays. */
  function StoreAfterLogout(store: Store): (s: Store)
    ensures AccessTokenKey !in s
    ensures forall k :: k != AccessTokenKey ==> GetItem(s, k) == GetItem(store, k)
  {
    store - {AccessTokenKey}
  }

  /** The value a provider puts into the context: its two state cells (its
      `login` and `logout` are the provider's methods below). */
  datatype ContextValue = ContextValue(isAuthenticated: bool, token: Option<string>)

  /** The state of one `AuthProvider`, and the window it runs in. */
  class AuthProvider {
    var token: Option<string>
    var isAuthenticated: bool
    const window: Window

    /** The two state cells agree. */
    ghost predicate Valid()
      reads this
    {
      isAuthenticated <==> token.Some?
    }

    /** The context value this provider currently supplies. */
    function Value(): (v: ContextValue)
      reads this
      ensures v.isAuthenticated == isAuthenticated && v.token == token
    {
      ContextValue(isAuthenticated, token)
    }

    /** The initial state: `useState(null)` and `useState(false)`. */
    constructor (w: Window)
      ensures Valid()
      ensures token == None && !isAuthenticated && window == w
    {
      token := None;
      isAuthenticated := false;
      window := w;
    }

    /** The effect run once on mount: adopt a stored non-empty access token
        without checking its expiry; otherwise leave the state alone. */
    method MountEffect()
      requires Valid()
      modifies this
      ensures Valid()
      ensures Truthy(GetItem(window.storage, AccessTokenKey)) ==>
                token == Some(window.storage[AccessTokenKey]) && isAuthenticated
      ensures !Truthy(GetItem(window.storage, AccessTokenKey)) ==>
                token == old(token) && isAuthenticated == old(isAuthenticated)
    {
      var storedToken := window.GetItem(AccessTokenKey);
      if Truthy(storedToken) {
        token := Some(storedToken.s);
        isAuthenticated := true;
      }
    }

    /** `login(t)`: store the access token and mark the session signed in. */
    method Login(t: string)
      requires Valid()
      modifies this, window
      ensures Valid()
      ensures token == Some(t) && isAuthenticated
      ensures window.storage == StoreAfterLogin(old(window.storage), t)
      ensures window.href == old(window.href) && window.sent == old(window.sent)
    {
      window.SetItem(AccessTokenKey, t);
      token := Some(t);
      isAuthenticated := true;
    }

    /** `logout()`: remove the access token and reset both state cells. */
    method Logout()
      requires Valid()
      modifies this, window
      ensures Valid()
      ensures token == None && !isAuthenticated
      ensures window.storage == StoreAfterLogout(old(window.storage))
      ensures window.href == old(window.href) && window.sent == old(window.sent)
    {
      window.RemoveItem(AccessTokenKey);
      token := None;
      isAuthenticated := false;
    }
  }

  /** `useAuth()`: the provider's value, or the error thrown outside a provider. */
  function UseAuth(context: Option<ContextValue>): (r: Result<ContextValue, string>)
    ensures r.Success? <==> context.Some?
    ensures r.Success? ==> r.value == context.value
    ensures r.Failure? ==> r.error == "useAuth must be used within an AuthProvider"
  {
    match context
    case Some(value) => Success(value)
    case None => Failure("useAuth must be used within an AuthProvider")
  }

  /** Inside a provider, `useAuth()` returns that provider's current value. */
  lemma UseAuthInsideProvider(p: AuthProvider)
    ensures UseAuth(Some(p.Value())) == Success(p.Value())
    ensures UseAuth(Some(p.Value())).value.isAuthenticated == p.isAuthenticated
    ensures UseAuth(Some(p.Value())).value.token == p.token
  {
  }

  /** Logging in writes `accessToken` only: `refreshToken` and the
      `authToken` key that the fetch wrapper reads keep what they held. */
  lemma LoginWritesAccessTokenOnly(store: Store, t: string)
    ensures GetItem(StoreAfterLogin(store, t), AuthTokenKey) == GetItem(store, AuthTokenKey)
    ensures GetItem(StoreAfterLogin(store, t), RefreshTokenKey) == GetItem(store, RefreshTokenKey)
  {
    KeysDistinct();
  }

  /** Logging in and then out leaves storage as it was before, except that
      any earlier access token is gone. */
  lemma LoginThenLogout(store: Store, t: string)
    ensures StoreAfterLogout(StoreAfterLogin(store, t)) == StoreAfterLogout(store)
  {
  }
}
