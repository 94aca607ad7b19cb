/** JavaScript values that the session layer passes around, and the browser's
    string key-value storage (`localStorage`) as a map. */
module Js {

  datatype Option<+T> = None | Some(value: T) {
    function GetOr(default: T): T {
      match this
      case Some(v) => v
      case None => default
    }
  }

  datatype Result<+T, +E> = Success(value: T) | Failure(error: E)

  /** A value of TypeScript type `string | null | undefined`. */
  datatype JsToken = Null | Undefined | Text(s: string)

  /** JavaScript truthiness on such a value: `null`, `undefined` and `""` are falsy. */
  predicate Truthy(v: JsToken) {
    v.Text? && v.s != ""
  }

  /** `String(v)`: what `localStorage.setItem` stores and what a template
      literal prints for the value. */
  function ToJsString(v: JsToken): (r: string)
    ensures v.Text? ==> r == v.s
    ensures v == Null ==> r == "null"
    ensures v == Undefined ==> r == "undefined"
  {
    match v
    case Null => "null"
    case Undefined => "undefined"
    case Text(s) => s
  }

  /** The contents of `localStorage`. */
  type Store = map<string, string>

  /** The keys the token helpers and the auth context write. */
  const AccessTokenKey: string := "accessToken"
  const RefreshTokenKey: string := "refreshToken"
  /** The key the authenticated-fetch wrapper reads. */
  const AuthTokenKey: string := "authToken"

  /** `localStorage.getItem(key)`: the stored string, or `null` for a missing key. */
  function GetItem(store: Store, key: string): (r: JsToken)
    ensures r != Undefined
    ensures r.Text? <==> key in store
    ensures key in store ==> r.s == store[key]
  {
    if key in store then Text(store[key]) else Null
  }

  /** The three storage keys are pairwise distinct. */
  lemma KeysDistinct()
    ensures AccessTokenKey != RefreshTokenKey
    ensures AccessTokenKey != AuthTokenKey
    ensures RefreshTokenKey != AuthTokenKey
  {
    assert |AccessTokenKey| == 11 && |AuthTokenKey| == 9;
    assert RefreshTokenKey[0] != AccessTokenKey[0] && RefreshTokenKey[0] != AuthTokenKey[0];
  }
}
