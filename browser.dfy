/** The browser globals the session layer touches: `localStorage`,
    `window.location.href`, and the requests it sends with `fetch`. */
module Browser {
  import opened Js

  /** A request sent with `fetch`. The server's answer is not part of the
      request: each operation that sends one receives that answer as a parameter. */
  datatype Request =
    | RefreshRequest(refreshToken: string)
      // `POST /api/auth` with body `{ action: 'refresh', refreshToken }`
    | ApiRequest(url: string, init: map<string, string>, headers: map<string, string>)
      // an authenticated data call: the request options and the headers sent

  /** `Response.ok`: the status is in the range 200-299. */
  predicate IsOk(status: int) {
    200 <= status <= 299
  }

  class Window {
    /** `localStorage` */
    var storage: Store
    /** `window.location.href` */
    var href: string
    /** every request sent so far, oldest first */
    ghost var sent: seq<Request>

    constructor (storage0: Store, href0: string)
      ensures storage == storage0 && href == href0 && sent == []
    {
      storage := storage0;
      href := href0;
      sent := [];
    }

    /** `localStorage.getItem(key)` */
    function GetItem(key: string): (r: JsToken)
      reads this
      ensures r == Js.GetItem(storage, key)
    {
      Js.GetItem(storage, key)
    }

    /** `localStorage.setItem(key, value)` */
    method SetItem(key: string, value: string)
      modifies this
      ensures storage == old(storage)[key := value]
      ensures href == old(href) && sent == old(sent)
    {
      storage := storage[key := value];
    }

    /** `localStorage.removeItem(key)`; a missing key is not an error. */
    method RemoveItem(key: string)
      modifies this
      ensures storage == old(storage) - {key}
      ensures href == old(href) && sent == old(sent)
    {
      storage := storage - {key};
    }

    /** `window.location.href = url` */
    method Navigate(url: string)
      modifies this
      ensures href == url
      ensures storage == old(storage) && sent == old(sent)
    {
      href := url;
    }

    /** Records that `fetch` sent `r`. */
    ghost method Send(r: Request)
      modifies this
      ensures sent == old(sent) + [r]
      ensures storage == old(storage) && href == old(href)
    {
      sent := sent + [r];
    }
  }
}
