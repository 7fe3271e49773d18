/** fe/src/api/axios.js: the shared HTTP client. Its request interceptor
    rewrites the headers of each outgoing request in place, and its error
    interceptor clears the stored session on a 401. Browser storage is an
    object holding a map; the base URL is `AssetUrl.ApiBase`. */
module ApiClient {
  import opened Common
  import AuthMiddleware

  const AuthorizationHeader: string := "Authorization"
  const ContentTypeHeader: string := "Content-Type"
  const Json: string := "application/json"

  /** `localStorage`. */
  class Storage {
    var items: map<string, string>

    constructor (items: map<string, string>)
      ensures this.items == items
    {
      this.items := items;
    }

    /** `getItem(key)`: `null` for a missing key. */
    function GetItem(key: string): (r: Option<string>)
      reads this
      ensures r.Some? <==> key in items
      ensures r.Some? ==> r.value == items[key]
    {
      if key in items then Some(items[key]) else None
    }

    method RemoveItem(key: string)
      modifies this
      ensures items == old(items) - {key}
    {
      items := items - {key};
    }
  }

  /** The request config the interceptor receives: its headers, and whether
      its data is a `FormData`. */
  class RequestConfig {
    var headers: map<string, string>
    const isFormData: bool

    constructor (headers: map<string, string>, isFormData: bool)
      ensures this.headers == headers && this.isFormData == isFormData
    {
      this.headers := headers;
      this.isFormData := isFormData;
    }
  }

  predicate HeaderSet(h: map<string, string>, name: string) {
    name in h && h[name] != ""
  }

  /** The headers after the request interceptor: a stored token, when truthy,
      becomes `Authorization: Bearer <token>`; a JSON request without a
      truthy `Content-Type` gets `application/json`; a form request loses a
      truthy `Content-Type` so that the browser can set the boundary. No
      other header changes. */
  function Rewritten(h: map<string, string>, token: Option<string>, isFormData: bool): (r: map<string, string>)
    ensures TruthyStr(token) ==> AuthorizationHeader in r && r[AuthorizationHeader] == AuthMiddleware.BearerPrefix + token.value
    ensures !TruthyStr(token) ==> (AuthorizationHeader in r <==> AuthorizationHeader in h)
    ensures !TruthyStr(token) && AuthorizationHeader in h ==> r[AuthorizationHeader] == h[AuthorizationHeader]
    ensures !isFormData && !HeaderSet(h, ContentTypeHeader) ==> ContentTypeHeader in r && r[ContentTypeHeader] == Json
    ensures !isFormData && HeaderSet(h, ContentTypeHeader) ==> ContentTypeHeader in r && r[ContentTypeHeader] == h[ContentTypeHeader]
    ensures isFormData && HeaderSet(h, ContentTypeHeader) ==> ContentTypeHeader !in r
    ensures isFormData && !HeaderSet(h, ContentTypeHeader) ==>
              (ContentTypeHeader in r <==> ContentTypeHeader in h) && (ContentTypeHeader in h ==> r[ContentTypeHeader] == h[ContentTypeHeader])
    ensures forall k :: k != AuthorizationHeader && k != ContentTypeHeader ==>
              (k in r <==> k in h) && (k in h ==> r[k] == h[k])
  {
    var withAuth := if TruthyStr(token) then h[AuthorizationHeader := AuthMiddleware.BearerPrefix + token.value] else h;
    if !isFormData && !HeaderSet(withAuth, ContentTypeHeader) then withAuth[ContentTypeHeader := Json]
    else if isFormData && HeaderSet(withAuth, ContentTypeHeader) then withAuth - {ContentTypeHeader}
    else withAuth
  }

  /** The request interceptor. */
  method InterceptRequest(config: RequestConfig, storage: Storage)
    modifies config`headers
    ensures config.headers == Rewritten(old(config.headers), storage.GetItem("token"), config.isFormData)
  {
    var token := storage.GetItem("token");
    if TruthyStr(token) {
      config.headers := config.headers[AuthorizationHeader := AuthMiddleware.BearerPrefix + token.value];
    }
    if !config.isFormData && !HeaderSet(config.headers, ContentTypeHeader) {
      config.headers := config.headers[ContentTypeHeader := Json];
    } else if config.isFormData && HeaderSet(config.headers, ContentTypeHeader) {
      config.headers := config.headers - {ContentTypeHeader};
    }
  }

  /** Running the interceptor on its own output changes nothing more. */
  lemma RewrittenIdempotent(h: map<string, string>, token: Option<string>, isFormData: bool)
    ensures Rewritten(Rewritten(h, token, isFormData), token, isFormData) == Rewritten(h, token, isFormData)
  {
    var r := Rewritten(h, token, isFormData);
    var rr := Rewritten(r, token, isFormData);
    assert rr.Keys == r.Keys;
  }

  /** The server reads back the stored token from the header the client
      wrote, whatever cookie accompanies it. */
  lemma ServerSeesStoredToken(h: map<string, string>, token: string, isFormData: bool, cookie: Option<string>)
    requires token != ""
    ensures var r := Rewritten(h, Some(token), isFormData);
            AuthMiddleware.GetToken(Some(r[AuthorizationHeader]), cookie) == Some(token)
  {
    AuthMiddleware.BearerRoundTrip(token, cookie);
  }

  /** The error interceptor: a 401 answer clears the stored token and user;
      the error is passed on in every case. */
  method OnResponseError(storage: Storage, status: Option<int>) returns (rejected: bool)
    modifies storage
    ensures rejected
    ensures status == Some(401) ==> storage.items == old(storage.items) - {"token", "user"}
    ensures status != Some(401) ==> storage.items == old(storage.items)
  {
    if status == Some(401) {
      storage.RemoveItem("token");
      storage.RemoveItem("user");
      assert storage.items == old(storage.items) - {"token", "user"};
    }
    rejected := true;
  }

  /** After a 401 the next request carries no bearer token of its own. */
  lemma NoTokenAfterUnauthorized(items: map<string, string>, h: map<string, string>, isFormData: bool)
    requires AuthorizationHeader !in h
    ensures var cleared := items - {"token", "user"};
            var token := if "token" in cleared then Some(cleared["token"]) else None;
            AuthorizationHeader !in Rewritten(h, token, isFormData)
  {
  }
}
