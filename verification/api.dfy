/** The axios client of the dashboard: the browser's `localStorage` as a
    string map, the request interceptor that attaches the bearer token, the
    response interceptor that detects a server-declared expired token, and
    the `login`/`logout` calls with their storage side effects. The server's
    answer to each call is a `Reply` parameter. */
module Api {
  import opened Wrappers
  import opened JsValues
  import opened Http
  import opened AuthSlice

  type Storage = map<string, string>
  type Headers = map<string, string>

  const TokenKey := "token"
  const RefreshKey := "refresh"
  const AuthorizationHeader := "Authorization"
  const BearerPrefix := "Bearer "
  const ExpiredMessage := "Token is invalid or expired"

  /** `localStorage.getItem(key)`. */
  function GetItem(st: Storage, key: string): (r: Option<string>)
    ensures r.Some? <==> key in st
    ensures r.Some? ==> r.value == st[key]
  {
    if key in st then Some(st[key]) else None
  }

  /** The two maps agree on every key other than `k`. */
  ghost predicate SameExcept(h: Headers, g: Headers, k: string) {
    forall x :: x != k ==> (x in h <==> x in g) && (x in h ==> h[x] == g[x])
  }

  // ------------------------------------------------- request interceptor

  /** The request interceptor: `Authorization: Bearer <t>` when storage
      holds a truthy token `t`; the headers are otherwise left alone. */
  function WithBearer(st: Storage, headers: Headers): (h: Headers)
    ensures SameExcept(h, headers, AuthorizationHeader)
    ensures Present(GetItem(st, TokenKey)) ==>
              AuthorizationHeader in h && h[AuthorizationHeader] == BearerPrefix + st[TokenKey]
    ensures !Present(GetItem(st, TokenKey)) ==> h == headers
  {
    var token := GetItem(st, TokenKey);
    if Present(token) then headers[AuthorizationHeader := BearerPrefix + token.value] else headers
  }

  /** The header names the token exactly: stripping the prefix gives it back. */
  lemma BearerCarriesToken(st: Storage, headers: Headers)
    requires Present(GetItem(st, TokenKey))
    ensures WithBearer(st, headers)[AuthorizationHeader][|BearerPrefix|..] == st[TokenKey]
  {
  }

  // ------------------------------------------------ response interceptor

  /** The exact shape the server uses to declare the token dead: status
      401 and a first `messages` entry whose `message` is the fixed text. */
  predicate IsExpirySignal(resp: ErrorResponse) {
    && resp.status == 401
    && resp.data.messages.Some?
    && |resp.data.messages.value| > 0
    && resp.data.messages.value[0] == Entry(Some(ExpiredMessage))
  }

  predicate SignalsExpiry(e: HttpError) {
    e.response.Some? && IsExpirySignal(e.response.value)
  }

  /** The response interceptor's error branch. With a response, the same
      error is rejected again, after `setTokenExpired(true)` when the
      response is the expiry signal. Without a response, reading its
      `status` throws, so the call rejects with a `TypeError` instead. */
  function OnResponseError(a: AuthState, e: HttpError): (r: (AuthState, Thrown))
    ensures e.response.Some? ==> r.1 == AxiosError(e)
    ensures e.response.None? ==> r.1 == TypeError
    ensures SignalsExpiry(e) ==> r.0 == SetTokenExpired(a, true)
    ensures !SignalsExpiry(e) ==> r.0 == a
  {
    match e.response
    case None => (a, TypeError)
    case Some(resp) =>
      if IsExpirySignal(resp) then (SetTokenExpired(a, true), AxiosError(e)) else (a, AxiosError(e))
  }

  /** The response interceptor only ever raises the expiry flag, and raises
      it exactly for the expiry signal. */
  lemma OnResponseErrorOnlyRaisesFlag(a: AuthState, e: HttpError)
    ensures SameCredentials(OnResponseError(a, e).0, a)
    ensures OnResponseError(a, e).0.isLoading == a.isLoading
    ensures OnResponseError(a, e).0.error == a.error
    ensures OnResponseError(a, e).0.isTokenExpired == (a.isTokenExpired || SignalsExpiry(e))
  {
  }

  /** One call through the client: headers from the request interceptor;
      on success the reply body passes through unchanged, on failure the
      response interceptor decides the rejection and may raise the flag. */
  datatype Call<T> = Call(auth: AuthState, sent: Headers, result: Result<T, Thrown>)

  function Request<T>(a: AuthState, st: Storage, headers: Headers, reply: Reply<T>): (c: Call<T>)
    ensures c.sent == WithBearer(st, headers)
    ensures reply.Ok? ==> c.result == Success(reply.value) && c.auth == a
    ensures reply.Fail? ==> c.result.Failure? && (c.auth, c.result.error) == OnResponseError(a, reply.error)
  {
    var sent := WithBearer(st, headers);
    match reply
    case Ok(v) => Call(a, sent, Success(v))
    case Fail(e) =>
      var (a', t) := OnResponseError(a, e);
      Call(a', sent, Failure(t))
  }

  // ---------------------------------------------------------- login call

  /** What `login` writes: both tokens, and only when both are truthy. */
  function StoreTokens(st: Storage, data: LoginData): (r: Storage)
    ensures Present(data.access) && Present(data.refresh) ==>
              r == st[TokenKey := data.access.value][RefreshKey := data.refresh.value]
    ensures !(Present(data.access) && Present(data.refresh)) ==> r == st
  {
    if Present(data.access) && Present(data.refresh) then
      st[TokenKey := data.access.value][RefreshKey := data.refresh.value]
    else st
  }

  datatype LoginCall = LoginCall(auth: AuthState, storage: Storage, sent: Headers, result: Result<LoginData, Thrown>)

  /** `login(credentials)`: POST `/login/`; on success store the tokens and
      return the reply body unchanged; on failure rethrow, storage untouched. */
  function Login(a: AuthState, st: Storage, reply: Reply<LoginData>): (r: LoginCall)
    ensures r.sent == WithBearer(st, map[])
    ensures reply.Ok? ==> r.result == Success(reply.value) && r.auth == a
    ensures reply.Ok? ==> r.storage == StoreTokens(st, reply.value)
    ensures reply.Fail? ==> r.storage == st && r.result.Failure?
    ensures reply.Fail? ==> (r.auth, r.result.error) == OnResponseError(a, reply.error)
  {
    var c := Request(a, st, map[], reply);
    match c.result
    case Success(data) => LoginCall(c.auth, StoreTokens(st, data), c.sent, c.result)
    case Failure(_) => LoginCall(c.auth, st, c.sent, c.result)
  }

  // --------------------------------------------------------- logout call

  /** Both token keys removed; every other key kept. */
  function ClearTokens(st: Storage): (r: Storage)
    ensures TokenKey !in r && RefreshKey !in r
    ensures forall k :: k != TokenKey && k != RefreshKey ==> (k in r <==> k in st) && (k in r ==> r[k] == st[k])
  {
    st - {TokenKey, RefreshKey}
  }

  /** A logout call's effect. It carries no error: `logout` never rethrows. */
  datatype LogoutCall = LogoutCall(auth: AuthState, storage: Storage, sent: Headers, refreshToken: Option<string>)

  /** `logout()`: POST `/logout/` with the stored refresh token as
      `refresh_token`; a failure is caught and logged; both token keys are
      removed in every case. */
  function Logout(a: AuthState, st: Storage, reply: Reply<()>): (r: LogoutCall)
    ensures r.refreshToken == GetItem(st, RefreshKey)
    ensures r.storage == ClearTokens(st)
    ensures r.sent == WithBearer(st, map[])
    ensures reply.Ok? ==> r.auth == a
    ensures reply.Fail? ==> r.auth == OnResponseError(a, reply.error).0
  {
    var refresh := GetItem(st, RefreshKey);
    var c := Request(a, st, map[], reply);
    LogoutCall(c.auth, ClearTokens(st), c.sent, refresh)
  }

  /** After logout no request carries a bearer token. */
  lemma NoBearerAfterLogout(a: AuthState, st: Storage, reply: Reply<()>, headers: Headers)
    ensures WithBearer(Logout(a, st, reply).storage, headers) == headers
  {
  }
}
