/** The session as a whole: the `auth` record together with the token
    storage, and the `loginUser`/`logoutUser` thunks as pure transitions of
    that pair. Each thunk runs its pending case, the API call (with both
    interceptors) and then its fulfilled or rejected case, in that order. */
module AuthFlows {
  import opened Wrappers
  import opened JsValues
  import opened Http
  import opened AuthSlice
  import opened Api

  datatype Client = Client(auth: AuthState, storage: Storage)

  datatype ThunkOutcome = Fulfilled | Rejected

  /** The state after one thunk, and how its promise settled. */
  datatype Flow = Flow(client: Client, outcome: ThunkOutcome)

  const Start := Client(AuthSlice.Initial, map[])

  /** `dispatch(loginUser(credentials))` answered by `reply`. */
  function LoginUser(c: Client, reply: Reply<LoginData>): (r: Flow)
    ensures r.outcome == Fulfilled <==> reply.Ok?
    ensures !r.client.auth.isLoading
    ensures reply.Ok? ==>
              && r.client.auth.user == reply.value.user
              && r.client.auth.token == reply.value.access
              && r.client.auth.refreshToken == reply.value.refresh
              && r.client.auth.error.None? && !r.client.auth.isTokenExpired
              && r.client.storage == StoreTokens(c.storage, reply.value)
    ensures reply.Fail? ==>
              && SameCredentials(r.client.auth, c.auth)
              && r.client.storage == c.storage
              && r.client.auth.error == Some(LoginRejectionPayload(OnResponseError(c.auth, reply.error).1))
              && r.client.auth.isTokenExpired == (c.auth.isTokenExpired || SignalsExpiry(reply.error))
  {
    var pending := LoginPending(c.auth);
    var call := Login(pending, c.storage, reply);
    match call.result
    case Success(data) => Flow(Client(LoginFulfilled(call.auth, data), call.storage), Fulfilled)
    case Failure(t) => Flow(Client(LoginRejected(call.auth, LoginRejectionPayload(t)), call.storage), Rejected)
  }

  /** `dispatch(logoutUser())` answered by `reply`. Because `logout` catches
      the transport error, the thunk fulfils whatever the server does. */
  function LogoutUser(c: Client, reply: Reply<()>): (r: Flow)
    ensures r.outcome == Fulfilled
    ensures SignedOut(r.client.auth) && !r.client.auth.isLoading
    ensures r.client.auth.error == c.auth.error
    ensures r.client.storage == ClearTokens(c.storage)
  {
    var pending := LogoutPending(c.auth);
    var call := Logout(pending, c.storage, reply);
    Flow(Client(LogoutFulfilled(call.auth), call.storage), Fulfilled)
  }

  /** Any other API call through the client (the CRUD calls of the tables):
      only the response interceptor can touch the session. */
  function ApiCall<T>(c: Client, reply: Reply<T>): (r: (Client, Result<T, Thrown>))
    ensures r.0.storage == c.storage
    ensures r.0.auth == c.auth.(isTokenExpired := c.auth.isTokenExpired || (reply.Fail? && SignalsExpiry(reply.error)))
    ensures reply.Ok? <==> r.1.Success?
  {
    var call := Request(c.auth, c.storage, map[], reply);
    if reply.Fail? then OnResponseErrorOnlyRaisesFlag(c.auth, reply.error); (Client(call.auth, c.storage), call.result)
    else (Client(call.auth, c.storage), call.result)
  }

  // ------------------------------------------------------------- traces

  /** Everything that can happen to the session from the outside. */
  datatype Event =
    | LoginAttempt(login: Reply<LoginData>)
    | LogoutAttempt(logout: Reply<()>)
    | OtherRequest(other: Reply<()>)
    | ClearAuthAction

  function Step(c: Client, e: Event): Client {
    match e
    case LoginAttempt(reply) => LoginUser(c, reply).client
    case LogoutAttempt(reply) => LogoutUser(c, reply).client
    case OtherRequest(reply) => ApiCall(c, reply).0
    case ClearAuthAction => Client(ClearAuth(c.auth), c.storage)
  }

  function Run(c: Client, es: seq<Event>): Client
    decreases |es|
  {
    if es == [] then c else Run(Step(c, es[0]), es[1..])
  }

  /** Between thunks: nothing is loading, and storage holds either both
      tokens (both truthy) or neither. */
  predicate Settled(c: Client) {
    && !c.auth.isLoading
    && (TokenKey in c.storage <==> RefreshKey in c.storage)
    && (TokenKey in c.storage ==> c.storage[TokenKey] != "" && c.storage[RefreshKey] != "")
  }

  lemma StepKeepsSettled(c: Client, e: Event)
    requires Settled(c)
    ensures Settled(Step(c, e))
  {
  }

  /** Every sequence of completed thunks and calls keeps the session
      settled: `login` writes both keys or neither, `logout` removes both,
      and every thunk ends in a case that clears `isLoading`. */
  lemma {:induction false} RunKeepsSettled(c: Client, es: seq<Event>)
    requires Settled(c)
    ensures Settled(Run(c, es))
    decreases |es|
  {
    if es != [] {
      StepKeepsSettled(c, es[0]);
      RunKeepsSettled(Step(c, es[0]), es[1..]);
    }
  }

  // ---------------------------------------------------------- scenarios

  /** A failed login whose reply is the expiry signal leaves the expiry flag
      raised on a session that has no token. */
  lemma ExpiredWithoutToken()
    ensures var e := HttpError(Some(ErrorResponse(401, ResponseData(None, Some([Entry(Some(ExpiredMessage))])))));
            var r := LoginUser(Start, Fail(e)).client.auth;
            r.isTokenExpired && r.token.None? && r.user.None?
  {
  }

  /** Wrong credentials: the server's `detail` becomes the error, the
      session stays anonymous. */
  lemma WrongPasswordScenario()
    ensures var e := HttpError(Some(ErrorResponse(400, ResponseData(Some("Invalid credentials"), None))));
            var r := LoginUser(Start, Fail(e));
            r.outcome == Rejected && r.client.auth.error == Some(Message("Invalid credentials"))
            && r.client.auth.user.None? && r.client.storage == map[]
  {
  }

  /** Whatever the failure, the login page's alert reads the server's
      `detail` when the failure carries a response with one, and the
      fallback message otherwise. */
  lemma LoginFailureMessage(c: Client, e: HttpError)
    ensures var detail := if e.response.Some? then e.response.value.data.detail else None;
            LoginUser(c, Fail(e)).client.auth.error ==
            Some(Message(if Present(detail) then detail.value else LoginFallback))
  {
  }

  /** Logout while the network is down still signs out and clears storage. */
  lemma OfflineLogoutScenario(c: Client)
    ensures var r := LogoutUser(c, Fail(HttpError(None)));
            r.outcome == Fulfilled && SignedOut(r.client.auth)
            && TokenKey !in r.client.storage && RefreshKey !in r.client.storage
  {
  }
}
