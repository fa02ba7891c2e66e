/** The `auth` slice of the Redux store: the session record and the pure
    reducer cases for the login and logout thunks, `setTokenExpired` and
    `clearAuth`. Each case is a function from the old record to the new. */
module AuthSlice {
  import opened Wrappers
  import opened JsValues
  import opened Http

  datatype User = User(id: int, username: string, email: string, role: string)

  /** What a rejected thunk stores in `error`: a message, or (for logout
      only) the server's error body. */
  datatype ErrorPayload = Message(text: string) | Body(data: ResponseData)

  datatype AuthState = AuthState(
    user: Option<User>,
    token: Option<string>,
    refreshToken: Option<string>,
    isLoading: bool,
    error: Option<ErrorPayload>,
    isTokenExpired: bool)

  /** The body of a successful `/login/` reply; any field may be missing. */
  datatype LoginData = LoginData(access: Option<string>, refresh: Option<string>, user: Option<User>)

  const Initial := AuthState(None, None, None, false, None, false)

  const LoginFallback := "An error occurred"
  const LogoutFallback := "An error occurred during logout"

  /** `user`, `token` and `refreshToken` of the two records agree. */
  predicate SameCredentials(a: AuthState, b: AuthState) {
    a.user == b.user && a.token == b.token && a.refreshToken == b.refreshToken
  }

  /** No user, no tokens and no expiry flag: what both logout outcomes and
      `clearAuth` leave behind. */
  predicate SignedOut(a: AuthState) {
    a.user.None? && a.token.None? && a.refreshToken.None? && !a.isTokenExpired
  }

  /** Truthiness of the `error` field. */
  predicate HasError(a: AuthState) {
    match a.error
    case None => false
    case Some(Message(text)) => text != ""
    case Some(Body(_)) => true
  }

  // ------------------------------------------------------ thunk payloads

  /** The login thunk's rejection value: the error body's `detail` when it
      is truthy, the fixed fallback otherwise (also when nothing answered). */
  function LoginRejectionPayload(t: Thrown): (p: ErrorPayload)
    ensures p.Message? && p.text != ""
    ensures (t.AxiosError? && t.error.response.Some? && Present(t.error.response.value.data.detail))
              ==> p.text == t.error.response.value.data.detail.value
    ensures !(t.AxiosError? && t.error.response.Some? && Present(t.error.response.value.data.detail)) ==>
              p.text == LoginFallback
  {
    match t
    case AxiosError(HttpError(Some(resp))) =>
      if Present(resp.data.detail) then Message(resp.data.detail.value) else Message(LoginFallback)
    case _ => Message(LoginFallback)
  }

  /** The logout thunk's rejection value: the whole error body when a
      response arrived, the fixed fallback otherwise. */
  function LogoutRejectionPayload(t: Thrown): (p: ErrorPayload)
    ensures p.Body? <==> t.AxiosError? && t.error.response.Some?
    ensures t.AxiosError? && t.error.response.Some? ==> p == Body(t.error.response.value.data)
    ensures p.Message? ==> p.text == LogoutFallback
  {
    match t
    case AxiosError(HttpError(Some(resp))) => Body(resp.data)
    case _ => Message(LogoutFallback)
  }

  // -------------------------------------------------------- reducer cases

  function SetTokenExpired(a: AuthState, b: bool): (r: AuthState)
    ensures r.isTokenExpired == b
    ensures SameCredentials(r, a) && r.isLoading == a.isLoading && r.error == a.error
  {
    a.(isTokenExpired := b)
  }

  function ClearAuth(a: AuthState): (r: AuthState)
    ensures SignedOut(r) && r.error.None?
    ensures r.isLoading == a.isLoading
  {
    a.(user := None, token := None, refreshToken := None, error := None, isTokenExpired := false)
  }

  function LoginPending(a: AuthState): (r: AuthState)
    ensures r.isLoading && r.error.None?
    ensures SameCredentials(r, a) && r.isTokenExpired == a.isTokenExpired
  {
    a.(isLoading := true, error := None)
  }

  function LoginFulfilled(a: AuthState, p: LoginData): (r: AuthState)
    ensures r.user == p.user && r.token == p.access && r.refreshToken == p.refresh
    ensures !r.isLoading && r.error.None? && !r.isTokenExpired
  {
    a.(isLoading := false, user := p.user, token := p.access, error := None,
       refreshToken := p.refresh, isTokenExpired := false)
  }

  function LoginRejected(a: AuthState, p: ErrorPayload): (r: AuthState)
    ensures !r.isLoading && r.error == Some(p)
    ensures SameCredentials(r, a) && r.isTokenExpired == a.isTokenExpired
  {
    a.(isLoading := false, error := Some(p))
  }

  function LogoutPending(a: AuthState): (r: AuthState)
    ensures r.isLoading
    ensures SameCredentials(r, a) && r.error == a.error && r.isTokenExpired == a.isTokenExpired
  {
    a.(isLoading := true)
  }

  function LogoutFulfilled(a: AuthState): (r: AuthState)
    ensures SignedOut(r) && !r.isLoading
    ensures r.error == a.error
  {
    a.(user := None, token := None, refreshToken := None, isTokenExpired := false, isLoading := false)
  }

  function LogoutRejected(a: AuthState, p: ErrorPayload): (r: AuthState)
    ensures SignedOut(r) && !r.isLoading
    ensures r.error == Some(p)
  {
    a.(user := None, token := None, refreshToken := None, isTokenExpired := false,
       isLoading := false, error := Some(p))
  }

  // ------------------------------------------------------------- lemmas

  /** A fulfilled login overwrites every field: the result does not depend
      on the record it was applied to. */
  lemma LoginFulfilledForgetsPast(a: AuthState, b: AuthState, p: LoginData)
    ensures LoginFulfilled(a, p) == LoginFulfilled(b, p)
  {
  }

  /** The two logout outcomes differ at most in `error`. */
  lemma LogoutOutcomesAgree(a: AuthState, p: ErrorPayload)
    ensures LogoutRejected(a, p) == LogoutFulfilled(a).(error := Some(p))
  {
  }

  /** `clearAuth` is idempotent. */
  lemma ClearAuthIdempotent(a: AuthState)
    ensures ClearAuth(ClearAuth(a)) == ClearAuth(a)
  {
  }

  /** After a fulfilled logout, `clearAuth` changes nothing but `error`. */
  lemma ClearAuthAfterLogout(a: AuthState)
    ensures ClearAuth(LogoutFulfilled(a)) == LogoutFulfilled(a).(error := None)
  {
  }

  /** `setTokenExpired` applied twice keeps only the second value. */
  lemma SetTokenExpiredLastWins(a: AuthState, b: bool, c: bool)
    ensures SetTokenExpired(SetTokenExpired(a, b), c) == SetTokenExpired(a, c)
  {
  }
}
