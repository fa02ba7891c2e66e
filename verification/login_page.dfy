/** The login screen: the trim-and-require validation of the two fields,
    submission (which dispatches the login thunk only for a valid form),
    the role-based redirect effect, and what the session shows on screen. */
module LoginPage {
  import opened Wrappers
  import opened JsStrings
  import opened JsValues
  import opened Http
  import opened AuthSlice
  import opened AuthFlows
  import opened RouteGuards

  const UsernameRequired := "Username is required"
  const PasswordRequired := "Password is required"

  /** Per-field validation messages; `None` means the field is valid. */
  datatype LoginErrors = LoginErrors(username: Option<string>, password: Option<string>)

  /** The validation schema: each field, once trimmed, must be non-empty. */
  function ValidateLogin(username: string, password: string): (e: LoginErrors)
    ensures e.username.Some? <==> AllSpace(username)
    ensures e.password.Some? <==> AllSpace(password)
    ensures e.username.Some? ==> e.username.value == UsernameRequired
    ensures e.password.Some? ==> e.password.value == PasswordRequired
  {
    TrimEmptyIffAllSpace(username);
    TrimEmptyIffAllSpace(password);
    LoginErrors(
      if Trim(username) == "" then Some(UsernameRequired) else None,
      if Trim(password) == "" then Some(PasswordRequired) else None)
  }

  /** Submitting the form: the form library calls `onSubmit` only when no
      field has an error, and `onSubmit` dispatches `loginUser`. */
  function SubmitLogin(c: Client, username: string, password: string, reply: Reply<LoginData>): (r: Client)
    ensures (AllSpace(username) || AllSpace(password)) ==> r == c
    ensures !AllSpace(username) && !AllSpace(password) ==> r == LoginUser(c, reply).client
  {
    var e := ValidateLogin(username, password);
    if e.username.None? && e.password.None? then LoginUser(c, reply).client else c
  }

  /** The effect that follows a change of `user`: the route to navigate to,
      if any. */
  function LoginRedirect(user: Option<User>): (r: Option<string>)
    ensures user.Some? && user.value.role == AdminRole ==> r == Some(StoreHome)
    ensures user.Some? && user.value.role == BranchManagerRole ==> r == Some(BranchHome)
    ensures (user.None? || (user.value.role != AdminRole && user.value.role != BranchManagerRole)) ==> r.None?
  {
    RoleHome(user)
  }

  /** The redirect effect with the token check the protected routes make. */
  function LoginRedirectWithToken(token: Option<string>, user: Option<User>): (r: Option<string>)
    ensures r.Some? <==> Present(token) && LoginRedirect(user).Some?
    ensures r.Some? ==> r == LoginRedirect(user)
  {
    if Present(token) then LoginRedirect(user) else None
  }

  /** The submit button is disabled exactly while a thunk is in flight. */
  predicate SubmitDisabled(a: AuthState) {
    a.isLoading
  }

  /** The error alert is shown exactly when `error` is truthy. */
  predicate ShowsErrorAlert(a: AuthState) {
    HasError(a)
  }

  /** After a login attempt settles the button is enabled again, and a
      rejected attempt always shows a non-empty message. */
  lemma LoginAttemptOutcomeOnScreen(c: Client, reply: Reply<LoginData>)
    ensures !SubmitDisabled(LoginUser(c, reply).client.auth)
    ensures reply.Fail? <==> ShowsErrorAlert(LoginUser(c, reply).client.auth)
  {
  }

  /** A successful login of an admin or branch manager navigates to that
      role's home area. */
  lemma LoginNavigatesByRole(c: Client, data: LoginData)
    requires data.user.Some?
    ensures data.user.value.role == AdminRole ==>
              LoginRedirect(LoginUser(c, Ok(data)).client.auth.user) == Some(StoreHome)
    ensures data.user.value.role == BranchManagerRole ==>
              LoginRedirect(LoginUser(c, Ok(data)).client.auth.user) == Some(BranchHome)
  {
  }
}
