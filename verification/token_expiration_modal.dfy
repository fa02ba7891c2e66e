/** The "Session Expired" dialog: open exactly while the session's expiry
    flag is raised, impossible to dismiss, and its only button runs the
    logout thunk and then navigates to the landing route. */
module TokenExpirationModal {
  import opened Wrappers
  import opened Http
  import opened AuthSlice
  import opened AuthFlows
  import opened RouteGuards

  predicate DialogOpen(a: AuthState) {
    a.isTokenExpired
  }

  /** The dialog's `onOpenChange` handler: a dismiss attempt (escape, click
      outside) changes nothing. */
  function OnOpenChange(c: Client, open: bool): (r: Client)
    ensures DialogOpen(r.auth) == DialogOpen(c.auth)
    ensures r == c
  {
    c
  }

  /** Where the confirm handler navigates once the thunk settles: to the
      landing route on fulfilment; a rejection is only logged. */
  function NavigationAfterLogout(o: ThunkOutcome): (r: Option<string>)
    ensures r.Some? <==> o == Fulfilled
    ensures r.Some? ==> r.value == Landing
  {
    if o == Fulfilled then Some(Landing) else None
  }

  /** Confirming: dispatch the logout thunk, then navigate per its outcome. */
  function ConfirmLogout(c: Client, reply: Reply<()>): (r: (Client, Option<string>))
    ensures !DialogOpen(r.0.auth)
    ensures r.1 == Some(Landing)
    ensures SignedOut(r.0.auth)
  {
    var f := LogoutUser(c, reply);
    (f.client, NavigationAfterLogout(f.outcome))
  }

  /** Both logout reducer cases close the dialog. */
  lemma EitherLogoutOutcomeClosesDialog(a: AuthState, p: ErrorPayload)
    ensures !DialogOpen(LogoutFulfilled(a))
    ensures !DialogOpen(LogoutRejected(a, p))
  {
  }
}
