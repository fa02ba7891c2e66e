# House of Tea dashboard: session, guards, editors and tables in Dafny

This project models the sequential logic of the House of Tea stock
dashboard, a React/Redux front end, and proves properties of it. Every
React handler becomes a pure function of the state it reads and of the
outcome of the API call it awaits. An API call's outcome is a
parameter: `Http.Reply` is `Ok(value)` or `Fail(error)`, and the error
may or may not carry a server response.

What is modelled:

- **The session.** The `auth` slice (`AuthSlice`) holds the record
  `{user, token, refreshToken, isLoading, error, isTokenExpired}` and its
  eight reducer cases. The axios client (`Api`) adds:
  - `localStorage` as a map from keys to strings;
  - the bearer-header request interceptor;
  - the 401 "Token is invalid or expired" response interceptor;
  - the `login` and `logout` calls.

  `AuthFlows` puts these together into whole thunks and proves that every
  sequence of thunks and API calls keeps storage consistent.
- **Navigation.** `RouteGuards` holds the three guard components.
  `LoginPage` holds the login form's validation, submission and role
  redirect. `TokenExpirationModal` holds the "Session Expired" dialog.
  `AppRoutes` holds the route table of `App.jsx`. `TokenExpiry` models
  `isTokenExpired`, with the decoded `exp` claim and the clock as
  parameters.
- **The two multi-row editors.**
  - `OutflowForm` models the outflow form with its error map keyed by row
    id.
  - `InflowModal` models the multi-product inflow dialog.
  - Both build on the id-keyed list operations of `Rows`.
- **The tables.** `ProductsTable`, `ProductRequestsTable`,
  `BranchProductsTable` and `Notifications` model the id-keyed updates,
  deletes and appends and the small classifiers: stock band, status
  badge, status switch, barcode address and view precedence.
- **Reports.** `BranchReports` models the column-header to field-key
  mapping, the case-insensitive search filter and the `useReport` fetch
  state.
- **JavaScript semantics.** `JsValues` models truthiness and `String(v)`.
  `JsStrings` models `trim`, `toLowerCase`, `includes`, number-to-string
  and `parseInt`. `Seqs` models `Array.prototype.filter` and `findIndex`.

In these places the code behaves in ways a reader may not expect; the
model follows the code:

- A fulfilled login stores whatever `user`, `access` and `refresh` the
  reply holds. It does not check that they are present (`AuthSlice.LoginFulfilled`).
- A rejected login leaves `user` and the tokens as they were. It does not
  reset `user` to null (`AuthSlice.LoginRejected`).
- The expiry flag can be raised while no token is held
  (`AuthFlows.ExpiredWithoutToken`).
- `clearAuth` does not reset `isLoading` (`AuthSlice.ClearAuth`).
- `logout` catches its own transport errors. So the logout thunk always
  fulfils, and the rejected reducer case is not reached by a network
  failure (`AuthFlows.LogoutUser`).

The form corrections below (`OutflowForm.UpdateChecked`) clear a row's
error entry when its product is not in the list. The written code keeps
the entry in that case. Under `OutflowForm.Accurate` such a row never has
an entry, so the two agree (`OutflowForm.QuantityEditsAgree`).

## Model

| member | source | states |
|---|---|---|
| AuthSlice.LoginRejectionPayload | src/features/slices/authSlice.js:4-14 | The login rejection is the response's `detail` when the error has a response with a truthy `detail`, else "An error occurred"; never empty |
| AuthSlice.LogoutRejectionPayload | src/features/slices/authSlice.js:17-28 | The logout rejection is the whole response body when there is a response, else the fixed logout message |
| AuthFlows.LoginFailureMessage | src/features/slices/authSlice.js:4-14 | For every failed login the stored error is the response's truthy `detail`, else "An error occurred" |
| AuthSlice.SetTokenExpired | src/features/slices/authSlice.js:41-43 | Only `isTokenExpired` changes, to the given value |
| AuthSlice.ClearAuth | src/features/slices/authSlice.js:44-50 | User, tokens and error become null and the expiry flag false; `isLoading` is kept |
| AuthSlice.LoginPending | src/features/slices/authSlice.js:54-57 | Loading on and error cleared; user, tokens and expiry flag unchanged |
| AuthSlice.LoginFulfilled | src/features/slices/authSlice.js:58-65 | User and both tokens come from the payload as they are; loading off, error cleared, expiry flag false |
| AuthSlice.LoginRejected | src/features/slices/authSlice.js:66-69 | Loading off and error set to the payload; user, tokens and expiry flag unchanged |
| AuthSlice.LogoutPending | src/features/slices/authSlice.js:70-72 | Only `isLoading` changes, to true |
| AuthSlice.LogoutFulfilled | src/features/slices/authSlice.js:73-79 | Signed out (no user, no tokens, flag false), loading off, error kept |
| AuthSlice.LogoutRejected | src/features/slices/authSlice.js:80-87 | Signed out and loading off, with the payload as error |
| AuthSlice.LoginFulfilledForgetsPast | src/features/slices/authSlice.js:58-65 | The fulfilled state does not depend on the state before it |
| AuthSlice.LogoutOutcomesAgree | src/features/slices/authSlice.js:73-87 | The two logout outcomes differ only in `error` |
| AuthSlice.ClearAuthIdempotent | src/features/slices/authSlice.js:44-50 | Clearing twice is clearing once |
| AuthSlice.ClearAuthAfterLogout | src/features/slices/authSlice.js:44-50 | After a fulfilled logout, `clearAuth` changes only `error` |
| AuthSlice.SetTokenExpiredLastWins | src/features/slices/authSlice.js:41-43 | Of two flag writes the second one stays |
| Api.GetItem | src/services/api.js:11 | A stored key reads back its value; a missing key reads null |
| Api.WithBearer | src/services/api.js:10-16 | The `Authorization` header is set iff storage holds a truthy token; every other header is unchanged, and without a token all headers are |
| Api.BearerCarriesToken | src/services/api.js:13-14 | The header is "Bearer " followed by exactly the stored token |
| Api.OnResponseError | src/services/api.js:18-34 | The error is rethrown unchanged when it has a response, and a TypeError is thrown when it has none; the expiry flag is raised iff status is 401 and the first message is exactly "Token is invalid or expired" |
| Api.OnResponseErrorOnlyRaisesFlag | src/services/api.js:20-29 | The interceptor changes no field but the expiry flag, and only ever raises it |
| Api.Request | src/services/api.js:10-34 | One call: headers from the request rule; a success passes the data through unchanged; a failure goes through the response rule |
| Api.StoreTokens | src/services/api.js:38-41 | Both keys are written with the reply's tokens when both are truthy; otherwise storage is unchanged |
| Api.Login | src/services/api.js:36-43 | A success returns the data unchanged and stores tokens as above; a failure leaves storage and rejects |
| Api.ClearTokens | src/services/api.js:61-62 | Both token keys are gone; every other key is kept with its value |
| Api.Logout | src/services/api.js:54-64 | The stored refresh token is sent; both keys are removed whatever the reply; nothing is rethrown |
| Api.NoBearerAfterLogout | src/services/api.js:10-16 | After logout no request carries a bearer header |
| AuthFlows.LoginUser | src/features/slices/authSlice.js:4-14 | The thunk fulfils iff the call succeeds. Success writes the payload's user and tokens and stores them. Failure keeps credentials and storage, stores the rejection payload, and raises the flag only on the expiry signal |
| AuthFlows.LogoutUser | src/features/slices/authSlice.js:17-28 | The thunk always fulfils, signs out, keeps `error` and clears both storage keys |
| AuthFlows.ApiCall | src/services/api.js:18-34 | A table's API call keeps storage and every session field but the expiry flag, which it raises exactly on a failure carrying the expiry signal; the call succeeds iff the reply does |
| AuthFlows.StepKeepsSettled | src/services/api.js:36-64 | One completed thunk or call keeps storage holding both tokens (non-empty) or neither, with nothing loading |
| AuthFlows.RunKeepsSettled | src/services/api.js:36-64 | Every sequence of completed thunks and calls keeps that invariant |
| AuthFlows.ExpiredWithoutToken | src/features/slices/authSlice.js:66-69 | A login failing with the expiry signal raises the flag while no token is held |
| AuthFlows.WrongPasswordScenario | src/features/slices/authSlice.js:11 | A 400 reply with `detail` "Invalid credentials" stores that text as the error, with no user and empty storage |
| AuthFlows.OfflineLogoutScenario | src/services/api.js:56-63 | Logout with no network still signs out and removes both keys |
| TokenExpiry.IsTokenExpired | src/lib/isTokenExpired.js:3-7 | A falsy token is expired; a malformed one throws; otherwise expired iff `exp * 1000 < now`, and never without `exp` |
| TokenExpiry.BoundaryNotExpired | src/lib/isTokenExpired.js:6 | At `exp * 1000 == now` the token is not expired |
| TokenExpiry.ExpiryMonotoneInTime | src/lib/isTokenExpired.js:6 | Expired at `now` implies expired at every later time |
| TokenExpiry.ExpiryMonotoneInExp | src/lib/isTokenExpired.js:6 | Valid with `exp = e` implies valid for every larger `exp` |
| RouteGuards.RoleHome | src/components/layout/StoreProtectedRoute.jsx:22-26 | Admin maps to "/store" and branch_manager to "/branch"; no other user has a home |
| RouteGuards.StoreProtectedRoute | src/components/layout/StoreProtectedRoute.jsx:5-17 | A falsy token always redirects to "/". Children render iff there is a token and the role check passes. "/unauthorized" is chosen iff there is a token and the check fails |
| RouteGuards.BranchProtectedRoute | src/components/layout/BranchProtectedRoute.jsx:5-17 | The same three-way decision for the branch tree |
| RouteGuards.ProtectedRoutesAgree | src/components/layout/BranchProtectedRoute.jsx:5-17 | The two guards decide identically on every input |
| RouteGuards.BranchTreeAdmitsOnlyManagers | src/App.jsx:42 | With a token, an admin is sent to "/unauthorized" and a branch manager gets the branch tree |
| RouteGuards.AuthenticatedRoute | src/components/layout/StoreProtectedRoute.jsx:19-29 | Children render iff the user has no home role; otherwise the redirect goes to that home |
| RouteGuards.AuthenticatedRouteWithToken | src/components/layout/StoreProtectedRoute.jsx:19-29 | Corrected guard: it redirects only when a token is present as well |
| LoginPage.ValidateLogin | src/pages/generals/LoginPage.jsx:21-24 | Each field gets its "is required" message iff it is empty after trimming |
| LoginPage.SubmitLogin | src/pages/generals/LoginPage.jsx:46-54 | The login thunk runs iff both fields survive trimming; otherwise the session is unchanged |
| LoginPage.LoginRedirect | src/pages/generals/LoginPage.jsx:32-38 | Admin navigates to "/store" and branch_manager to "/branch"; any other role or no user navigates nowhere |
| LoginPage.LoginRedirectWithToken | src/pages/generals/LoginPage.jsx:32-38 | Corrected effect: it navigates only when a token is present as well |
| LoginPage.LoginAttemptOutcomeOnScreen | src/pages/generals/LoginPage.jsx:109-115 | After a login attempt settles the button is enabled, and the alert shows iff the attempt failed |
| LoginPage.LoginNavigatesByRole | src/pages/generals/LoginPage.jsx:32-38 | A successful admin or branch-manager login leads to that role's area |
| TokenExpirationModal.OnOpenChange | src/components/modals/TokenExpirationModal.jsx:23 | A dismiss attempt changes nothing, so the dialog stays as it was |
| TokenExpirationModal.NavigationAfterLogout | src/components/modals/TokenExpirationModal.jsx:13-20 | Navigation to "/" happens iff the logout thunk fulfilled |
| TokenExpirationModal.ConfirmLogout | src/components/modals/TokenExpirationModal.jsx:13-20 | Confirming always ends signed out with the dialog closed and "/" as the destination |
| TokenExpirationModal.EitherLogoutOutcomeClosesDialog | src/components/modals/TokenExpirationModal.jsx:23 | Both logout reducer cases close the dialog |
| AppRoutes.Route | src/App.jsx:29-61 | Every redirect targets a known route, "/unauthorized" always renders, the store tree (matched regardless of letter case) renders iff an admin holds a token, the branch tree iff a branch manager does, and "/" renders iff the user has no home role and otherwise redirects to that home |
| AppRoutes.RouteIgnoresCase | src/App.jsx:39-60 | No route sets `caseSensitive`, so a path is routed exactly as its lower case is |
| AppRoutes.SignedOutMixedCaseStore | src/App.jsx:49-58 | A signed-out visit to "/Store" falls in the store tree and is sent to "/" |
| AppRoutes.StoreTreeByRole | src/App.jsx:49-58 | A branch manager with a token is refused the store tree; an admin gets it |
| AppRoutes.RedirectLoopAsWritten | src/App.jsx:30-58 | An admin session without a token bounces between "/" and "/store" |
| AppRoutes.RouteWithToken | src/App.jsx:29-61 | The corrected route table redirects only to known routes and still always renders "/unauthorized" |
| AppRoutes.RoutesSettleWithToken | src/App.jsx:29-61 | In the corrected route table, every redirect lands on a route that renders |
| AppRoutes.RouteWithTokenAgrees | src/App.jsx:29-61 | The correction changes nothing when a token is present or the user has no home role |
| OutflowForm.Set | src/components/modals/OutflowModalForm.jsx:85 | The named field takes the value; every other field is unchanged |
| OutflowForm.FindProduct | src/components/modals/OutflowModalForm.jsx:98 | A found product is in the list and its id's decimal string is the key; none found means no product has that string; the product found is the first with that string |
| OutflowForm.QuantityError | src/components/modals/OutflowModalForm.jsx:106-122 | No error iff the parse succeeded and `0 < q <= stock`; the positive-number message iff unparsable or `q <= 0`; otherwise the exceeds-stock message |
| OutflowForm.MessagesDiffer | src/components/modals/OutflowModalForm.jsx:109-114 | The two messages never coincide |
| OutflowForm.Record | src/components/modals/OutflowModalForm.jsx:107-121 | The id's entry is present iff there is a verdict, and holds it; other entries are untouched |
| OutflowForm.ValidateQuantity | src/components/modals/OutflowModalForm.jsx:94-123 | Other ids' errors are untouched. A missing row, or a row whose pre-update product is not found, leaves the map unchanged. Otherwise the id has an entry iff the new or stored quantity is missing, not positive or above that product's stock, and the entry is the positive-quantity message or the stock message accordingly |
| OutflowForm.Add | src/components/modals/OutflowModalForm.jsx:60-71 | As written: one blank row numbered `length + 1` is appended; the existing rows and the errors are unchanged |
| OutflowForm.Remove | src/components/modals/OutflowModalForm.jsx:73-80 | Every row with the id and its error entry go; other rows keep their order, other entries their values |
| OutflowForm.Update | src/components/modals/OutflowModalForm.jsx:82-92 | Only the named field of rows with the id changes. Branch and expiry edits leave the errors alone; product and quantity edits leave them as the written validation of the rows before the edit makes them. Other ids' errors are unchanged |
| OutflowForm.HandleSubmit | src/components/modals/OutflowModalForm.jsx:125-130 | The rows are submitted, unchanged, iff the error map is empty |
| OutflowForm.SubmitDisabledIffRefused | src/components/modals/OutflowModalForm.jsx:339 | The button is disabled exactly when a submission would be refused |
| OutflowForm.DuplicateIdScenario | src/components/modals/OutflowModalForm.jsx:60-80 | Add, remove row 1, add: two rows share id 2, and removing id 2 deletes both |
| OutflowForm.StaleProductScenario | src/components/modals/OutflowModalForm.jsx:94-104 | Quantity 5 typed first and then product 7 (stock 3) chosen: no error is recorded and the form submits 5 units |
| OutflowForm.Revalidate | src/components/modals/OutflowModalForm.jsx:94-123 | Corrected validation: the entry for the id is the verdict on the row as it is after the update |
| OutflowForm.AddFresh | src/components/modals/OutflowModalForm.jsx:60-71 | Corrected add: the appended blank row's id is carried by no existing row |
| OutflowForm.UpdateChecked | src/components/modals/OutflowModalForm.jsx:82-92 | Corrected update: the same rows as the written update; branch and expiry edits leave the errors alone, and product and quantity edits revalidate the row as it stands after the edit |
| OutflowForm.BlankHasNoProblem | src/components/modals/OutflowModalForm.jsx:48-56 | A blank row names no product and so has no error |
| OutflowForm.InitialAccurate | src/components/modals/OutflowModalForm.jsx:48-58 | The opening form's error map is accurate |
| OutflowForm.FindIdUnique | src/components/modals/OutflowModalForm.jsx:95 | With distinct ids, looking up a row's id finds that row |
| OutflowForm.AddFreshKeepsAccurate | src/components/modals/OutflowModalForm.jsx:60-71 | The corrected add keeps the error map accurate |
| OutflowForm.RemoveKeepsAccurate | src/components/modals/OutflowModalForm.jsx:73-80 | Remove keeps the error map accurate |
| OutflowForm.RemoveKeepsRowsAgreeing | src/components/modals/OutflowModalForm.jsx:73-80 | After remove, every remaining row's entry is still its verdict |
| OutflowForm.RemoveKeepsKeysOnRows | src/components/modals/OutflowModalForm.jsx:73-80 | After remove, every error key still names a row |
| OutflowForm.OtherFieldsKeepProblem | src/components/modals/OutflowModalForm.jsx:89-91 | Branch and expiry edits do not change a row's verdict |
| OutflowForm.UpdateCheckedKeepsAccurate | src/components/modals/OutflowModalForm.jsx:82-123 | The corrected update keeps the error map accurate |
| OutflowForm.UpdateCheckedKeepsKeysOnRows | src/components/modals/OutflowModalForm.jsx:82-123 | After the corrected update, every error key still names a row |
| OutflowForm.UpdateCheckedKeepsRowsAgreeing | src/components/modals/OutflowModalForm.jsx:82-123 | After the corrected update, every row's entry is its verdict |
| OutflowForm.UpdateCheckedRowAgrees | src/components/modals/OutflowModalForm.jsx:82-123 | The same, for one row |
| OutflowForm.ApplyKeepsAccurate | src/components/modals/OutflowModalForm.jsx:60-123 | Every single corrected edit keeps the error map accurate |
| OutflowForm.EditsKeepAccurate | src/components/modals/OutflowModalForm.jsx:60-123 | Every sequence of corrected edits keeps the error map accurate |
| OutflowForm.SubmittedWithinStock | src/components/modals/OutflowModalForm.jsx:125-130 | An accepted submission of an accurate form sends, for each row naming a product, a positive quantity within that product's stock |
| OutflowForm.QuantityEditsAgree | src/components/modals/OutflowModalForm.jsx:89-123 | On an accurate form, the written and corrected updates agree on quantity edits |
| OutflowForm.QuantityValidationAgrees | src/components/modals/OutflowModalForm.jsx:94-123 | On a quantity edit, the written validation and revalidating the updated row give the same map |
| OutflowForm.RevalidateFound | src/components/modals/OutflowModalForm.jsx:95 | Revalidating a found row records its verdict |
| OutflowForm.ValidateQuantitySent | src/components/modals/OutflowModalForm.jsx:101-122 | The written validation of a quantity edit records the verdict on the edited row |
| InflowModal.Set | src/components/modals/MultiProductInflowModal.jsx:81 | The named field takes the value; every other field is unchanged |
| InflowModal.Add | src/components/modals/MultiProductInflowModal.jsx:60-72 | As written: one blank row numbered `length + 1` is appended; existing rows unchanged |
| InflowModal.Remove | src/components/modals/MultiProductInflowModal.jsx:74-76 | Exactly the rows with another id stay, in order, with their multiplicities |
| InflowModal.Update | src/components/modals/MultiProductInflowModal.jsx:78-84 | Only the named field of rows with the id changes |
| InflowModal.HandleCreateInflow | src/components/modals/MultiProductInflowModal.jsx:86-106 | All rows are posted unvalidated. On success the dialog closes and resets to one blank row with id 1. On failure nothing changes |
| InflowModal.CreateForgetsRows | src/components/modals/MultiProductInflowModal.jsx:89-98 | After a successful post the dialog state does not depend on the rows before |
| InflowModal.DuplicateIdScenario | src/components/modals/MultiProductInflowModal.jsx:60-84 | Add, remove row 1, add: two rows share id 2, and an edit of one changes both |
| InflowModal.AddFresh | src/components/modals/MultiProductInflowModal.jsx:60-72 | Corrected add: the new id is unused and distinct ids stay distinct |
| InflowModal.ApplyKeepsDistinct | src/components/modals/MultiProductInflowModal.jsx:60-106 | Every corrected action keeps ids distinct |
| InflowModal.ActionsKeepDistinct | src/components/modals/MultiProductInflowModal.jsx:60-106 | Every sequence of corrected actions keeps ids distinct |
| Rows.FindId | src/components/modals/OutflowModalForm.jsx:95 | The lookup succeeds iff some row has the id, and then returns the first row with that id |
| Rows.RemoveId | src/pages/storePages/Notifications.jsx:64-66 | The result is an order-preserving subsequence with exactly the rows of another id, at their multiplicity |
| Rows.UpdateId | src/components/store/ProductRequestsTable.jsx:84-90 | Same length and ids; matching rows are rewritten and the rest kept |
| Rows.AppendNumbered | src/components/modals/OutflowModalForm.jsx:60-71 | The list is kept and one blank row numbered `length + 1` is appended |
| Rows.AppendFresh | src/components/modals/OutflowModalForm.jsx:60-71 | Corrected numbering: the new id is unused and distinct ids stay distinct |
| Rows.FreshAgreesWhileNumbered | src/components/modals/OutflowModalForm.jsx:60-71 | While ids are exactly 1..n, the corrected and written numberings coincide |
| Rows.RemoveKeepsDistinct | src/components/modals/OutflowModalForm.jsx:74 | Removing rows keeps ids distinct |
| Rows.UpdateAbsent | src/components/modals/OutflowModalForm.jsx:84-86 | Updating an absent id changes nothing |
| Rows.RemoveAfterUpdate | src/pages/storePages/Notifications.jsx:64-66 | Removing an id makes any earlier update of it invisible |
| Rows.FindAfterUpdate | src/components/modals/OutflowModalForm.jsx:84-95 | After an update, the row found for the id is the update of the row found before |
| Rows.RenumberAfterRemoveFirst | src/components/modals/OutflowModalForm.jsx:60-74 | Numbering by length after removing the first of two rows repeats the surviving id |
| Rows.RemoveEveryRow | src/components/modals/OutflowModalForm.jsx:74 | Removing an id that every row carries leaves nothing |
| Rows.UpdateBothRows | src/components/modals/MultiProductInflowModal.jsx:78-84 | An update of an id shared by two rows rewrites both |
| ProductsTable.StockBand | src/components/store/ProductsTable.jsx:180-207 | Low iff `0 < q <= 10`, out iff `q = 0`, normal otherwise (negatives included); exactly one holds |
| ProductsTable.RestockBand | src/components/store/ProductsTable.jsx:180-207 | Raising a low stock never makes it out, and above ten it is normal |
| ProductsTable.HandleAddProduct | src/components/store/ProductsTable.jsx:63-66 | The dialog opens with no product selected; nothing else changes |
| ProductsTable.HandleEditProduct | src/components/store/ProductsTable.jsx:74-77 | The dialog opens on the chosen id; nothing else changes |
| ProductsTable.HandleDeleteProduct | src/components/store/ProductsTable.jsx:79-82 | The confirmation opens on the chosen id; nothing else changes |
| ProductsTable.ConfirmDelete | src/components/store/ProductsTable.jsx:84-98 | A falsy selection (null or 0) does nothing and sends nothing. Otherwise the DELETE goes to that id. On success exactly that id's rows go, in order. Either way the confirmation closes and forgets the product |
| ProductsTable.DeleteFlow | src/components/store/ProductsTable.jsx:79-98 | Choosing delete then confirming removes exactly the product's rows when the server agrees, and always closes |
| ProductsTable.ZeroIdNeverDeleted | src/components/store/ProductsTable.jsx:85 | A product with id 0 is never deleted and nothing is sent |
| ProductRequestsTable.UpdateRequestStatus | src/components/store/ProductRequestsTable.jsx:84-90 | Only `status` of matching rows changes; length, order and ids are kept |
| ProductRequestsTable.HandleStatusChange | src/components/store/ProductRequestsTable.jsx:183-193 | On success the status is updated and the dialog closes; on failure both are kept |
| ProductRequestsTable.LastStatusWins | src/components/store/ProductRequestsTable.jsx:84-90 | Of two status edits the second stays |
| ProductRequestsTable.HandleCreateRequest | src/components/store/ProductRequestsTable.jsx:92-100 | On success the server row is appended and the dialog closes; on failure nothing changes |
| ProductRequestsTable.SelectForDelete | src/components/store/ProductRequestsTable.jsx:277-280 | The id is selected and the confirmation opens; the rows are kept |
| ProductRequestsTable.KeepAfterDelete | src/components/store/ProductRequestsTable.jsx:106 | With nothing selected every row is kept; otherwise the selected id's rows go |
| ProductRequestsTable.HandleDeleteRequest | src/components/store/ProductRequestsTable.jsx:102-112 | The DELETE names the selection. Failure changes nothing. Success closes the confirmation, keeps the create modal, and removes exactly the selected id's rows, in order and with every other row's multiplicity kept; with no selection nothing is removed |
| ProductRequestsTable.DeleteSelected | src/components/store/ProductRequestsTable.jsx:102-112 | Selecting then confirming removes exactly that request's rows |
| ProductRequestsTable.StatusBadge | src/components/store/ProductRequestsTable.jsx:198-210 | Yellow iff pending, green iff fulfilled, indigo for everything else |
| ProductRequestsTable.BadgeTellsStatusesApart | src/components/store/ProductRequestsTable.jsx:233-237 | On the three selectable statuses, the colour determines the status |
| BranchProductsTable.UpdateProductQuantity | src/components/branch/BranchProductsTable.jsx:83-89 | Only `quantity` of matching rows changes |
| BranchProductsTable.UpdateProductStatus | src/components/branch/BranchProductsTable.jsx:91-97 | Only `status` of matching rows changes |
| BranchProductsTable.QuantityAndStatusCommute | src/components/branch/BranchProductsTable.jsx:83-97 | The quantity and status edits commute |
| BranchProductsTable.HandleQuantityChange | src/components/branch/BranchProductsTable.jsx:174-185 | On success the quantity is updated and the dialog closes; on failure both are kept |
| BranchProductsTable.ToggleTarget | src/components/branch/BranchProductsTable.jsx:235 | The target is "inactive" iff the switch is on and "active" iff it is off |
| BranchProductsTable.InitialSwitch | src/components/branch/BranchProductsTable.jsx:232 | The switch starts on iff the status is "active" |
| BranchProductsTable.HandleStatusToggle | src/components/branch/BranchProductsTable.jsx:231-245 | The status and the switch change together, after a successful PATCH only |
| BranchProductsTable.ToggleKeepsSwitchInStep | src/components/branch/BranchProductsTable.jsx:189-245 | After a successful toggle the switch still shows the row's status, and the quantity is editable iff the switch is on |
| BranchProductsTable.ToggleTwice | src/components/branch/BranchProductsTable.jsx:231-245 | Two toggles restore the switch, and restore the row iff its status was "active" or "inactive" |
| BranchProductsTable.BarcodeUrl | src/components/branch/BranchProductsTable.jsx:72-81 | The address is the media base, "/", then the barcode |
| BranchProductsTable.BarcodeUrlInjective | src/components/branch/BranchProductsTable.jsx:72-81 | Different barcodes give different addresses |
| Notifications.BeginFetch | src/pages/storePages/Notifications.jsx:22-38 | A fetch starts loading and keeps the list and the error |
| Notifications.FinishFetch | src/pages/storePages/Notifications.jsx:22-38 | Loading ends. A success replaces the list and clears the error. A failure keeps the list, sets the fixed message and raises an error toast |
| Notifications.PollRecovers | src/pages/storePages/Notifications.jsx:22-38 | A successful poll shows its list, whatever came before |
| Notifications.MarkRead | src/pages/storePages/Notifications.jsx:43-47 | Exactly the rows with the id become read; no other field changes |
| Notifications.MarkReadIdempotent | src/pages/storePages/Notifications.jsx:43-47 | Marking twice is marking once |
| Notifications.MarkReadOfReadIsNoop | src/pages/storePages/Notifications.jsx:43-47 | Marking an already read notification changes nothing |
| Notifications.MarkAsRead | src/pages/storePages/Notifications.jsx:40-59 | The list changes after a successful POST only; the toast says which outcome happened |
| Notifications.DeleteNotification | src/pages/storePages/Notifications.jsx:61-78 | On success exactly the id's rows go, in order and with every other row's multiplicity kept; on failure nothing changes |
| Notifications.DeleteForgetsRead | src/pages/storePages/Notifications.jsx:43-66 | Deleting after marking read is deleting |
| Notifications.MarkedRowsHideButton | src/pages/storePages/Notifications.jsx:135 | After a successful mark the row no longer offers "Mark as read" |
| Notifications.View | src/pages/storePages/Notifications.jsx:97-107 | Loading first, then error, then the empty message, then the list |
| BranchReports.ReplaceSpaces | src/pages/branchPages/BranchReports.jsx:36 | Same length; each space becomes "_" and every other character stays |
| BranchReports.ColumnKey | src/pages/branchPages/BranchReports.jsx:36 | The key is as long as the header, holds no space, has "_" where the header has a space and the lower-cased header character everywhere else |
| BranchReports.ColumnKeyIdempotent | src/pages/branchPages/BranchReports.jsx:36 | A key maps to itself |
| BranchReports.ProductNameKey | src/pages/branchPages/BranchReports.jsx:36 | "Product Name" gives "product_name" |
| BranchReports.Cell | src/pages/branchPages/BranchReports.jsx:36 | A cell shows the row's value under the column's key, or nothing when the key is absent |
| BranchReports.FilterReport | src/pages/branchPages/BranchReports.jsx:95-105 | An order-preserving subsequence that keeps, with their multiplicity, exactly the rows where some truthy value's lowercased string contains the lowercased term |
| BranchReports.SearchIgnoresCase | src/pages/branchPages/BranchReports.jsx:101 | Lowercasing the search term does not change the result |
| BranchReports.EmptySearchKeepsTruthyRows | src/pages/branchPages/BranchReports.jsx:99-101 | An empty term keeps exactly the rows with some truthy value |
| BranchReports.FetchReport | src/pages/branchPages/BranchReports.jsx:66-88 | Loading ends. A success stores the rows and keeps the error. A failure keeps the rows and sets the fixed message |
| BranchReports.ReportView | src/pages/branchPages/BranchReports.jsx:147-166 | The spinner shows iff loading, the alert iff not loading and an error is set, otherwise the filtered table |
| BranchReports.FailureSticks | src/pages/branchPages/BranchReports.jsx:77-81 | After a failure the alert shows, even after a later success |
| BranchReports.FirstSuccessShowsRows | src/pages/branchPages/BranchReports.jsx:66-88 | From the start, a success shows the filtered rows |
| JsStrings.Trim | src/pages/generals/LoginPage.jsx:22-23 | The result is the input without leading and trailing ECMAScript whitespace and line terminators, and neither end of it is whitespace |
| JsStrings.TrimEmptyIffAllSpace | src/pages/generals/LoginPage.jsx:22-23 | The trimmed string is empty iff the input is all whitespace |
| JsStrings.ToLower | src/pages/branchPages/BranchReports.jsx:101 | Same length, each character lowercased |
| JsStrings.ToLowerIdempotent | src/pages/branchPages/BranchReports.jsx:101 | Lowercasing twice is lowercasing once |
| JsStrings.ParseInt | src/components/modals/OutflowModalForm.jsx:101-104 | `parseInt` (`None` stands for NaN) yields a number only for text that holds a digit |
| JsStrings.ParseIntDecimal | src/components/modals/OutflowModalForm.jsx:101-104 | White space, an optional sign and a decimal numeral followed by a non-digit parse to the numeral's value, negated after "-" |
| JsStrings.ParseIntNaN | src/components/modals/OutflowModalForm.jsx:101-106 | White space and an optional sign followed by anything but a digit, space or sign parse to NaN |
| JsStrings.ParseIntAfterSpace | src/components/modals/OutflowModalForm.jsx:101-104 | `parseInt` skips exactly the leading white space |
| JsStrings.ParseIntToString | src/components/modals/OutflowModalForm.jsx:98-104 | Parsing the decimal string of any integer gives that integer back |
| JsStrings.IntToStringInjective | src/components/modals/OutflowModalForm.jsx:98 | Different ids have different decimal strings |
| JsStrings.ParseIntWithoutDigits | src/components/modals/OutflowModalForm.jsx:106 | A string holding no hexadecimal digit anywhere parses to NaN |
| JsValues.ScalarToString | src/pages/branchPages/BranchReports.jsx:101 | A string is its own text; a number's text parses back to it |
| Seqs.Filter | src/pages/branchPages/BranchReports.jsx:97 | An order-preserving subsequence holding the elements that satisfy the predicate, at their multiplicity |
| Seqs.FilterIdempotent | src/pages/branchPages/BranchReports.jsx:97 | Filtering twice by one predicate is filtering once |

## Left out

- `redux-persist` rehydration and versioning of the session: library behaviour; the model starts from the initial state or an arbitrary one.
- `jwtDecode`: base64 and JSON decoding are not modelled; its verdict (`exp` or a thrown error) is a parameter of `TokenExpiry.IsTokenExpired`, and so is `Date.now()`.
- `TokenExpiry.IsTokenExpired`: a non-numeric or non-integer `exp` is not modelled (`exp` is an integer of seconds; a fractional NumericDate of RFC 7519 is left out); a missing one is, as never expired.
- `Http.ResponseData`: an error response whose body is `null` is not representable, so the `TypeError` the response interceptor would throw reading `data.messages` of it is not modelled; every modelled error response has a body object.
- `Api.Login`: a successful reply whose body is `null` or `undefined` is not representable (`LoginData` is always an object), so the `TypeError` that reading `response.data.access` of it throws is not modelled.
- axios transport: each call is an abstract `Ok`/`Fail` reply; the request path and body are kept only where a handler builds them (delete paths, the logout refresh token).
- The `refreshToken` API call: it is never called.
- Concurrency: the interleaving of thunks and calls, React state batching and the 30-second polling timer of the notifications page; each handler is modelled as settling before the next starts.
- The report filter is a `useEffect` that lags one render behind `data` and the term; `BranchReports.FilterReport` is its settled value.
- JavaScript object keys are strings; the outflow error map is keyed by the integer id, which names the same entry.
- `JsStrings.ToLower`: only ASCII letters are lowercased; other Unicode case mappings are not modelled, in the report search and in route matching alike.
- `JsStrings.ParseInt`: the `0x` prefix, sign and decimal runs are modelled; radix arguments are not needed and other radixes are not modelled. The result is the exact integer, whereas JavaScript returns a double, so numerals above 2^53 are not rounded here (`parseInt("9007199254740993")` is 9007199254740992 in JavaScript).
- `JsValues.Scalar`: report rows hold primitive values only; nested objects and floating-point numbers are not modelled.
- Rendering: JSX, dialogs, toasts beyond their title and variant, react-table sorting, pagination and column filters.
- Printing (`handlePrint`, the barcode print window): HTML emission to a new window.
- The inflow dialog's `fetchProductInflows` callback after a post: a refetch through an API call not part of this model.
- `console.log`/`console.error` calls: they have no effect on state.
- The other report cards of the reports page share `ColumnKey` and `FilterReport`; their endpoints and column lists are not modelled.
- The effect of the tables' API calls on the session (the expiry interceptor) is modelled once, in `AuthFlows.ApiCall`, rather than in each table.
- The logout button of the sidebars: it dispatches the same logout thunk as `TokenExpirationModal.ConfirmLogout`.

## Findings

| source | as written | input that shows it | evidently intended | confidence | as-written member | corrected member |
|---|---|---|---|---|---|---|
| src/components/modals/OutflowModalForm.jsx:64 | new rows are numbered `length + 1`, the same in MultiProductInflowModal.jsx:64 | Add, remove row 1, add: both rows have id 2, so removing or editing one affects both | each row gets an id no other row has | not executed | OutflowForm.DuplicateIdScenario, InflowModal.DuplicateIdScenario | Rows.AppendFresh, OutflowForm.EditsKeepAccurate, InflowModal.ActionsKeepDistinct |
| src/components/modals/OutflowModalForm.jsx:95-104 | validation reads the row from before the update, so choosing a product checks the old product | type quantity 5, then choose product 7 with stock 3: no error, and the form submits 5 units | the error map holds the verdict on every row as it now stands | not executed | OutflowForm.StaleProductScenario | OutflowForm.UpdateChecked, OutflowForm.EditsKeepAccurate, OutflowForm.SubmittedWithinStock |
| src/components/layout/StoreProtectedRoute.jsx:22-26 | the landing route redirects a user with a home role without checking the token, while the store tree requires one | a login reply with an admin user and no `access` token: "/" redirects to "/store", which redirects back to "/" | redirect by role only when a token is held | not executed | AppRoutes.RedirectLoopAsWritten | AppRoutes.RouteWithToken, AppRoutes.RoutesSettleWithToken |
