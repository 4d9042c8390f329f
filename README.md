# User admin console: session, validation, gateway and view-state model

A Dafny model of the decision logic of a React console for managing user
records. Rendering, routing, caching and transport belong to libraries, so the
model covers the deterministic parts the console's own code decides:

- **Session store** (`AuthStore`). The store has three fields, `accessToken`,
  `expiresIn` and `isAuthenticated`, changed by `login`, `logout` and
  `checkAuth`. It is a class with those fields. Its methods are proved against
  the value-level functions `LoggedIn` and `Check`. `checkAuth` reads the clock
  (`Math.floor(Date.now() / 1000)`), which is the parameter `now`.
- **Form schema** (`UserSchema`). Five independent field rules. The issues they
  report follow the schema's declaration order. Lengths are JavaScript
  lengths, counted in UTF-16 code units. The e-mail syntax check is the
  function parameter `isEmail`.
- **Fetch gateway** (`UserApi`). Builds the URL, method, bearer headers
  (section 2.1 of RFC 6750) and body of the five user operations. Without a
  token it fails with "Authentication required" before any request. It
  classifies the response: a 401 logs out with the session-expired message;
  any other failure becomes `"API Error: " + status`. The list search term goes
  through `encodeURIComponent` (section 19.2.6.5 of ECMA-262). `UriEncoding`
  models that function byte for byte and proves it can be inverted.
- **Axios client** (`AxiosInstance`). The request interceptor edits
  `config.headers` in place. The response interceptor lets a success through
  unchanged and turns every failure into a rejection. It treats the login
  endpoint apart, and it logs out and redirects on any other 401.
- **List view** (`UserList`). Maps an API record to a card (initials,
  case-insensitive status). The four state cells of the delete-confirmation
  dialog form the class `DeleteDialog`. It also picks what the list area
  shows.
- **Edit page** (`EditUserPage`). Derives the form's initial values, guards the
  route id before an update, and picks what the page shows.
- **Login page** (`LoginPage`). The submit handler, split at its `await`:
  `Submit` runs up to the request and `Settle` handles the reply. Also the
  mount-time redirect.

The HTTP round trip is an input in every operation: the response the server
gives, or the transport failure the request rejects with. So is the clock.

There is no optimistic-update or rollback layer: `src/api/userHooks.ts` only
invalidates queries after a mutation succeeds, and caching is the query
library's (one five-minute stale time).

## Model

| member | source | states |
|---|---|---|
| `Text.Utf16Length` | src/schemas/userSchema.ts:5-13 | A string's JavaScript length is between its character count and twice that. It is zero only for the empty string. |
| `Text.Utf16LengthBmp` | src/schemas/userSchema.ts:5-13 | The JavaScript length equals the character count exactly when no character lies outside the Basic Multilingual Plane. |
| `Text.Decimal` | src/api/userApi.ts:26 | A status in a template literal becomes a non-empty string of decimal digits, with no leading zero except for 0. |
| `Text.DecimalRoundTrip` | src/api/userApi.ts:26 | Reading the digits back gives the number. |
| `Text.DecimalInjective` | src/api/userApi.ts:26 | Different numbers are never written alike. |
| `UriEncoding.Utf8` | src/api/userApi.ts:37 | A character becomes 1 to 4 UTF-8 bytes. It takes one byte exactly when it is ASCII. |
| `UriEncoding.EncodeURIComponent` | src/api/userApi.ts:37 | The encoded term contains only unreserved characters and '%'. A term of unreserved characters is returned unchanged. |
| `UriEncoding.PercentDecodeEscape` | src/api/userApi.ts:37 | One escape "%XY" decodes to its byte, followed by the decoding of the rest. |
| `UriEncoding.PercentDecodeEscapes` | src/api/userApi.ts:37 | Percent-decoding a run of escaped bytes gives those bytes back, followed by the decoding of the rest. |
| `UriEncoding.PercentDecodeEncoded` | src/api/userApi.ts:37 | Percent-decoding an encoded term gives the UTF-8 bytes of the term. |
| `UriEncoding.Utf8ScalarRoundTrip` | src/api/userApi.ts:37 | Decoding one character's UTF-8 bytes gives the character. |
| `UriEncoding.Utf8CharThenRest` | src/api/userApi.ts:37 | UTF-8 decoding reads exactly one character's bytes and continues with the rest. |
| `UriEncoding.Utf8EncodeDecode` | src/api/userApi.ts:37 | UTF-8 decoding inverts UTF-8 encoding for every string. |
| `UriEncoding.EncodeDecodeRoundTrip` | src/api/userApi.ts:37 | Decoding what `encodeURIComponent` produced gives back the original term. |
| `UriEncoding.OverlongRejected` | src/api/userApi.ts:37 | The decoder refuses the overlong sequence "%C0%80" rather than reading it as U+0000. |
| `UriEncoding.EncodeInjective` | src/api/userApi.ts:37 | Two different terms never encode to the same text. |
| `AuthStore.LoggedIn` | src/store/authStore.ts:19-23 | After `login(t, e)` the token is t, the expiry is e, and the store is flagged authenticated, which is consistent. |
| `AuthStore.Check` | src/store/authStore.ts:29-46 | `checkAuth` answers true exactly when the token and expiry are truthy and `now <= expiresIn`. It logs out exactly when they are truthy and `now > expiresIn`. Otherwise nothing changes. |
| `AuthStore.Store.constructor` | src/store/authStore.ts:16-18 | A fresh store has no token, no expiry and is not authenticated, so it satisfies the invariant `Valid` (the flag agrees with the presence of a token). |
| `AuthStore.Store.Login` | src/store/authStore.ts:19-23 | Overwrites all three fields with the token, the expiry and true, and leaves the store `Valid`. |
| `AuthStore.Store.Logout` | src/store/authStore.ts:24-28 | Whatever the old state, the store is logged out and `Valid` afterwards, so a second logout changes nothing. |
| `AuthStore.Store.CheckAuth` | src/store/authStore.ts:29-46 | Returns the verdict of `Check` and leaves the store in the state `Check` prescribes, calling `Logout` on expiry. A `Valid` store stays `Valid`. |
| `AuthStore.LoggedOutConsistent` | src/store/authStore.ts:24-28 | The state `logout` writes has no token and is not flagged authenticated, so it is consistent. |
| `AuthStore.ChecksKeepConsistency` | src/store/authStore.ts:37-42 | `checkAuth` keeps `isAuthenticated == (accessToken != null)`. |
| `AuthStore.MissingCredentialsChangeNothing` | src/store/authStore.ts:33-35 | A falsy token (null or "") or a falsy expiry (null or 0) gives false with no state change, whatever the clock says. |
| `AuthStore.EmptyTokenStaysFlagged` | src/store/authStore.ts:19-35 | After `login("", e)` the store is flagged authenticated. `checkAuth` rejects it but does not log it out. |
| `AuthStore.ExpiryInstantStillValid` | src/store/authStore.ts:38-45 | At `now == expiresIn` the session is still valid. One second later it is rejected and logged out. |
| `AuthStore.CheckMonotoneInTime` | src/store/authStore.ts:38-45 | A check that passes at some instant passes at every earlier instant. |
| `AuthStore.CheckIdempotent` | src/store/authStore.ts:29-46 | A second check at the same instant repeats the answer and changes nothing more. |
| `AuthStore.ExpiredStaysOut` | src/store/authStore.ts:37-42 | Once expired and logged out, every later check fails and the store stays logged out. |
| `AuthStore.PassingCheckIsAuthenticated` | src/store/authStore.ts:29-46 | In a consistent store, a passing check implies the authenticated flag and no change. |
| `UserSchema.Parse` | src/schemas/userSchema.ts:4-30 | Parsing succeeds exactly when all five field rules hold. The typed values copy the fields and map the status string to the enum. A failure carries every issue, at least one. |
| `UserSchema.FirstNameBounds` | src/schemas/userSchema.ts:5-8 | For a name in the Basic Multilingual Plane, the first name is accepted exactly when it has 1 to 50 characters, so 50 passes despite the "less than 50" message. |
| `UserSchema.FirstNameCountsCodeUnits` | src/schemas/userSchema.ts:5-8 | 26 characters outside the Basic Multilingual Plane make 52 code units and are rejected. |
| `UserSchema.LastNameBounds` | src/schemas/userSchema.ts:10-13 | An absent last name passes, and so does the empty string. A present one made of Basic Multilingual Plane characters passes exactly when it has at most 50 characters. |
| `UserSchema.EmailNeedsBoth` | src/schemas/userSchema.ts:15-18 | An accepted e-mail is non-empty and passes the syntax check. An empty one is reported as "Email is required". |
| `UserSchema.DateLength` | src/schemas/userSchema.ts:20-25 | An accepted date of birth is exactly ten characters long. |
| `UserSchema.DateIsLexicalOnly` | src/schemas/userSchema.ts:23 | Month and day ranges are not checked: "2024-99-99" and "0000-00-00" pass, and "2024-1-01" fails. |
| `UserSchema.StatusValues` | src/schemas/userSchema.ts:27-29 | The status passes exactly when it is "active" or "locked", case-sensitively. |
| `UserSchema.NoIssuesIffValid` | src/schemas/userSchema.ts:4-30 | No issue is reported exactly when every field rule holds. |
| `UserSchema.FieldsIndependent` | src/schemas/userSchema.ts:4-30 | There is no cross-field rule: in a valid record, replacing the first name with any acceptable first name keeps the record valid. |
| `UserSchema.ParseKeepsFields` | src/schemas/userSchema.ts:4-30 | The typed values of an accepted record give back the raw input. |
| `UserApi.AuthHeaders` | src/api/userApi.ts:7-15 | Fails with "Authentication required" exactly for a null or empty token. Otherwise the headers are exactly `Authorization: Bearer <token>` and `Content-Type: application/json`. |
| `UserApi.SearchUrlShape` | src/api/userApi.ts:37 | For a non-empty term, the list URL is the prefix followed by an encoding that decodes back to the term and holds only unreserved characters and '%'. |
| `UserApi.UsersUrl` | src/api/userApi.ts:36-38 | The URL is "/api/users" for an absent or empty search. Otherwise it is "/api/users?search=" followed by a value that decodes back to the term and holds only unreserved characters and '%'. |
| `UserApi.ItemUrl` | src/api/userApi.ts:52 | An item path is "/api/users/" followed by the id, unencoded. |
| `UserApi.RequestFor` | src/api/userApi.ts:35-98 | GET for list and get, POST for create, PUT for update, DELETE for delete. Only create and update carry a body, which is the input. Each operation goes to its URL. |
| `UserApi.BuildRequest` | src/api/userApi.ts:35-98 | With no token, every operation fails with "Authentication required" and no request. Otherwise the request is built with the auth headers. |
| `UserApi.Classify` | src/api/userApi.ts:20-30 | An ok response (status 200-299) yields its parsed body. A 401 yields the session-expired message. Any other status yields "API Error: " followed by the status. |
| `UserApi.HandleApiResponse` | src/api/userApi.ts:20-30 | Returns the classification. A 401 logs the store out; any other response leaves it untouched. A `Valid` store stays `Valid`. |
| `UserApi.Call` | src/api/userApi.ts:35-98 | Without a token: no request, the authentication error, store unchanged. With one: exactly the built request is sent. A rejected `fetch` propagates its own error and leaves the store unchanged. A response is classified, and only a 401 logs out. A `Valid` store stays `Valid`. |
| `UserApi.SearchUrlInjective` | src/api/userApi.ts:37 | Different non-empty search terms give different list URLs. |
| `UserApi.SearchAddsNoParameter` | src/api/userApi.ts:37 | The encoded term has no '&', '=', '#', '?' or space, so it cannot add a parameter or a fragment. |
| `UserApi.EmptySearchIsNoSearch` | src/api/userApi.ts:36-38 | An absent and an empty search both give "/api/users". |
| `UserApi.IdIsNotEncoded` | src/api/userApi.ts:52 | An id containing '?' puts a query into the item URL. |
| `UserApi.ErrorMessagesDistinguishStatuses` | src/api/userApi.ts:26 | Two non-401 failures with the same message have the same status. |
| `AxiosInstance.WithAuthorization` | src/api/axiosInstance.ts:13-22 | A truthy token sets `Authorization: Bearer <token>` and keeps every other header. A falsy token leaves the headers unchanged. |
| `AxiosInstance.AttachAuthorization` | src/api/axiosInstance.ts:14-22 | Edits the config's headers in place as `WithAuthorization` says, keeps the url, and returns the same config object. |
| `AxiosInstance.NormalisedMessage` | src/api/axiosInstance.ts:49-56 | The message is the server's non-empty message, else the error's non-empty message, else "An unexpected error occurred". It is never empty. |
| `AxiosInstance.PlanResponseError` | src/api/axiosInstance.ts:31-59 | Logs out and redirects exactly on a 401 whose url does not contain "/api/login". On a 401 whose url does, it rejects with the server message or "Invalid Credentials!" and no status field. Otherwise it rejects with the normalised message and the response status, absent without a response. |
| `AxiosInstance.OnResponseError` | src/api/axiosInstance.ts:31-59 | Rejects as planned and logs the store out only when the plan says so. A `Valid` store stays `Valid`. |
| `AxiosInstance.Intercept` | src/api/axiosInstance.ts:29-60 | A success resolves with the same response. Every failure rejects; none resolves. |
| `AxiosInstance.AgreesWithFetchLayer` | src/api/axiosInstance.ts:15-19 | The two clients treat the same tokens as absent and attach the same credential for the others. |
| `AxiosInstance.LoginFailureKeepsSession` | src/api/axiosInstance.ts:32-45 | A 401 from the login endpoint does not log out. It rejects with the server message or "Invalid Credentials!". |
| `AxiosInstance.SessionFailureLogsOut` | src/api/axiosInstance.ts:32-58 | A 401 from any other url, or with no url, logs out and still rejects with status 401. |
| `AxiosInstance.NetworkFailure` | src/api/axiosInstance.ts:49-58 | A failure without a response keeps the session, has no status, and carries the error's own message. |
| `AxiosInstance.LoginUrlExamples` | src/api/axiosInstance.ts:34 | Examples of the substring match: "/api/login" and "/v2/api/login?next=x" match; "/api/users" and an absent url do not. |
| `UserList.Initials` | src/components/organisms/UserList.tsx:50-54 | At most two characters: the upper-cased first letter of the first name, then that of the last name when it is non-empty. |
| `UserList.NormaliseStatus` | src/components/organisms/UserList.tsx:44 | "active" in any letter case gives active. Every other string gives locked. |
| `UserList.TransformUser` | src/components/organisms/UserList.tsx:37-47 | Copies id, first name and e-mail, sets dob to the date of birth, and turns a missing or empty last name into "". The initials agree with the card's names, and the status is active exactly for "active" in any case. |
| `UserList.FindIndex` | src/components/organisms/UserList.tsx:69 | Gives the first record with the id, or none exactly when no record has it. |
| `UserList.Selected` | src/components/organisms/UserList.tsx:67-74 | Selects the id and opens the dialog. The shown user is replaced only when the id is in the list; otherwise it keeps its previous value. The last attempt is kept. |
| `UserList.Confirmed` | src/components/organisms/UserList.tsx:77-92 | With no selected id (null or "") nothing happens. Otherwise the last attempt becomes the selected id and one delete is issued for it. |
| `UserList.Settled` | src/components/organisms/UserList.tsx:80-90 | Success closes the dialog and clears the selection. Failure changes nothing. The last attempt always survives. |
| `UserList.Cancelled` | src/components/organisms/UserList.tsx:95-99 | Closes the dialog and clears the id and user, keeping the last attempt. |
| `UserList.Retried` | src/components/organisms/UserList.tsx:102-106 | Re-issues the delete for the last attempt exactly when it is non-empty. |
| `UserList.DeleteDialog.constructor` | src/components/organisms/UserList.tsx:18-21 | The dialog starts closed, with nothing selected and no attempt. |
| `UserList.DeleteDialog.HandleDeleteUser` | src/components/organisms/UserList.tsx:67-74 | Updates the state cells as `Selected` says. |
| `UserList.DeleteDialog.ConfirmDelete` | src/components/organisms/UserList.tsx:77-92 | Issues the delete and updates the cells as `Confirmed` says. |
| `UserList.DeleteDialog.DeleteSettled` | src/components/organisms/UserList.tsx:80-90 | Applies the success or error callback as `Settled` says. |
| `UserList.DeleteDialog.CancelDelete` | src/components/organisms/UserList.tsx:95-99 | Updates the cells as `Cancelled` says. |
| `UserList.DeleteDialog.RetryDelete` | src/components/organisms/UserList.tsx:102-106 | Issues the delete `Retried` names and changes no dialog state. |
| `UserList.RenderContent` | src/components/organisms/UserList.tsx:119-173 | Precedence is loading, then error, then an absent or empty list, then the cards. An `Error` shows its message, any other error the generic text. An empty list shows the no-match panel exactly when a search is typed. The cards are the transformed records, in order. |
| `UserList.CardStatusIsOneOfTwo` | src/components/organisms/UserList.tsx:44 | A card's status is always "active" or "locked", and normalising it again changes nothing. |
| `UserList.StatusExamples` | src/components/organisms/UserList.tsx:44 | "ACTIVE" and "Active" are active. "locked", "" and " active" are locked. |
| `UserList.EmptyLastNameNoInitial` | src/components/organisms/UserList.tsx:52 | An empty last name contributes no initial, like an absent one. |
| `UserList.SelectThenConfirm` | src/components/organisms/UserList.tsx:67-92 | Selecting a non-empty id and confirming issues one delete for exactly that id and records it for retry. |
| `UserList.EmptyIdNeverDeletes` | src/components/organisms/UserList.tsx:67-92 | An empty id opens the dialog, but confirming issues nothing. |
| `UserList.FailureThenRetry` | src/components/organisms/UserList.tsx:77-106 | After a failed delete the dialog is unchanged, and a retry re-issues the delete for the same id. |
| `UserList.SuccessMatchesCancel` | src/components/organisms/UserList.tsx:81-99 | A successful delete leaves the dialog exactly as a cancel would. |
| `UserList.CancelIdempotent` | src/components/organisms/UserList.tsx:95-99 | Cancelling twice is cancelling once. |
| `UserList.UnknownIdKeepsPreviousUser` | src/components/organisms/UserList.tsx:69-72 | For an id not in the list, the previously shown user is kept. |
| `UserList.FirstMatchShown` | src/components/organisms/UserList.tsx:69-72 | With duplicate ids, the first matching record is shown. |
| `EditUserPage.InitialValues` | src/components/pages/EditUserPage.tsx:61-69 | Copies first name, e-mail and date of birth unchanged. A missing or empty last name becomes "". The status is ACTIVE exactly when its lower-case form is "active". |
| `EditUserPage.HandleSubmit` | src/components/pages/EditUserPage.tsx:23-34 | Issues the update, with the submitted values, exactly when the route id is present and non-empty. |
| `EditUserPage.Render` | src/components/pages/EditUserPage.tsx:40-58 | Loading shows the spinner. Otherwise an error or a missing record shows the error panel: the `Error`'s message, else "User not found". Otherwise the form shows the initial values. |
| `EditUserPage.AgreesWithListCard` | src/components/pages/EditUserPage.tsx:61-69 | The form and the list card map status and last name alike. |
| `EditUserPage.InitialValuesAgainstSchema` | src/components/pages/EditUserPage.tsx:61-69 | The initial status always passes the schema. The initial values are valid exactly when the record's first name, last name, e-mail and date pass. |
| `EditUserPage.UnchangedFormResubmitsRecord` | src/components/pages/EditUserPage.tsx:61-69 | For a record with a canonical status and a last name, submitting the untouched form sends the record's own fields. |
| `EditUserPage.SubmitBecomesPut` | src/components/pages/EditUserPage.tsx:29-33 | The submitted update becomes a PUT to the record's URL carrying the submitted values. |
| `EditUserPage.MissingRecordIsNotFound` | src/components/pages/EditUserPage.tsx:50-58 | A missing record shows "User not found", with or without a non-`Error` error. |
| `LoginPage.Submitted` | src/components/pages/Login.tsx:26-36 | With an empty field: the error is "Fill required fields." and no request is issued. Otherwise the error is cleared, loading starts, and one POST to /api/login with the e-mail and password is issued. |
| `LoginPage.SettledWith` | src/components/pages/Login.tsx:38-63 | Logs in exactly when the body's status is not 401 and it carries token data, and then leaves the form state as it was (loading still raised). A 401 body shows its message. Every other ending, including a thrown failure or a body without a result, shows the generic error. In both of these cases loading is lowered and nothing logs in. |
| `LoginPage.LoginForm.constructor` | src/components/pages/Login.tsx:9-13 | The form starts empty, not loading, with no error. |
| `LoginPage.LoginForm.SetEmail` | src/components/pages/Login.tsx:66-68 | Stores the typed e-mail and changes nothing else. |
| `LoginPage.LoginForm.SetPassword` | src/components/pages/Login.tsx:70-72 | Stores the typed password and changes nothing else. |
| `LoginPage.LoginForm.Submit` | src/components/pages/Login.tsx:26-36 | Changes the error and loading cells as `Submitted` says. Loading is raised before the request is returned. |
| `LoginPage.LoginForm.Settle` | src/components/pages/Login.tsx:38-63 | Changes the cells as `SettledWith` says and calls the store's login exactly for the token data it names. A `Valid` store stays `Valid`. |
| `LoginPage.LoginForm.RedirectIfAuthenticated` | src/components/pages/Login.tsx:19-24 | Redirects exactly when the store is flagged authenticated and `checkAuth` passes. `checkAuth` runs only when the flag is set. A `Valid` store stays `Valid`. |
| `LoginPage.EmptyFieldIssuesNothing` | src/components/pages/Login.tsx:31-34 | An empty field issues no request, sets the required-fields message, and never raises loading. |
| `LoginPage.RejectedBodyNeverLogsIn` | src/components/pages/Login.tsx:49-53 | A body with status 401 shows its message and lowers loading without logging in, even when it carries a token. |
| `LoginPage.HttpStatusIgnored` | src/components/pages/Login.tsx:47-56 | The outcome does not depend on the HTTP status, only on the body. A 500 response whose body carries a token logs in. |
| `LoginPage.SuccessfulSubmitStaysLoading` | src/components/pages/Login.tsx:36-59 | Through both steps, a successful reply logs in and leaves the form loading with no error. |
| `LoginPage.FailedSubmitStopsLoading` | src/components/pages/Login.tsx:60-63 | Through both steps, a thrown failure ends with "An error occurred. Please try again." and loading lowered. |
| `LoginPage.LoadingEndsUnlessLoggedIn` | src/components/pages/Login.tsx:38-63 | After a reply, loading stays raised exactly when a login was made. |

## Left out

- The query hooks in `src/api/userHooks.ts` are thin wrappers over the query library: invalidate on success, a toast on error. `usePrefetchUser`, which the list imports, is not defined in them. src/lib/react-query.tsx is library configuration (retry once, five-minute stale time). None of these is part of this model.
- Transport and I/O: `fetch`, axios, JSON parsing and serialisation, the persist middleware's localStorage copy of the store, `window.location`, toasts, `navigate`, and the `setTimeout` before navigating after login. HTTP outcomes and the clock are inputs.
- UserApi.Classify: an ok reply always yields its body. In the code, `response.json()` (src/api/userApi.ts:29) throws on an ok reply that is not JSON, such as an empty 204 to DELETE, so `deleteUser` then fails although the server accepted the delete.
- UserApi.Call: returns the parsed body as given. It does not model the extraction of `result.data.users` or `result.data.user` from it.
- The request interceptor's error handler, which only re-rejects the error, and the instance's default `Content-Type` header: not modelled as members.
- AxiosInstance.PlanResponseError: a failure with no `config` would make `error.config.url` throw. The model takes the url as optional instead. The normalised rejection's absent status stands for a `status: undefined` key. The credential rejection has no such key.
- UserList.Initials: upper-cases ASCII letters only. JavaScript's full case mapping can expand a character ("ß" becomes "SS"), so the real initials can be longer than two characters.
- UserList.Initials: takes the first character. `charAt(0)` takes the first UTF-16 code unit, which for a character outside the Basic Multilingual Plane is half a surrogate pair, and Dafny strings cannot hold one.
- UserList.NormaliseStatus and EditUserPage.InitialValues: lower-case ASCII letters only. Under the full lower-case mapping no non-ASCII character becomes one of the plain letters of "active", so the comparison with "active" comes out the same.
- UriEncoding.EncodeURIComponent: never throws. The real function throws `URIError` on a lone surrogate, which Dafny strings cannot hold.
- AuthStore.Check: the expiry is an integer. A `NaN` expiry (also falsy) and fractional numbers are not modelled.
- LoginPage.SettledWith: `data.result.message` is a string, with absent modelled as "". Token data is present or absent as a whole; a body whose data lacks `accessToken` (giving `login(undefined, …)`) is not modelled.
- React's asynchronous state updates and stale closures: handlers are modelled as applying their updates in order, on the latest state.
- `handleEditUser`, `handleEditHover`, `clearSearch`, `handleSearchChange`, the search debounce, `handleCancel`, the post-update navigation and the login page's show-password toggle: each is a single setter call, a navigation or a rendering switch.
- The schema's behaviour on non-string inputs or a null last name: the form only hands it strings.
