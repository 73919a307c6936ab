# Empora Admin console — a Dafny model of its client-side logic

Empora Admin is a React single-page console for managing employee records
over a GraphQL API. This project models the part of the client that decides
who the user is and what they may do:

- the authentication session: token rehydration at start-up, login, signup,
  logout and the `isAdmin` test;
- the bearer header the Apollo link attaches to every request;
- the `PermissionButton` gate and the `ProtectedRoute` guard;
- the login page's submit handler and role-based landing page;
- the two employee forms (the validated modal and the unvalidated page
  form), their prefill, change handling, payload and completion;
- the listing views (home, grid, tile, list) with their paging, sorting,
  delete flows and the home page's chart aggregations;
- the detail page and the employee tile;
- navigation highlighting in the top bar and the sidebar.

Every React state hook becomes a field of an immutable state datatype, and
every handler becomes a pure function from state to state. Where a handler
talks to the server, the function returns the requests it sends
(`Common.Request`), and the server's answer is an explicit input. The pages
with several controls also have an `Event` type and a `Run` fold over event
sequences. That lets the model state invariants over everything a user can
click. `localStorage` is the session's `token` field, and `window.location`
assignments are its `navigation` field.

Some JavaScript behaviour is written out explicitly:

- truthiness of optional strings is `Common.Present`;
- `String.prototype.trim` is `Text.Trim`, over the ECMAScript WhiteSpace
  and LineTerminator code points;
- `split(',')` is `Text.Split`;
- `Math.ceil(a / b)` is `Pagination.CeilDiv`.

`parseInt`/`parseFloat` results and the display of a number as text are
inputs (`FormFields.Parsed`, and a `showNumber` function).

Where the code and the written description of the system disagree, the
model follows the code:

- A successful identity lookup that returns a null user leaves the stored
  token in place and the session anonymous. It does not clear the token
  (`AuthSession.CheckAuth`, `services/authContext.jsx:67-69`).
- The Home entry of the top bar is highlighted exactly for `/` and paths
  starting `//`. The clause that excludes `/employees` can never change the
  outcome (`Navigation.HomeHighlightIff`).
- The tile page defines delete, flag and edit handlers, but nothing on the
  page calls them. As a result no delete is ever sent from it
  (`EmployeeTilePage.DeleteNeverSent`).

## Model

| member | source | states |
|---|---|---|
| BearerHeader.AuthorizationValue | src/services/apolloClient.js:12-19 | the header is empty iff no token is stored; otherwise it is `Bearer ` followed by a non-empty token |
| BearerHeader.Credential | src/services/apolloClient.js:18 | a header value parses back to a token only when it is the prefix followed by that non-empty token |
| BearerHeader.CredentialRoundTrip | src/services/apolloClient.js:18 | parsing the header recovers the stored token, and recovers nothing when none is stored |
| BearerHeader.AuthorizationValueInjective | src/services/apolloClient.js:18 | two stored tokens that produce the same header are the same token |
| BearerHeader.AuthLink | src/services/apolloClient.js:10-21 | the outgoing headers keep every existing key and set `authorization` to the bearer value, overriding any earlier one |
| BearerHeader.AuthLinkIdempotent | src/services/apolloClient.js:10-21 | passing a request through the link twice gives the same headers as once |
| AuthSession.Logout | src/services/authContext.jsx:118-127 | logout clears the token and the user, resets the cache, sends the browser to `/login`, and leaves no admin |
| AuthSession.LogoutIdempotent | src/services/authContext.jsx:118-127 | logging out twice is the same as logging out once |
| AuthSession.LogoutForgetsPriorSession | src/services/authContext.jsx:118-127 | two sessions that differ only in token and user are identical after logout |
| AuthSession.CheckAuth | src/services/authContext.jsx:52-76 | rehydration always ends loading and queries `me` exactly when a token is stored, with that token's bearer header; a user is adopted, a null user changes nothing, and a failure logs out |
| AuthSession.RehydrationSettles | src/services/authContext.jsx:52-76 | from the initial state, rehydration never stays resolving; it is authenticated exactly when a token was stored and `me` returned a user |
| AuthSession.LookupHeaderSurvivesAuthLink | src/services/apolloClient.js:10-21 | the lookup's explicit header equals what the link would set for the same stored token |
| AuthSession.Login | src/services/authContext.jsx:82-97 | a payload stores its token and user and returns the user; a rejected or empty answer throws and changes nothing |
| AuthSession.Signup | src/services/authContext.jsx:100-115 | the same contract as login, for the signup mutation |
| AuthSession.LoginDecidesAdmin | src/services/authContext.jsx:130-132 | after a login, `isAdmin` holds iff the returned role is `ADMIN`, and the session is authenticated once start-up has settled |
| AuthSession.SwitchIdentityLeavesNoTrace | src/services/authContext.jsx:82-127 | logging in as one user, logging out and logging in as another leaves only the second identity |
| PermissionButton.HasPermission | src/components/PermissionButton.jsx:16-29 | no user means no permission; `ADMIN` requires the admin role, `USER` any user, and any other role is refused |
| PermissionButton.AdminGateImpliesUserGate | src/components/PermissionButton.jsx:16-29 | whoever passes the admin gate passes the user gate |
| PermissionButton.Render | src/components/PermissionButton.jsx:31-36 | the children are shown iff permitted; the fallback only when refused, not hidden and given |
| PermissionButton.AdminOnlyHidden | src/components/PermissionButton.jsx:31-36 | a hidden admin-only control renders its children for an admin and nothing otherwise |
| ProtectedRoute.Decide | src/components/ProtectedRoute.jsx:9-23 | loading shows the placeholder, no user redirects to `/login` remembering the location, and the children render iff the session is authenticated |
| ProtectedRoute.RouteAfterRehydration | src/components/ProtectedRoute.jsx:9-23 | after start-up the guard never shows the placeholder, and it renders the page iff rehydration found a user |
| ProtectedRoute.RouteAfterLogout | src/components/ProtectedRoute.jsx:15-17 | after logout, a settled session is redirected to login |
| LoginPage.BeginSubmit | src/views/LoginPage.jsx:14-15 | submitting clears the error and disables the button, keeping the typed credentials |
| LoginPage.LandingPath | src/views/LoginPage.jsx:21-25 | the landing page is `/admin` iff the role is `ADMIN`, otherwise `/dashboard` |
| LoginPage.FinishSubmit | src/views/LoginPage.jsx:18-29 | success navigates to the landing page; failure shows the fixed message and re-enables the button |
| LoginPage.HandleSubmit | src/views/LoginPage.jsx:12-30 | a payload logs in and navigates; a failure leaves the session as it was and shows the error |
| LoginPage.LandingMatchesAdmin | src/views/LoginPage.jsx:21-25 | the page lands on `/admin` exactly when the new session is an admin's |
| Text.TrimStart | src/components/EmployeeFormModal.jsx:80 | the result is a suffix of the input that starts with a non-space, and only whitespace was dropped |
| Text.TrimEnd | src/components/EmployeeFormModal.jsx:80 | the result is a prefix of the input that ends with a non-space, and only whitespace was dropped |
| Text.Trim | src/components/EmployeeFormModal.jsx:80 | a non-empty trimmed string neither starts nor ends with whitespace |
| Text.TrimIsInfix | src/components/EmployeeFormModal.jsx:141-144 | the trimmed string is a contiguous piece of the input with only whitespace on either side |
| Text.TrimUntouched | src/components/EmployeeFormModal.jsx:141-144 | a string with no outer whitespace is its own trim |
| Text.TrimEmptyIff | src/components/EmployeeFormModal.jsx:80-98 | a field trims to empty iff it is all whitespace |
| Text.TrimIdempotent | src/components/EmployeeFormModal.jsx:141-144 | trimming twice is trimming once |
| Text.Split | src/components/EmployeeList.jsx:261 | splitting gives one more piece than there are separators, and no piece holds a separator |
| Text.JoinSplit | src/components/EmployeeList.jsx:261 | joining the pieces with the separator gives back the original string |
| Text.SplitPlain | src/components/EmployeeList.jsx:261 | a string without a separator splits into itself alone |
| Text.SplitCons | src/components/EmployeeList.jsx:261 | a leading piece followed by a separator is split off first |
| Text.SplitJoin | src/components/EmployeeList.jsx:261 | splitting a join of separator-free pieces gives back those pieces |
| Text.SubjectBadges | src/components/EmployeeList.jsx:261-262 | one badge per comma-separated piece, each the trimmed piece |
| Text.SubjectBadgesArePieces | src/components/EmployeeList.jsx:261-262 | no badge holds a comma, the pieces rebuild the subjects, and empty subjects give one empty badge |
| Text.NatToString | src/components/EmployeeForm.jsx:22 | the decimal text is non-empty, all digits, and has no leading zero |
| Text.NatToStringRoundTrip | src/components/EmployeeForm.jsx:22 | reading the digits back gives the number |
| Text.IntToString | src/components/EmployeeForm.jsx:22 | the text is non-empty and starts with `-` iff the number is negative |
| Text.IntToStringRoundTrip | src/components/EmployeeForm.jsx:22 | reading the text back gives the integer |
| FormFields.Set | src/components/EmployeeForm.jsx:40-43 | the changed field holds the new text and every other field is untouched |
| FormFields.SetRestore | src/components/EmployeeForm.jsx:40-43 | writing a field's old value back undoes a change |
| FormFields.FromEmployee | src/components/EmployeeForm.jsx:20-26 | the texts are copied and the age text reads back as the employee's age |
| EmployeeFormModal.FieldError | src/components/EmployeeFormModal.jsx:80-108 | any message produced for a field is non-empty |
| EmployeeFormModal.Validate | src/components/EmployeeFormModal.jsx:77-112 | name, class and subjects are flagged iff their `trim()` is empty, with their required messages; age and attendance iff missing, unparsable or out of range, with the required message when empty and the range message otherwise |
| EmployeeFormModal.ValidIff | src/components/EmployeeFormModal.jsx:111 | the form counts as valid iff the stored error map is empty |
| EmployeeFormModal.ValidRules | src/components/EmployeeFormModal.jsx:77-112 | a form is valid iff each of the three texts holds a character that `trim()` keeps, age parses into 18..65 and attendance into 0..100 |
| EmployeeFormModal.ValidFormGivesWellFormedPayload | src/components/EmployeeFormModal.jsx:140-146 | a valid form yields a payload with trimmed non-blank texts and in-range numbers |
| EmployeeFormModal.HandleSubmit | src/components/EmployeeFormModal.jsx:124-168 | submission marks the form submitted and stores the errors; a mutation is sent iff the form is valid and the user is an admin, an update iff editing; otherwise the matching notice is shown |
| EmployeeFormModal.SubmittedPayloadIsForm | src/components/EmployeeFormModal.jsx:140-146 | the sent payload's texts are the trimmed form texts and its numbers are the parsed ones |
| EmployeeFormModal.Prefill | src/components/EmployeeFormModal.jsx:30-37 | opening on an employee copies the texts, and shows zero age or zero attendance as empty |
| EmployeeFormModal.OnOpen | src/components/EmployeeFormModal.jsx:25-49 | opening clears errors and submitted, and loads the employee or a blank form; closing changes nothing |
| EmployeeFormModal.HandleChange | src/components/EmployeeFormModal.jsx:114-122 | typing sets the field and hides its error without touching the others' |
| EmployeeFormModal.MutationCompleted | src/components/EmployeeFormModal.jsx:52-74 | the modal closes and the list refetches iff the mutation succeeded |
| EmployeeFormModal.FailedSaveAllowsRetry | src/components/EmployeeFormModal.jsx:64-74 | a failed save keeps the modal open, and resubmitting with valid data sends the mutation again |
| EmployeeFormModal.ZeroAttendanceBlocksResave | src/components/EmployeeFormModal.jsx:36 | every acceptable employee with attendance 0 reopens with an empty attendance field, which validation reports as missing whatever the parse |
| EmployeeFormModal.ZeroAttendanceWitness | src/components/EmployeeFormModal.jsx:36 | such an employee exists: Employee(1, "Ann", 30, "Ops", "Math", 0.0) meets the modal's own rules |
| EmployeeFormModal.AttendanceMissing | src/components/EmployeeFormModal.jsx:101-102 | an empty attendance field is flagged as required and the form is invalid |
| EmployeeFormModal.IntendedPrefillRevalidates | src/components/EmployeeFormModal.jsx:30-37 | with every number written out, an acceptable employee's prefilled form is valid again |
| EmployeeForm.OnMount | src/components/EmployeeForm.jsx:18-28 | in edit mode the form is loaded from the employee, otherwise it is kept |
| EmployeeForm.HandleSubmit | src/components/EmployeeForm.jsx:45-68 | the page form sends an update iff editing (with the employee's id), its texts untrimmed and its numbers as parsed |
| EmployeeForm.MutationCompleted | src/components/EmployeeForm.jsx:30-38 | success refetches and navigates to `/`; failure does neither |
| EmployeeForm.EditUnchangedRoundTrip | src/components/EmployeeForm.jsx:18-67 | saving an unchanged edit form sends back the employee's own data |
| EmployeeForm.ModalSendsTrimmedPayload | src/components/EmployeeForm.jsx:48-54 | whenever the modal sends, its payload is the page form's payload with the texts trimmed |
| EmployeeForm.UnguardedWhereModalRefuses | src/components/EmployeeForm.jsx:45-68 | a blank-name form is sent by the page form but refused by the modal |
| EmployeeForm.ZeroAgePrefillsDiffer | src/components/EmployeeForm.jsx:22 | for age 0 the page form shows `0` where the modal shows an empty field |
| Pagination.CeilDiv | src/views/EmployeeGridPage.jsx:83 | the result is the least multiplier covering the count |
| Pagination.TotalPages | src/views/EmployeeGridPage.jsx:83 | no data gives 0 pages, otherwise the fewest pages holding every row |
| Pagination.PrevMatchesButton | src/views/EmployeeGridPage.jsx:67-71 | Previous moves iff its button is enabled and never goes below page 1 |
| Pagination.NextMatchesButton | src/views/EmployeeGridPage.jsx:73-77 | with data, the handler's guard agrees with the button's page-count test; without data, Next does nothing and is disabled |
| Pagination.StepsStayInRange | src/views/EmployeeGridPage.jsx:67-77 | both handlers keep the page between 1 and the page count |
| Pagination.NextThenPrev | src/views/EmployeeGridPage.jsx:67-77 | Previous undoes Next |
| EmployeeGridPage.Flip | src/views/EmployeeGridPage.jsx:58 | flipping changes the direction |
| EmployeeGridPage.HandleSort | src/views/EmployeeGridPage.jsx:55-64 | the clicked column becomes the sort column; the same column flips the direction, a new one sorts ascending; the page is kept |
| EmployeeGridPage.SortTwiceRestores | src/views/EmployeeGridPage.jsx:55-64 | sorting twice on the current column restores the state |
| EmployeeGridPage.NewColumnAscThenDesc | src/views/EmployeeGridPage.jsx:59-63 | a new column sorts ascending and then descending |
| EmployeeGridPage.RunPreservesValid | src/views/EmployeeGridPage.jsx:24-77 | any run of header and paging clicks keeps the page from 1 on and the sort field among the columns |
| EmployeeGridPage.ReachableValid | src/views/EmployeeGridPage.jsx:36-39 | every state reachable from the initial one is valid |
| EmployeeGridPage.NextButtonAgrees | src/views/EmployeeGridPage.jsx:171-172 | the Next handler acts iff its button is enabled |
| HomePage.PagingStaysValid | src/views/HomePage.jsx:40-50 | paging keeps page 1 onwards, and Next moves iff there is data and `page * 4` is below the total, which is when its button is enabled |
| HomePage.ClassDistribution | src/views/HomePage.jsx:64-79 | one slice per distinct class in the data, each holding that class's non-zero count, with counts summing to the number of employees |
| HomePage.ClassesCountMatchesChart | src/views/HomePage.jsx:120 | the "classes" statistic equals the number of pie slices |
| HomePage.FirstMatch | src/views/HomePage.jsx:95-100 | the first range containing the attendance, or none if no range does |
| HomePage.AttendanceDistribution | src/views/HomePage.jsx:82-104 | the five fixed ranges each count the employees whose first matching range it is, and the counts plus the unmatched employees make up all employees |
| HomePage.RangesDisjoint | src/views/HomePage.jsx:85-91 | no attendance lies in two ranges |
| HomePage.IntegerAttendanceBucketed | src/views/HomePage.jsx:85-100 | every whole attendance from 0 to 100 falls in exactly one range |
| HomePage.GapsAreMissed | src/views/HomePage.jsx:85-100 | negative attendance and fractions between 25 and 26, 50 and 51, or 75 and 76 are counted nowhere |
| HomePage.AttendanceTotalBounded | src/views/HomePage.jsx:82-104 | the bar chart never counts more employees than the page holds |
| EmployeeTilePage.PagingStaysValid | src/views/EmployeeTilePage.jsx:77-87 | paging keeps page 1 onwards, and Next moves iff `page * 8` is below the total, which is when its button is enabled |
| EmployeeTilePage.ConfirmDelete | src/views/EmployeeTilePage.jsx:90-100 | one delete for the recorded employee, and nothing without one |
| EmployeeTilePage.DeleteSettled | src/views/EmployeeTilePage.jsx:55-64 | success closes the confirmation and refetches; failure changes nothing |
| EmployeeTilePage.HandleFlag | src/views/EmployeeTilePage.jsx:103-114 | the flag request always sets `flagged` to true for that employee |
| EmployeeTilePage.HandleAdd | src/views/EmployeeTilePage.jsx:117-120 | the form opens in add mode and nothing else changes |
| EmployeeTilePage.HandleEdit | src/views/EmployeeTilePage.jsx:123-126 | the form opens on the employee and nothing else changes |
| EmployeeTilePage.HandleFormClose | src/views/EmployeeTilePage.jsx:129-133 | the form closes, the selection is cleared and the list refetched |
| EmployeeTilePage.EditThenCloseRestores | src/views/EmployeeTilePage.jsx:117-133 | opening the form and closing it restores the page state |
| EmployeeTilePage.DeleteNeverSent | src/views/EmployeeTilePage.jsx:253-275 | no sequence of clicks on the page opens the confirmation or sends a delete, and the form only opens in add mode |
| EmployeeTilePage.FormClosedForNonAdmin | src/views/EmployeeTilePage.jsx:158-168 | for a non-admin the form modal never opens |
| EmployeeTilePage.FromInitial | src/views/EmployeeTilePage.jsx:32-39 | both facts hold from the page's first render |
| EmployeeList.DetailsQuery | src/components/EmployeeList.jsx:25-32 | the details query runs iff an employee is selected, for that employee's id |
| EmployeeList.RowClick | src/components/EmployeeList.jsx:63-66 | a row click selects the employee and opens the details, nothing else |
| EmployeeList.CloseDetails | src/components/EmployeeList.jsx:68-72 | closing hides the details, keeps the selection and schedules one clear |
| EmployeeList.SelectionTimerFired | src/components/EmployeeList.jsx:71 | the scheduled clear drops the selection whatever has happened since |
| EmployeeList.SelectionTimerFiredIntended | src/components/EmployeeList.jsx:70-71 | a scheduled clear that keeps the selection while the details are open again |
| EmployeeList.DetailsFetchFollowsSelection | src/components/EmployeeList.jsx:25-32 | the details query follows a click, survives the close, and stops once the timer fires |
| EmployeeList.HandleAdd | src/components/EmployeeList.jsx:75-78 | the form opens in add mode and nothing else changes |
| EmployeeList.HandleEdit | src/components/EmployeeList.jsx:81-85 | the form opens on the employee and nothing else changes |
| EmployeeList.HandleDeleteClick | src/components/EmployeeList.jsx:88-92 | the confirmation opens on the employee and nothing else changes |
| EmployeeList.ConfirmDelete | src/components/EmployeeList.jsx:95-105 | with a recorded employee one delete is sent and loading starts; without one nothing happens |
| EmployeeList.DeleteSettled | src/components/EmployeeList.jsx:35-44 | loading ends; success closes the confirmation and refetches, failure keeps it open |
| EmployeeList.HandleFormClose | src/components/EmployeeList.jsx:108-112 | the form closes, the edit target is cleared and the list refetched |
| EmployeeList.DeleteFlow | src/components/EmployeeList.jsx:88-105 | clicking delete and confirming sends a delete for that employee; a failure leaves the confirmation open, a success closes it |
| EmployeeList.DetailsBadges | src/components/EmployeeList.jsx:261-262 | one badge per comma-separated subject, one empty badge for no subjects |
| EmployeeList.RunKeepsConfirmationSubject | src/components/EmployeeList.jsx:88-105 | through any clicks, an open confirmation always has an employee to delete |
| EmployeeList.ConfirmFromReachableSends | src/components/EmployeeList.jsx:291-296 | in every reachable state, confirming an open confirmation sends exactly one delete |
| EmployeeList.StaleTimerClearsReopenedSelection | src/components/EmployeeList.jsx:68-72 | opening a second employee before the first close's timer fires leaves the details open with no selection |
| EmployeeList.IntendedTimerKeepsDetailsSubject | src/components/EmployeeList.jsx:68-72 | with the intended timer, open details always have a selected employee |
| EmployeeList.NonAdminNeverDeletes | src/components/EmployeeList.jsx:164-179 | for a non-admin, no clicks ever open the form or the confirmation, and no delete is sent |
| EmployeeTile.ColorOf | src/components/EmployeeTile.jsx:24-28 | green from 90, yellow from 75 below 90, red below 75 |
| EmployeeTile.ColorMonotone | src/components/EmployeeTile.jsx:24-28 | higher attendance never gets a worse colour |
| EmployeeTile.DetailsQuery | src/components/EmployeeTile.jsx:18-21 | the details query runs iff the modal is open, for the tile's id |
| EmployeeTile.CardClick | src/components/EmployeeTile.jsx:34-67 | a click on the card opens the details; a click on the footer does nothing |
| EmployeeTile.CloseDetails | src/components/EmployeeTile.jsx:89-107 | every close path hides the details |
| EmployeeTile.DetailsFetchOnlyWhileOpen | src/components/EmployeeTile.jsx:18-21 | the query is skipped before the card is opened, after a footer click and after closing |
| EmployeeTile.ModalBadges | src/components/EmployeeTile.jsx:155-156 | one comma-free badge per comma-separated subject |
| EmployeeDetailPage.View | src/views/EmployeeDetailPage.jsx:28-56 | loading shows the spinner, then an error shows the alert, then a missing employee shows not-found, else the details |
| EmployeeDetailPage.HandleDelete | src/views/EmployeeDetailPage.jsx:22-26 | one delete for the page's id iff the user confirms |
| EmployeeDetailPage.DeleteSettled | src/views/EmployeeDetailPage.jsx:16-20 | success refetches and navigates home; failure does neither |
| EmployeeDetailPage.ActionBar | src/views/EmployeeDetailPage.jsx:106-126 | Edit and Delete are rendered iff the user is an admin |
| EmployeeDetailPage.DeleteNeedsAdminAndConfirm | src/views/EmployeeDetailPage.jsx:114-125 | a click sends a delete iff the user is an admin, no delete is in flight and the user confirms, and then exactly one for the page's id |
| EmployeeDetailPage.DetailBadges | src/views/EmployeeDetailPage.jsx:95-96 | one badge per comma-separated subject, one empty badge for no subjects |
| Navigation.ActiveOnSelfAndBelow | src/components/Layout.jsx:20-22 | a path is active on itself and on everything below it |
| Navigation.SiblingInactive | src/components/Layout.jsx:20-22 | a path that merely extends the name without a slash is not active |
| Navigation.RootActiveIff | src/components/Sidebar.jsx:72-74 | `/` is active only on `/` itself and on paths starting `//` |
| Navigation.HomeHighlightIff | src/components/Layout.jsx:40 | Home is highlighted iff the path is `/` or starts `//` |
| Layout.ToggleMobileMenu | src/components/Layout.jsx:11-13 | toggling flips the mobile menu |
| Layout.CloseMobileMenu | src/components/Layout.jsx:15-17 | closing leaves the menu closed |
| Layout.MobileMenuLaws | src/components/Layout.jsx:11-17 | toggling twice restores, closing is idempotent, and opening then closing ends closed |
| Layout.NavLinks | src/components/Layout.jsx:37-72 | the bar shows Home, Grid and Tile, plus Add iff the user is an admin |
| Layout.ViewPageHighlightsOnlyItself | src/components/Layout.jsx:45-60 | on a view page exactly that view's link is highlighted |
| Sidebar.ToggleSidebar | src/components/Sidebar.jsx:76-82 | the toggle flips the collapsed state and reports the new state iff a listener is given |
| Sidebar.ToggleTwiceRestores | src/components/Sidebar.jsx:76-82 | toggling twice restores the collapsed state |
| Sidebar.LinkTarget | src/components/Sidebar.jsx:23 | an entry with a submenu links to `#`, a leaf to its own path |
| Sidebar.Click | src/components/Sidebar.jsx:13-27 | a submenu entry toggles and prevents navigation without calling its handler; a leaf calls its handler iff it has one |
| Sidebar.SubmenuClickTwice | src/components/Sidebar.jsx:13-18 | two clicks on a submenu entry restore it |
| Sidebar.EmployeesEntryIsOnlyAToggle | src/components/Sidebar.jsx:183-206 | the Employees entry only toggles its submenu and is never highlighted |
| Sidebar.LeafClosesOnMobile | src/components/Sidebar.jsx:190-205 | a leaf entry closes the sidebar iff on mobile |
| Scenarios.AdminLoginPermitsMutations | src/services/authContext.jsx:82-92 | after an admin login, a confirmed delete on the detail page is sent and a valid form is saved |
| Scenarios.UserLoginBlocksMutations | src/components/PermissionButton.jsx:16-34 | after a user login, no delete is sent from the detail page or the list, and the modal refuses with the admin-only notice |
| Scenarios.FailedSaveThenRetry | src/components/EmployeeFormModal.jsx:64-74 | a failed save keeps the modal open, and a corrected resubmission is sent |

## Left out

- Rendering: the JSX markup, CSS classes, charts, icons and toasts are not modelled. Nor are `Modal.jsx` and `ToastProvider.jsx`, except that a closed modal renders no buttons.
- The Apollo transport, the HTTP link, the cache and `refetchQueries`: requests are values, and the server's answer is an input.
- `parseInt` and `parseFloat` are not modelled; their results are inputs (`FormFields.Parsed`), since the number grammar lives in the browser.
- Showing a JavaScript number as text is the parameter `showNumber`, except for whole numbers (`Text.IntToString`), because floating-point printing is out of scope.
- `toFixed`, the average displays on the home page and `toLocaleDateString` are display formatting only.
- HomePage.ClassDistribution: the slices follow the first occurrence of each class. `Object.keys` lists integer-like keys first, and that ordering is not modelled.
- HomePage.ClassDistribution: the tally is a map, not a plain object, so class names inherited from `Object.prototype` are not modelled. With the source, `__proto__` gives no slice at all, and `constructor`, `toString`, `valueOf` and the other inherited names give `NaN` for one employee and one less than the true count for more.
- HomePage.ClassesCountMatchesChart: the agreement between the "classes" statistic and the slice count holds only for class names that are not inherited from `Object.prototype`; for `__proto__` the source counts one class and draws no slice.
- The mutation completions (`EmployeeList.DeleteSettled`, `EmployeeTilePage.DeleteSettled`, `EmployeeFormModal.MutationCompleted`) assume that the `onCompleted` and `onError` given to `useMutation` run even though every call also passes its own pair that dismisses the loading toast. Apollo Client releases that run only the per-call pair would never close the confirmation, refetch or close the modal; which behaviour applies depends on the installed Apollo version, which is not part of this model.
- Asynchronous timing: promises, effects and the 300 ms `setTimeout` are ordered events, not times.
- HTML constraint validation (`required`, `min`, `max`, `step`) runs in the browser before the submit handlers. It is not modelled; the handlers are modelled as written.
- Attendance values that are NaN or infinite are not modelled, because attendance is a `real`.
- `window.confirm` and the route parameter's `parseInt` are inputs to the detail page.
- The static views, the route table, `SidebarLayout.jsx` and the server side are outside this model.
- The sidebar's hover tooltip and the collapsed-title text are not modelled; they are display only.

## Findings

| source | as written | input that shows it | evidently intended | confidence | as-written member | corrected member |
|---|---|---|---|---|---|---|
| src/components/EmployeeFormModal.jsx:36 | attendance `0` is falsy, so editing an employee with attendance 0 prefills an empty field, which validation then rejects as missing | Employee(1, "Ann", 30, "Ops", "Math", 0.0) opened in edit mode and saved unchanged | every number is written out, so an acceptable employee re-validates unchanged | not executed | EmployeeFormModal.ZeroAttendanceBlocksResave | EmployeeFormModal.IntendedPrefillRevalidates |
| src/components/EmployeeList.jsx:68-72 | closing the details schedules an unconditional clear of the selection 300 ms later | click row a, close, click row b within 300 ms: the old timer fires and the open details lose their employee | the delayed clear applies only while the details stay closed | not executed | EmployeeList.StaleTimerClearsReopenedSelection | EmployeeList.IntendedTimerKeepsDetailsSubject |
