# Admin console session and list logic, in Dafny

This project models the logic under an Angular admin console: the session
store (`AuthService`), the login screen (`LoginComponent`), the two remote
list screens (`ProductsComponent`, `UsersComponent`) and the application
shell (`LayoutComponent`). Each component is an immutable record, and each
method or subscriber callback is a pure transition function over it.

- `Wrappers`, `Http` (wrappers.dfy): `Option`, for `T | null`. `Reply`, the next-or-error outcome one subscriber sees for one request.
- `Text` (text.dfy): ECMAScript `trim` with the exact WhiteSpace and LineTerminator code points, `toLowerCase`, the `x || fallback` truthiness test, and the filter normalisation `trim().toLowerCase()`.
- `Auth` (auth.dfy): `localStorage` is a `map<string, string>`. The `BehaviorSubject` is one current-user field. JSON is an abstract `Codec`: a `serialize` function and a `parse` function that returns `Option`. Also `getStoredUser`, the constructor, the `login` success `tap`, `logout`, `isLoggedIn`, and a replay of any sequence of logins and logouts.
- `Login` (login.dfy): the return-URL default, the "already logged in" redirect, the submit, and the `next`/`error`/`complete` callbacks in the order the observable runs them.
- `RemoteList` (remote_list.dfy): one generic controller over rows `Row(id, data)`. The screens differ only in the `Kind` selector:
  - the load error text;
  - the server pagination that only products copies;
  - the client paginator that only users attaches and resets on filter.
- `Products`, `Users` (products.dfy, users.dfy): the stock-quantity classifier, the case-insensitive role badge and `trackByUserId`. They also restate the shared controller for each screen: the products load, and the users load, filter and delete.
- `Layout` (layout.dfy): the initial menu, `toggleSidebar`, `setActive` and `logout`.

Behaviour of the code worth knowing:

- **Responses apply in arrival order.** Nothing sequences list requests. Whichever response arrives last overwrites the rows, and a success callback does not clear an error left by an earlier failed request (`RemoteList.LoadSucceeded` keeps `error`).
- **Token and user can be unpaired.** Logins and logouts keep them paired (`Auth.PairedAfterRun`), provided every login response carries a user. The service checks only the token. But the constructor can start logged in with no user when the stored user is corrupt (`Auth.CorruptStoredUser`).
- **Filtering does not change `totalItems`.** The controller only sets the filter string. The products screen's `totalItems` changes only when a load succeeds. The row count that the users screen's paginator shows is set by the table library, not by this code.
- **Success without a token still navigates.** A login reply with an empty token still runs `next`, so the screen goes to the return URL while the session stays unchanged (`Login.NavigatesWithoutToken`).

`RemoteList.PageChanged` stands for the user paging through the table with the paginator (library behaviour). It exists so that the users screen's reset to page 0 can be stated from any page.

## Model

| member | source | states |
|---|---|---|
| Auth.Init | src/app/services/auth.service.ts:36-40 | construction only reads storage, and starts with a user only when `current_user` holds a non-empty value |
| Auth.Token | src/app/services/auth.service.ts:46-48 | the token is present exactly when `auth_token` is stored, and is then the stored value |
| Auth.CurrentUserValue | src/app/services/auth.service.ts:42-44 | the getter returns the user the subject currently holds, which `Auth.LoginTap` and `Auth.Logout` set |
| Auth.StoredUser | src/app/services/auth.service.ts:73-83 | a restored user exists only when `current_user` is present and non-empty, and is then what the codec parses (none when it does not parse) |
| Auth.IsLoggedIn | src/app/services/auth.service.ts:69-71 | logged in exactly when `auth_token` is stored and non-empty |
| Auth.LoginTap | src/app/services/auth.service.ts:53-58 | a truthy token stores the token and the serialised user, publishes the user, and touches no other key; a missing or empty token changes nothing |
| Auth.Login | src/app/services/auth.service.ts:50-61 | a failed request changes nothing; a successful one runs the `tap` exactly, so without a truthy token it changes nothing and with one it leaves the session logged in with the response's user current |
| Auth.Logout | src/app/services/auth.service.ts:63-67 | both session keys are gone, every other key is unchanged, no user is current, and the session is not logged in |
| Auth.LogoutIdempotent | src/app/services/auth.service.ts:63-67 | logging out twice is the same as logging out once |
| Auth.RestoreAfterLogin | src/app/services/auth.service.ts:54-80 | with a codec that reads back what it writes, a restart after login restores the logged-in user and is logged in |
| Auth.RestoreAfterLogout | src/app/services/auth.service.ts:63-82 | a restart after logout restores no user and is not logged in |
| Auth.CorruptStoredUser | src/app/services/auth.service.ts:73-82 | an unparsable stored user is restored as no user; whether the session is logged in then depends on the token alone |
| Auth.LoggedInAfterRun | src/app/services/auth.service.ts:50-71 | after any sequence of logins and logouts, the session is logged in exactly when the last call that changed it was a login |
| Auth.MirroredAfterRun | src/app/services/auth.service.ts:36-83 | from construction on, what a restart would restore from storage always equals the published current user |
| Auth.PairedAfterRun | src/app/services/auth.service.ts:50-67 | once token and user are paired, logins and logouts keep them paired |
| Login.ReturnUrl | src/app/components/login/login.component.ts:38 | the return URL is the query parameter when it is truthy, `/dashboard` otherwise, and never empty |
| Login.Create | src/app/components/login/login.component.ts:21-39 | the constructor redirects to `/dashboard` exactly when already logged in, and starts idle with no error |
| Login.Submit | src/app/components/login/login.component.ts:45-54 | submit always clears the error; a request goes out exactly when the form is valid, which turns loading on; an invalid form leaves loading as it was |
| Login.OnNext | src/app/components/login/login.component.ts:55-57 | the success callback navigates to the return URL and changes no field |
| Login.ErrorText | src/app/components/login/login.component.ts:59 | the error text is the server message when present and non-empty, the fixed fallback otherwise |
| Login.OnError | src/app/components/login/login.component.ts:58-61 | the error callback shows that text, stops loading and does not navigate |
| Login.OnComplete | src/app/components/login/login.component.ts:62-64 | the completion callback stops loading and keeps the error |
| Login.Settle | src/app/components/login/login.component.ts:54-65 | every settled request stops loading and keeps the return URL; success runs the service's login and navigates to the return URL; failure shows the server message or the fallback text and leaves the session alone |
| Login.SuccessfulSubmission | src/app/components/login/login.component.ts:45-65 | a valid submit whose reply carries a token ends logged in as that user, on the return URL, idle, with no error |
| Login.NavigatesWithoutToken | src/app/components/login/login.component.ts:55-57 | a successful reply without a token still navigates, with the session unchanged |
| Login.LoggedInUserIsRedirected | src/app/components/login/login.component.ts:27-30 | after a login with a token, opening the login screen redirects to `/dashboard` |
| Login.SubmissionReturnsToRequestedRoute | src/app/components/login/login.component.ts:37-57 | a screen opened with a return parameter, submitted and answered with success, navigates to the route that parameter resolves to |
| RemoteList.Init | src/app/components/products/products.component.ts:95-100 | a screen of the given kind starts valid, loading, with no rows, no error, no filter and no paginator; the products screen starts at 0 items, 20 per page, page 0 |
| RemoteList.LoadStarted | src/app/components/products/products.component.ts:119-121 | load start turns loading on and clears the error; rows, filter and paging are untouched |
| RemoteList.LoadSucceeded | src/app/components/products/products.component.ts:124-131 | rows become the response data and loading stops; products take total, per-page and the 1-based page minus one; users keep their paging |
| RemoteList.LoadFailed | src/app/components/products/products.component.ts:132-137 | failure shows the screen's message and stops loading; rows and paging are untouched |
| RemoteList.Load | src/app/components/products/products.component.ts:119-139 | a load always ends with loading off and keeps kind, filter and paginator; it shows the screen's message exactly when the request failed, keeping the old rows and paging; success shows the new rows and, on the products screen, the server's paging with a 0-based page |
| RemoteList.ApplyFilter | src/app/components/products/products.component.ts:141-144 | the filter becomes the normalised input; rows, paging, loading and error are untouched; an attached users paginator goes to page 0 |
| RemoteList.ViewInit | src/app/components/users/users.component.ts:75-78 | only the users screen attaches a paginator, on page 0, and only when the view has one |
| RemoteList.Without | src/app/components/products/products.component.ts:155 | the kept rows are exactly the rows whose id differs; the count drops by the number of rows with that id |
| RemoteList.DeleteSucceeded | src/app/components/products/products.component.ts:154-156 | a successful delete keeps exactly the rows with another id, in their order, and changes nothing else |
| RemoteList.Delete | src/app/components/products/products.component.ts:151-163 | a declined confirmation or a failed request leaves the state unchanged; a confirmed success removes the id's rows and changes no other field |
| RemoteList.WithoutConcat | src/app/components/products/products.component.ts:155 | removal distributes over concatenation, so kept rows keep their relative order |
| RemoteList.WithoutAbsent | src/app/components/products/products.component.ts:155 | deleting an id no row carries is a no-op |
| RemoteList.WithoutIdempotent | src/app/components/products/products.component.ts:155 | deleting the same id twice is the same as once |
| RemoteList.DeleteRemovesOne | src/app/components/products/products.component.ts:155 | with unique ids, deleting a present id removes exactly one row |
| RemoteList.LoadKeepsValid | src/app/components/products/products.component.ts:119-139 | every load transition keeps paging tied to its screen, and keeps an error only with loading stopped and only the screen's own message |
| RemoteList.EditsKeepValid | src/app/components/products/products.component.ts:141-163 | filtering, paginator changes and deletes keep the same validity |
| Products.StockClass | src/app/components/products/products.component.ts:165-172 | danger exactly at quantity at most 10, surplus exactly at 50 or more, normal exactly strictly between |
| Products.StockClassMonotone | src/app/components/products/products.component.ts:165-172 | more stock never gives a scarcer class |
| Products.LoadCopiesPagination | src/app/components/products/products.component.ts:119-139 | a products load takes the server's total, page size and 0-based page on success, and keeps rows and paging with the products message on failure |
| Users.RoleBadge | src/app/components/users/users.component.ts:130-136 | admin and moderator in any case get their badges; any other role or none gets the user badge |
| Users.RoleBadgeIgnoresCase | src/app/components/users/users.component.ts:130-136 | roles equal up to case get the same badge |
| Users.TrackById | src/app/components/users/users.component.ts:138-140 | a row's tracking key is its id, whatever its position |
| Users.TrackedKeysAfterDelete | src/app/components/users/users.component.ts:138-140 | after a delete no table position tracks the deleted id, and every remaining key was present before |
| Users.LoadTransitions | src/app/components/users/users.component.ts:80-99 | a users load stops loading and never gains paging; success replaces the rows, failure keeps them and shows the users message |
| Users.FilterResetsFirstPage | src/app/components/users/users.component.ts:101-108 | filtering sends an attached paginator to page 0 from any page and stores the normalised input |
| Users.DeleteTransitions | src/app/components/users/users.component.ts:116-128 | a confirmed successful delete leaves no row with the id and keeps the others in order; otherwise nothing changes |
| Text.Trim | src/app/components/products/products.component.ts:143 | the trimmed string neither starts nor ends with whitespace |
| Text.TrimStartSkips | src/app/components/products/products.component.ts:143 | the start of a trim drops exactly the leading whitespace in front of a non-whitespace character |
| Text.TrimEndSkips | src/app/components/products/products.component.ts:143 | the end of a trim drops exactly the trailing whitespace after a non-whitespace character |
| Text.TrimRecovers | src/app/components/products/products.component.ts:143 | trimming any whitespace-surrounded string with non-whitespace ends returns exactly that string |
| Text.Lower | src/app/components/users/users.component.ts:131 | lower-casing keeps the length and lower-cases every character in place |
| Text.NormalizeRecovers | src/app/components/users/users.component.ts:103 | the stored filter is the input's own text, without the surrounding whitespace, lower-cased |
| Text.NormalizeIdempotent | src/app/components/products/products.component.ts:143 | normalising twice is the same as normalising once |
| Text.Normalize | src/app/components/users/users.component.ts:103 | a normalised filter has no surrounding whitespace and no capital letters, and is no longer than the input |
| Text.EqualsIgnoringCaseIsLowerEquality | src/app/components/users/users.component.ts:131-135 | comparing after `toLowerCase` is exactly case-insensitive equality |
| Layout.InitialState | src/app/components/layout/layout.component.ts:14-24 | the shell starts expanded, with six entries and only Dashboard, the first, highlighted |
| Layout.ToggleSidebar | src/app/components/layout/layout.component.ts:31-33 | toggling flips the collapsed flag and leaves the menu alone |
| Layout.ToggleTwice | src/app/components/layout/layout.component.ts:31-33 | toggling twice is the identity |
| Layout.SetActive | src/app/components/layout/layout.component.ts:35-39 | exactly the entry at the index is highlighted; length, icons, labels (the `title` field) and routes are unchanged |
| Layout.SetActiveHighlights | src/app/components/layout/layout.component.ts:35-39 | an in-range index leaves exactly that entry highlighted; any other index leaves none |
| Layout.Select | src/app/components/layout/layout.component.ts:35-39 | selecting changes only the menu, never the sidebar |
| Layout.Logout | src/app/components/layout/layout.component.ts:41-44 | logout first clears the session, leaving it logged out with no user, then navigates to `/login` |
| Layout.LoginScreenStaysAfterLogout | src/app/components/layout/layout.component.ts:41-44 | because the session is cleared first, the login screen reached by logout does not redirect back to the dashboard |

## Left out

- Angular wiring is not modelled: decorators, dependency injection, `@ViewChild`, change detection and the Material module imports.
- HTTP and RxJS are not modelled. Each request is an explicit `Reply` input to the transition that handles it.
- Browser side effects are not modelled. `confirm` is a boolean input; `alert` and `console` produce nothing.
- `MatTableDataSource` is not modelled: its filter predicate, `MatSort` ordering and paginator slicing are library code that is not visible here. Only the filter string and the paginator index are modelled.
- The paginator updates the table library makes are not modelled. The library sets the paginator's length to the filtered row count, and moves its page index back to the last page when the data shrinks. The model changes the index only through `RemoteList.ViewInit`, `RemoteList.ApplyFilter` and `RemoteList.PageChanged`.
- `localStorage` and JSON are not modelled concretely. Storage is a map and the codec is abstract. JSON text that parses to something other than a user, such as `null`, counts as no user.
- Storage being unavailable is not modelled: the service reads `localStorage` directly and has no fallback.
- Subscriptions to the user observable are not modelled. The subject is its current value, as `currentUserValue` reads it.
- Route guards are not modelled. `guards/auth.guard` and `guards/login.guard` are not part of this model, and the route table itself is static.
- The dashboard screen and `editProduct`/`editUser` are not modelled: they are placeholder data and alert stubs.
- A login response always carries a user. A reply with a truthy token and a `null` user would store the token and publish no user, leaving the session logged in without a user; the response type declares `user` as required, so that reply is not modelled.
- Request ordering is not modelled. Responses are applied in the order they arrive, as the code does.
- Text.Lower: maps only the ASCII capitals, not the full Unicode case mapping of `toLowerCase`. So filter strings with non-ASCII capitals differ from the browser's. The role badge does not depend on this: the only non-ASCII character that lower-cases to an ASCII letter is the Kelvin sign, which becomes `k`, and `k` is in neither `admin` nor `moderator`.
- Products.StockClass: quantities are integers. JavaScript numbers can also be fractional or `NaN`; a `NaN` quantity is classed normal.
