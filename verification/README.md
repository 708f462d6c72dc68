# BinIQ admin console — a Dafny model of its session guard and page logic

BinIQ-Admin-Vite is the single-page admin console of the BinIQ platform. This
project models the console's core as pure functions over immutable data:

- **Session guard** (`Session`). Two slots of the browser's key-value storage
  hold the bearer token and the admin profile. Login fills them and logout
  empties them. The authentication check clears them when the token's `exp`
  claim has passed, and also when the token cannot be decoded (fail-closed).
  The authenticated request wrapper attaches the bearer header and ends the
  session on a 401.
- **Authentication context and route gate** (`AuthContext`, `ProtectedRoute`).
  These cover the start-up restore, the derived `isAuthenticated` flag, and
  the loading / redirect / children decision.
- **Login page** (`LoginPage`). Covers submit handling and the message shown
  for each kind of failed login.
- **Account tables** (`Accounts`, `ConfirmModal`, `StoreOwners`, `Resellers`):
  - the status and usage cells;
  - the approve / reject / delete actions with their error texts and the
    optimistic list updates;
  - the shared confirmation dialog;
  - the "Sr No." numbering by position of the row's id.
- **FAQ, feedback and notification pages** (`Faq`, `Feedback`,
  `Notifications`). Covers the mapping of API records to rows, the statistics
  cards, and the add / edit / reply / delete handlers with the counters they
  maintain.
- **Dashboard, subscriptions and settings** (`Dashboard`, `Subscriptions`,
  `Settings`): the time and type labels, the reply modal, the revenue and
  status cards, the payment cell, and the API-key visibility toggle.

Shared building blocks:

- `Wrappers` holds `Option` and `Result`.
- `Http` describes one backend call as data: the request never arrived, or
  it produced a status and a body that either parsed or threw.
- `Text` holds trimming, substring search, first-occurrence replacement,
  capitalisation, decimal rendering and splitting.
- `Lists` holds filtering, counting and summing, and the keyed operations the
  pages share: remove by id, patch by id, and the row number of an id.

The network, the clock, `localStorage` and the JSON and base64 decoders are
parameters. A page handler receives the reply (`Http.Reply`) that
`makeAuthenticatedRequest` handed back. The session effect of a 401 is stated
once, by `Session.AuthenticatedRequest`.

Where the documented behaviour and the code differ, the model follows the
code:

- The FAQ and notification handlers close their dialog and reset their form
  only when nothing threw. A failed save keeps both.
- The FAQ page never checks the HTTP status. It acts on the body's `message`.
- FAQ row numbers are stored when the list is fetched, so a delete leaves a
  gap in the numbering. A later add is numbered one past the list's length,
  so it repeats the last row's number.
- The notification read rate is not recomputed after an add.
- A JWT payload in the URL-safe base64 alphabet makes `atob` throw, so the
  guard treats it as expired.

## Model

| member | source | states |
|---|---|---|
| Http.OrElse | src/pages/StoreOwners.tsx:445-447 | `message \|\| fallback`: a non-empty message wins; an absent or empty one falls back; a non-empty fallback never yields an empty text |
| Http.CaughtMessage | src/pages/StoreOwners.tsx:466-468 | the catch block's `err.message \|\| fallback`: the message of an Error unless empty, the fallback for any other thrown value |
| Http.TransportError | src/lib/auth.ts:138-159 | no error exactly when the request reached the server and its body parsed; every transport or parse failure is an Error object |
| Http.MessageText | src/pages/FAQ.tsx:247-250 | a template literal `${err.message}` shows the Error's message, and "undefined" for a thrown non-Error |
| Session.Logout | src/lib/auth.ts:96-99 | both slots are gone, every other storage key keeps its value, and no key is added |
| Session.LogoutIdempotent | src/lib/auth.ts:96-99 | logging out twice equals logging out once, and leaves no token |
| Session.ExpiryFailsClosed | src/lib/auth.ts:118-126 | a payload segment that `atob` rejects or that cannot be parsed counts as expired at every clock reading |
| Session.UrlSafePayloadIsExpired | src/lib/auth.ts:118-126 | a payload segment containing `-` or `_` (the URL-safe alphabet of RFC 4648 section 5) is always treated as expired |
| Session.DotlessTokenIsExpired | src/lib/auth.ts:118-126 | a token without a dot hands `atob` the string "undefined", whose length is one past a multiple of four, so it is expired |
| Session.StripWithoutWhitespace | src/lib/auth.ts:120 | the whitespace stripping in front of base64 decoding leaves a string without whitespace unchanged |
| Session.ExpiryBoundary | src/lib/auth.ts:121-122 | the comparison `exp < now/1000` is strict: a token is valid at exactly `exp` seconds and expired one millisecond later; without `exp` it never expires |
| Session.IsAuthenticated | src/lib/auth.ts:101-116 | true exactly when a non-empty token, a readable profile and an unexpired token are all present; storage is untouched unless the token expired, in which case both slots are removed |
| Session.IsAuthenticatedStable | src/lib/auth.ts:101-116 | a second check answers the same as the first and changes nothing more, so the cleanup is idempotent |
| Session.LoggedOutIsUnauthenticated | src/lib/auth.ts:96-116 | after logout the guard answers false and leaves storage as it is |
| Session.AuthHeaders | src/lib/auth.ts:128-136 | no headers without a token; with one, exactly `Authorization: Bearer <token>` and the JSON content type |
| Session.AuthenticatedRequest | src/lib/auth.ts:138-159 | caller headers override the auth headers key by key; a 401 logs out and redirects to /login; any other reply leaves session and location alone; the reply is passed through |
| Session.UnauthorizedEndsSession | src/lib/auth.ts:153-156 | after any request answered 401 the guard reports unauthenticated |
| Session.Login | src/lib/auth.ts:45-71 | success exactly on an accepted reply, which stores the token and serialized profile and keeps every other key; any failure leaves storage unchanged and throws an Error; a refusal carries `message \|\| "Login failed"` |
| Session.RefusedLoginHasMessage | src/lib/auth.ts:55-58 | a refused login always throws an Error with a non-empty message |
| Session.LoginThenAuthenticated | src/lib/auth.ts:60-64 | after a successful login with a live non-empty token, the guard answers true without cleanup and the stored profile reads back as the one the server sent (given a faithful JSON codec) |
| Session.ExpiredSessionIsCleared | src/lib/auth.ts:110-113 | a stored session whose token has expired is removed and the guard answers false |
| AuthContext.InitAuth | src/context/AuthContext.tsx:22-33 | loading ends; the profile is restored from storage exactly when the guard accepts the stored session; the storage is what the guard left |
| AuthContext.StartupRestoresOnlyValidSession | src/context/AuthContext.tsx:22-33 | from a fresh mount, a profile is in memory after start-up iff the stored session is valid |
| AuthContext.ContextAuthenticated | src/context/AuthContext.tsx:51 | the derived flag is true iff a profile is in memory and the guard accepts; the guard's cleanup happens only when a profile is in memory |
| AuthContext.EvaluatingFlagClearsExpiredSession | src/context/AuthContext.tsx:51 | evaluating the flag with an expired stored token clears the stored session |
| AuthContext.ContextLogin | src/context/AuthContext.tsx:35-42 | success exactly on an accepted reply, with the profile set to the server's `user_details`; a failure rethrows the guard's error and changes nothing |
| AuthContext.LogoutThenUnauthenticated | src/context/AuthContext.tsx:44-47 | after logout both slots are gone and the derived flag is false |
| AuthContext.LoginThenContextAuthenticated | src/context/AuthContext.tsx:35-51 | a successful login with a live token makes the derived flag true |
| ProtectedRoute.GateOutcomes | src/components/ProtectedRoute.tsx:8-32 | loading shows the placeholder; otherwise an unauthenticated visitor is redirected (replacing history) to /login; only an authenticated one sees the page, each case in both directions |
| ProtectedRoute.GuardRoute | src/components/ProtectedRoute.tsx:8-32 | the protected page renders iff loading is done, a profile is in memory and the guard accepts the stored session |
| ProtectedRoute.LoggedOutRoutesRedirect | src/components/ProtectedRoute.tsx:27-29 | after logout every protected route redirects to /login |
| LoginPage.LoginErrorMessageCases | src/pages/Login.tsx:42-55 | connection trouble first, bad credentials second, then the error's own message; only a non-Error shows the default text |
| LoginPage.ConnectionTakesPriority | src/pages/Login.tsx:46-51 | example of LoginErrorMessageCases: a message naming both problems is classified as a connection problem |
| LoginPage.StartSubmit | src/pages/Login.tsx:34-35 | a submit starts with loading on and the error cleared |
| LoginPage.FinishSubmit | src/pages/Login.tsx:37-60 | loading ends in every case; success navigates to /dashboard replacing history; failure shows the classified message |
| LoginPage.HandleSubmitOutcomes | src/pages/Login.tsx:32-61 | success navigates with no error and the context holds the server's profile; failure leaves the context untouched and shows the classified message; a refusal without a message shows "Login failed" |
| LoginPage.RedirectIfAuthenticated | src/pages/Login.tsx:25-30 | an authenticated visitor is sent to /dashboard; otherwise nothing changes |
| Accounts.ActivityLabel | src/pages/StoreOwners.tsx:336-349 | the badge is "Active" iff the subscription's status is "completed", else "Inactive" |
| Accounts.UsageCellContent | src/pages/StoreOwners.tsx:265-277 | "N/A" iff there is no subscription or the total is 0; otherwise the cell splits at "/" into two decimals that read back as the used and total counts |
| StoreOwners.PromotionsCellContent | src/pages/StoreOwners.tsx:265-277 | the "Total Promotions" cell is "N/A" iff there is no subscription or the total is 0; otherwise its two numbers read back as the used and total promotions |
| StoreOwners.StatusCell | src/pages/StoreOwners.tsx:336-349 | the owner's status badge is "Active" iff the subscription's status is "completed", else "Inactive" |
| Resellers.ScansCellContent | src/pages/Resellers.tsx:217-223 | the "Total Scans" cell is "N/A" iff there is no subscription or the total is 0; otherwise its two numbers read back as the number of recorded scans and the plan's total |
| Resellers.StatusCell | src/pages/Resellers.tsx:225-241 | the reseller's status badge is "Active" iff the subscription's status is "completed", else "Inactive" |
| ConfirmModal.HandleConfirm | src/pages/StoreOwners.tsx:143-154 | submitting ends; success closes the dialog with no error; failure keeps it and shows a non-empty error, the thrown Error's message when it has one |
| StoreOwners.VerifyLabel | src/pages/StoreOwners.tsx:285-299 | "Approved" iff the user or the store is verified, else "Pending" |
| StoreOwners.HandleAction | src/pages/StoreOwners.tsx:420-469 | success iff the reply parsed with a 2xx status, and then the list update is applied; failure leaves the list and throws a non-empty Error; a non-2xx reply throws `message \|\| "<action> failed"` |
| StoreOwners.ReviewOutcome | src/pages/StoreOwners.tsx:453-464 | approve shows the owner as "Approved" without review buttons; reject shows "Pending" with them again; other rows, all keys and all row numbers are unchanged |
| StoreOwners.DeleteOutcome | src/pages/StoreOwners.tsx:449-452 | deleting a listed owner (ids unique) removes exactly that row and keeps the rest in order |
| StoreOwners.Confirm | src/pages/StoreOwners.tsx:812-838 | the dialog closes iff the action succeeded; an error implies the list is unchanged; the error is the server's message or "<action> failed", never the dialog's own fallback |
| Resellers.HandleDelete | src/pages/Resellers.tsx:314-335 | success iff the reply parsed with a 2xx status; then no row has the id and every other row stays; failure keeps the list and throws `message \|\| "Delete failed"` |
| Resellers.DeleteRenumbers | src/pages/Resellers.tsx:146-150 | after deleting row k the list is the rest in order; earlier rows keep their "Sr No.", later ones drop by one, and the deleted id has none |
| Resellers.Confirm | src/pages/Resellers.tsx:530-536 | the dialog closes iff the delete succeeded; a failure keeps the list and shows the server's message or "Delete failed" |
| Faq.AudienceOf | src/pages/FAQ.tsx:116-126 | type 3 is "Store Owners"; every other type, null included, is "Resellers" |
| Faq.KindRoundTrip | src/pages/FAQ.tsx:152-173 | opening the editor on a row preselects type "3" for type-3 FAQs and "2" for every other type |
| Faq.MapFaqs | src/pages/FAQ.tsx:116-126 | row i carries record i's id, question and answer, number i+1, no views and status "Active" |
| Faq.Loaded | src/pages/FAQ.tsx:129-130 | after a fetch the counter equals the list's length and rows are numbered in order |
| Faq.HandleAddEdit | src/pages/FAQ.tsx:152-173 | the editor opens; edit mode iff a row is given, with the form filled from it and the row selected; add mode has an empty form and no selection |
| Faq.BlankSubmitChangesNothing | src/pages/FAQ.tsx:176-180 | a blank question or answer only sets "Question and Answer are required." |
| Faq.SubmitOutcomes | src/pages/FAQ.tsx:175-252 | a valid submit either throws, changing only the error line, or closes the dialog and resets form and selection, even when the message does not report success |
| Faq.SubmitSuccess | src/pages/FAQ.tsx:219-240 | a confirmed add appends a row numbered one past the list's length and counts it; a confirmed edit replaces the selected FAQ in place, keeping its number and views |
| Faq.DeleteOutcome | src/pages/FAQ.tsx:261-286 | only the exact "FAQ deleted successfully" removes exactly the selected FAQ and lowers the counter; any other reply leaves list and counter alone |
| Faq.DeletePreservesConsistency | src/pages/FAQ.tsx:261-286 | a delete keeps the counter equal to the length, ids unique and any selection listed |
| Faq.SubmitPreservesConsistency | src/pages/FAQ.tsx:175-252 | a submit keeps the page consistent, provided an add does not return an id already listed |
| Faq.LoadedIsConsistent | src/pages/FAQ.tsx:116-131 | with unique API ids the fetched page is consistent, and each stored number equals the position of its id plus one |
| Faq.StoredNumbersAfterChanges | src/pages/FAQ.tsx:222 | adding keeps rows numbered in order; deleting any but the last row leaves a gap in the numbering, and a later add then repeats the last row's number |
| Feedback.ToRow | src/pages/Feedback.tsx:93-104 | a row keeps id, rating, text and reply; the user type is "Store Owner" iff the API type is "store_owner", else "Reseller"; replied iff status "replied" |
| Feedback.MapFeedbacks | src/pages/Feedback.tsx:93-104 | the rows are the records mapped one by one, in order |
| Feedback.FetchedStats | src/pages/Feedback.tsx:107-118 | pending and replied partition the list; the average is 0 when empty and otherwise between the lowest and highest rating |
| Feedback.MeanBetween | src/pages/Feedback.tsx:108-116 | the mean of values bounded by lo and hi lies between lo and hi |
| Feedback.SendReplyOutcome | src/pages/Feedback.tsx:157-202 | nothing happens without a selection or with a blank message; otherwise the dialog closes and clears; only the exact success message marks the selected row as replied (disabling its button) and moves one from pending to replied; a transport error shows the retry message |
| Feedback.ReplyKeepsStatsExact | src/pages/Feedback.tsx:178-192 | replying to a listed pending row keeps the counters equal to the counts of the rows |
| Dashboard.FormatTimeCases | src/pages/Dashboard.tsx:355-358 | 0 hours is "Just now", 1 is "1 hour ago", and more use the plural with the count |
| Dashboard.FormatTimeWords | src/pages/Dashboard.tsx:355-358 | for a positive count the text is three words and the first reads back as the count |
| Dashboard.TypeLabelSpec | src/pages/Dashboard.tsx:187 | a missing or empty type shows "Unknown"; otherwise only the first dash becomes a space |
| Dashboard.StoreOwnerTypeLabel | src/pages/Dashboard.tsx:561 | example of TypeLabelSpec: the "store-owner" type shows as the two words "store owner" |
| Dashboard.ResellerTypeLabel | src/pages/Dashboard.tsx:561 | example of TypeLabelSpec: the "reseller" type, having no dash, shows as it is |
| Dashboard.ActionButton | src/pages/Dashboard.tsx:230-238 | the action is disabled iff the feedback is replied, captioned "Replied" then and "Reply" otherwise |
| Dashboard.StatusLabel | src/pages/Dashboard.tsx:223 | the badge keeps the status's length and every character after the first, upper-cases the first; "replied" and "pending" read "Replied" and "Pending" |
| Dashboard.HandleReplySubmit | src/pages/Dashboard.tsx:328-352 | success iff the reply parsed with a 2xx status; then only rows with the id are marked replied with the text; failure keeps the list; a non-2xx reply throws `message \|\| "Failed to send reply"` |
| Dashboard.SubmitReplyOutcome | src/pages/Dashboard.tsx:106-123 | a blank reply sends nothing; a failure keeps the list, the text and the modal with the fixed retry message; a success closes the modal and disables exactly the selected feedback's button |
| Subscriptions.Load | src/pages/Subscriptions.tsx:194-247 | the list and its cards are replaced iff the body parsed and says `success`; otherwise only the load error is set |
| Subscriptions.RevenueIsMaskedSum | src/pages/Subscriptions.tsx:214-216 | revenue equals the sum over all subscriptions of the amount when completed and 0 otherwise |
| Subscriptions.CountsPartition | src/pages/Subscriptions.tsx:217-225 | the three counts plus the uncounted statuses add up to the list's length; the counts cover every subscription iff none has another status |
| Subscriptions.StatsIgnoreOrder | src/pages/Subscriptions.tsx:214-225 | reordering the subscriptions changes no card |
| Subscriptions.RevenueNonNegative | src/pages/Subscriptions.tsx:214-216 | with non-negative amounts the revenue is non-negative |
| Subscriptions.PaymentLabelSpec | src/pages/Subscriptions.tsx:116-124 | plain "Card" iff a cardholder, month or year is missing or empty; otherwise the text names the cardholder |
| Subscriptions.StatusLabel | src/pages/Subscriptions.tsx:149 | for every status the badge keeps the length and every character after the first, and upper-cases the first |
| Subscriptions.StatusLabels | src/pages/Subscriptions.tsx:41 | each of the four declared statuses reads with a capital first letter |
| Notifications.AudienceOf | src/pages/Notifications.tsx:124-146 | "store_owner" and "reseller" name their audience; every other type, a missing one included, is "All Users" |
| Notifications.MapNotifications | src/pages/Notifications.tsx:124-146 | the rows are the records mapped in order, row i numbered i+1 |
| Notifications.RowShape | src/pages/Notifications.tsx:124-146 | a read notification is a sent row with a date and one read; an unread one is a draft without either; every row has one recipient |
| Notifications.RoundedPercentBounds | src/pages/Notifications.tsx:157-164 | the rounded rate is within half a point of the exact one, lies in [0, 100], is 0 with nothing sent and 100 with everything sent |
| Notifications.FetchedStats | src/pages/Notifications.tsx:150-164 | sent and draft partition the list, and the read rate is a percentage, 0 for an empty list |
| Notifications.OpenAdd | src/pages/Notifications.tsx:192-196 | the add dialog opens with an empty form of type "all", the list and cards untouched |
| Notifications.SubmitOutcome | src/pages/Notifications.tsx:198-262 | a blank field only sets the error; a thrown error only sets its message; otherwise the dialog closes and the form resets, and only the exact success message appends one draft, numbered after the last and counted, leaving the sent count and read rate |
| Notifications.SubmitKeepsStatsExact | src/pages/Notifications.tsx:227-253 | a submit keeps the cards equal to the counts of the rows |
| Notifications.AddedKeepsStatsExact | src/pages/Notifications.tsx:227-253 | appending the confirmed draft and raising the total and draft counters keeps the cards equal to the counts |
| Settings.Toggle | src/pages/Settings.tsx:119-124 | the clicked key's visibility flips (a missing entry counts as hidden) and no other entry changes |
| Settings.ToggleIcon | src/pages/Settings.tsx:194-198 | the "hide" icon shows iff the key is visible |
| Settings.ToggleTwice | src/pages/Settings.tsx:119-124 | the first click on an unseen key shows it; two clicks restore its visibility and icon; no other key changes |
| Settings.ToggleParity | src/pages/Settings.tsx:119-124 | after any clicks a key is shown iff its start state and the parity of its clicks say so |
| Settings.CardsAddUp | src/pages/Settings.tsx:236-276 | the active, inactive and expired cards add up to the total |
| Lists.RemoveUniqueKey | src/pages/Resellers.tsx:329-331 | removing a unique id from a list removes exactly its row and keeps the others in order |
| Lists.FilterDropsOne | src/pages/Resellers.tsx:329-331 | filtering out one rejected row between kept rows removes just that row |
| Lists.RowNumberOfRow | src/pages/StoreOwners.tsx:190-200 | with unique ids the row at position k is numbered k+1, and an absent id is numbered 0 |
| Lists.RowNumberAfterRemoval | src/pages/Resellers.tsx:146-150 | after removing row k, earlier rows keep their number and later rows drop by one |
| Text.ReplaceFirstSpec | src/pages/Dashboard.tsx:187 | `replace("-", " ")` with a string pattern changes only the first occurrence, and nothing when there is none |
| Text.BlankIffAllSpace | src/pages/FAQ.tsx:176-180 | `!value.trim()` holds iff every character is whitespace |
| Text.NatToStringRoundTrip | src/pages/StoreOwners.tsx:265-277 | the decimal text of a count is all digits and reads back as the count |

## Left out

- Rendering, styling, the data-table component, pagination, sorting and
  search: they do not change the data the handlers compute.
- `fetch`, `localStorage` and `window.location` are replaced by values.
  Request URLs and request bodies are not modelled.
- The URL of the store-owner delete request
  (`src/pages/StoreOwners.tsx:430`, `/users/delete-account=${userId}`)
  looks malformed. Because URLs are not modelled, the model does not say
  which endpoint the request reaches.
- JSON parsing and base64 decoding of the token payload are abstract
  functions. `atob` is modelled by its rejection rule (alphabet, padding,
  length). The decoded claims are left to the abstract decoder.
- The clock is a parameter in milliseconds. The token's `exp` is taken as a
  whole number of seconds. A fractional `exp` is not modelled.
- Floating point is not modelled:
  - Feedback's average rating is the exact real mean, without `toFixed(1)`.
  - Subscription amounts are whole currency units.
  - `Math.round` is modelled as rounding half up on whole numbers.
- Dashboard.FormatTime takes whole hours; a fractional `timeInHours` is not
  modelled. The source's `number` would print as, for example, "0.5 hour
  ago" or "1.5 hours ago".
- Dashboard.FormatTimeCases and Dashboard.FormatTimeWords state the label
  for whole hours only, for the reason given on the line above.
- Date and currency formatting (`toLocaleDateString`, currency display) are
  not modelled. The raw date string stands in for the formatted date.
- Text.Capitalize only upper-cases ASCII letters. `toUpperCase` on other
  letters is not modelled.
- The account's numeric fields are declared required and are modelled as
  numbers. A record that left one out is not modelled. A missing
  `used_promotions` would agree with 0 on the truthiness test but render
  as "/5", where the model's cell reads "0/5".
- The dashboard's concurrent statistics fetch (`Promise.all` over several
  endpoints) is not modelled. Its reply modal and feedback table are.
- Load failures of the FAQ, feedback and notification pages only set an
  error line. They are not modelled. A list body that is not an array is
  not modelled either. Subscriptions.Load models the subscription page's
  load, failure included.
- The page handlers take the reply that the authenticated request wrapper
  returned. What that wrapper does to the session on a 401 is stated only
  by Session.AuthenticatedRequest. It is not repeated in each page's
  contract.
- Console logging, error boundaries and the commented-out older copies of
  the pages are not modelled:
  - `src/pages/StoreOwners.tsx` after line 845;
  - `src/pages/FAQ.tsx` after line 664;
  - the second half of `src/pages/Subscriptions.tsx`.
- Dashboard.SubmitReply requires an open modal (a selected feedback). The
  modal is only mounted with one.
- Faq.SubmitPreservesConsistency assumes that an add does not return an id
  that is already listed. The page does not check this.
