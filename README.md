# Spotsync session and list logic, modelled in Dafny

This project models four pieces of client logic of the Spotsync lost-and-found app and proves properties of them:

- **Inactivity auto-logout** (`inactivity_logout.dfy`, module `InactivityLogout`). The mobile hook remembers the last lifecycle status. When the app goes to `inactive` or `background` it stores the current epoch-millis under the key `@appBackgroundedTime`. When it comes back to `active` from one of those, and once on mount, it runs an evaluation pass. The pass reads the key, calls the logout callback if more than 300000 ms (five minutes) have passed, and then deletes the key. Storage errors are swallowed. The class `InactivityMonitor` has the remembered status, the storage cell (`Option<int>`) and a count of logout calls as fields. Its methods are proved to follow the pure functions `EvaluationPass`, `Step` and `OnMount`. Lemmas over those functions, and over `Run` (a series of events), state the properties.
- **Offline retry panel** (`offline_notifier.dfy`, module `OfflineNotifier`). The panel has three fields: visible, retrying, and the pending reload action. `notifyOffline` stores an action and shows the panel. `closePanel` clears everything. `handleReload` runs the action, closes the panel on success, and re-enables retry on failure. `handleReload` is split at its `await` into `StartReload` and `SettleReload`. This lets the model state what happens when the panel is closed while a retry is in flight.
- **Claimed-items filter and pagination** (`claimed_items.dfy`, module `ClaimedItems`). This part covers the year filter, `ceil(n / 6)` pages, the guarded page setter, the current page's slice (with JavaScript `slice` semantics) and the disabled conditions of the previous/next buttons.
- **Guest rating modal** (`guest_rating.dfy`, module `GuestRating`). This part covers the star rating and feedback state, star presses, submission refused at rating 0, reset after a successful `onSubmit`, and the star-filled and submit-disabled conditions.

`wrappers.dfy` defines `Option`.

Inputs that the app gets from its environment are parameters here:

- the clock is `now`;
- a call that throws (a storage call or the logout callback) is `fault`;
- the outcome of the reload action and of `onSubmit` is a `bool`;
- the year of a claim date, as text, is the function `yearText`.

`closePanel` is not guarded against a running retry. Only the Close button is disabled while a retry runs; the modal's `onRequestClose` (the back-press path) calls `closePanel` unguarded. `CloseDuringRetryIsNotBlocked` states this.

Time away is measured from the last change to `inactive` or `background`, not from when the app left `active`. A change from `inactive` to `background` stamps the time again, so a long absence that passes through both can end without a logout. `RestampedAbsenceKeepsSession` exhibits such a run.

A notification that arrives while a retry is running replaces the pending action. If that retry then succeeds, its close discards the new action too (`NotifyDuringRetry`). A back-press close during a retry, followed by a new notification, re-enables the Reload button while the first action still runs, so two actions can run at once (`CloseThenNotifyAllowsOverlappingRetries`).

Storage failures are caught call by call, but their effects can carry over to later events. A failed removal leaves an old time in the cell, and a later failed write does not replace it. A short absence after that is then measured from the old time and logs the user out. `StaleTimestampAfterStorageFailures` exhibits such a run.

## Model

| member | source | states |
|---|---|---|
| `InactivityLogout.InactivityMonitor.Mount` | Mobile/hooks/useInactivityLogout.js:9-16 | mounting remembers the current status and leaves the monitor exactly as one evaluation pass over the persisted cell would (`OnMount`) |
| `InactivityLogout.InactivityMonitor.CheckInactiveTime` | Mobile/hooks/useInactivityLogout.js:48-75 | the cell and logout count after the method are those of one `EvaluationPass` at time `now` under the given fault (a throwing logout callback skips the removal) |
| `InactivityLogout.InactivityMonitor.SetBackgroundTimestamp` | Mobile/hooks/useInactivityLogout.js:39-46 | the cell holds `now` afterwards, unless the write fails, in which case it is unchanged |
| `InactivityLogout.InactivityMonitor.HandleAppStateChange` | Mobile/hooks/useInactivityLogout.js:24-37 | the whole new state (status, cell, logout count) is `Step` of the old state and the event |
| `InactivityLogout.ForegroundReturnRunsOnePass` | Mobile/hooks/useInactivityLogout.js:26-28 | a change from `inactive`/`background` to `active` runs exactly one evaluation pass: its cell and at most one logout |
| `InactivityLogout.LeavingForegroundStampsTime` | Mobile/hooks/useInactivityLogout.js:31-42 | a change to `inactive` or `background`, `inactive` to `background` included, never logs out and overwrites the cell with the current time (unchanged if the write fails) |
| `InactivityLogout.RemembersNextStatus` | Mobile/hooks/useInactivityLogout.js:36 | after every change event the remembered status is the new status |
| `InactivityLogout.OtherEventsAreInert` | Mobile/hooks/useInactivityLogout.js:26-36 | an event that neither returns to nor leaves the foreground (e.g. `active` to `active`) changes only the remembered status |
| `InactivityLogout.AbsentKeyIsNoOp` | Mobile/hooks/useInactivityLogout.js:50-55 | with the key absent a pass does not log out and leaves storage empty |
| `InactivityLogout.LogoutIffOverTimeout` | Mobile/hooks/useInactivityLogout.js:57-67 | a pass logs out iff the read succeeded, a time was stored and `now - stored > 300000` strictly; exactly 300000 does not log out |
| `InactivityLogout.PassConsumesTimestamp` | Mobile/hooks/useInactivityLogout.js:63-70 | without storage faults the key is absent after a pass, logout or not, so a second pass neither logs out nor changes storage |
| `InactivityLogout.FailingCallEffects` | Mobile/hooks/useInactivityLogout.js:39-74 | within one handler run: a failing read gives no logout and no change; a failing write or removal leaves the cell as it was; a failing removal does not undo the logout decision made before it; a logout callback that throws has been called but leaves the key in place |
| `InactivityLogout.MountRunsOnePass` | Mobile/hooks/useInactivityLogout.js:11-16 | right after mounting the logout count is 1 iff the one pass logged out, and the cell is that pass's result |
| `InactivityLogout.LogoutsBoundedByReturns` | Mobile/hooks/useInactivityLogout.js:24-37 | over any series of change events, logouts grow by at most the number of returns to the foreground |
| `InactivityLogout.FlappingWithinTimeoutNeverLogsOut` | Mobile/hooks/useInactivityLogout.js:24-67 | if every event falls within five minutes of a time `t0` and no stored time predates `t0`, any series of foreground/background flapping never logs out |
| `InactivityLogout.ShortAbsencesNeverLogOut` | Mobile/hooks/useInactivityLogout.js:24-67 | over a session of any length, with no failing call and a clock that does not go back, if every absence from the foreground lasts at most 300000 ms, no logout ever happens |
| `InactivityLogout.StaleTimestampAfterStorageFailures` | Mobile/hooks/useInactivityLogout.js:39-74 | a failed removal, then a failed write, then a 10-second absence: the user is logged out, measured from the stale time |
| `InactivityLogout.RestampedAbsenceKeepsSession` | Mobile/hooks/useInactivityLogout.js:24-67 | `inactive` at 0 s, `background` at 200 s, `active` at 400 s: no logout, because the change to `background` stamped the time again |
| `InactivityLogout.NeverAwayNeverLogsOut` | Mobile/hooks/useInactivityLogout.js:24-55 | with no stored time and no event going to `inactive`/`background`, no logout ever happens and storage stays empty |
| `InactivityLogout.LongAbsenceLogsOutOnce` | Mobile/hooks/useInactivityLogout.js:24-70 | backgrounded at `t0` and back at `t1 > t0 + 300000`: exactly one logout, status `active`, key absent |
| `InactivityLogout.ShortAbsenceKeepsSession` | Mobile/hooks/useInactivityLogout.js:24-70 | backgrounded at `t0` and back within 300000 ms: no logout, status `active`, key absent |
| `OfflineNotifier.Notifier.constructor` | Mobile/hooks/useOfflineNotifier.js:6-9 | the panel starts hidden, not retrying, with no pending action |
| `OfflineNotifier.Notifier.NotifyOffline` | Mobile/hooks/useOfflineNotifier.js:11-14 | the new state is `Notify` of the old one: action replaced, panel shown, retry flag kept |
| `OfflineNotifier.Notifier.ClosePanel` | Mobile/hooks/useOfflineNotifier.js:16-20 | the new state is hidden, not retrying, no action, whatever the old state (no guard on retrying) |
| `OfflineNotifier.Notifier.StartReloadAction` | Mobile/hooks/useOfflineNotifier.js:22-27 | returns the pending action, the one that is invoked; with an action pending the retry flag is set before it runs, otherwise nothing changes |
| `OfflineNotifier.Notifier.SettleReloadAction` | Mobile/hooks/useOfflineNotifier.js:27-35 | on success the panel is closed; on failure only the retry flag is cleared |
| `OfflineNotifier.Notifier.HandleReload` | Mobile/hooks/useOfflineNotifier.js:22-37 | invokes the pending action if any, and the new state is `Reload` of the old one |
| `OfflineNotifier.NotifyShowsAndReplaces` | Mobile/hooks/useOfflineNotifier.js:11-14 | after notifying, the panel is visible and the pending action is the new one; the retry flag is unchanged |
| `OfflineNotifier.CloseClearsAndIsIdempotent` | Mobile/hooks/useOfflineNotifier.js:16-20 | closing from any state hides the panel and clears retry and action; closing twice equals closing once |
| `OfflineNotifier.ReloadWithoutActionIsNoOp` | Mobile/hooks/useOfflineNotifier.js:23 | a reload with no pending action changes nothing |
| `OfflineNotifier.StartMarksRetrying` | Mobile/hooks/useOfflineNotifier.js:23-27 | with an action pending, the retry flag is set before the action is awaited, nothing else changes |
| `OfflineNotifier.ReloadOutcome` | Mobile/hooks/useOfflineNotifier.js:27-35 | success leaves the panel hidden, idle, without action; failure clears the retry flag and keeps visibility and the same action |
| `OfflineNotifier.FailedReloadsKeepAction` | Mobile/hooks/useOfflineNotifier.js:30-35 | any number of failed reloads in a row leave the panel exactly as it was, same action pending: manual retries are unbounded |
| `OfflineNotifier.CloseDuringRetryIsNotBlocked` | Mobile/hooks/useOfflineNotifier.js:45-67 | while retrying both buttons are disabled, yet `closePanel` via the back-press path still clears the panel, and the in-flight failure leaves it hidden with nothing to retry |
| `OfflineNotifier.NotifyDuringRetry` | Mobile/hooks/useOfflineNotifier.js:11-35 | an action reported while a retry is in flight replaces the old one; if that retry fails, the new action stays pending with the panel visible; if it succeeds, the close discards the new action |
| `OfflineNotifier.CloseThenNotifyAllowsOverlappingRetries` | Mobile/hooks/useOfflineNotifier.js:11-67 | after a back-press close during a retry and a new notification, the Reload button is enabled while the first action runs; a second retry can start, and the first one's late failure clears the retry flag while the second runs |
| `OfflineNotifier.RetryScenario` | Mobile/hooks/useOfflineNotifier.js:11-35 | notify from hidden shows the panel; a failed reload keeps it with the same action; a successful reload then hides it |
| `ClaimedItems.FilteredItems` | Client/src/pages/ItemClaimedListPage.jsx:42-47 | every kept item is one of the items and passes the year test; with a specific year every kept item has a claim date whose year text equals the selection |
| `ClaimedItems.TotalPages` | Client/src/pages/ItemClaimedListPage.jsx:49 | no pages for an empty list; otherwise `(pages - 1) * 6 < n <= pages * 6`, i.e. `ceil(n / 6)` |
| `ClaimedItems.DisplayedItems` | Client/src/pages/ItemClaimedListPage.jsx:56-59 | the displayed page holds at most 6 items, all taken from the filtered list, for any page number |
| `ClaimedItems.ClaimedListPage.constructor` | Client/src/pages/ItemClaimedListPage.jsx:12-16 | the page starts on page 1 with no items and "All" years selected |
| `ClaimedItems.ClaimedListPage.HandlePageChange` | Client/src/pages/ItemClaimedListPage.jsx:50-54 | the current page becomes `page` iff `1 <= page <= totalPages`; otherwise it is unchanged; it stays at least 1 |
| `ClaimedItems.ClaimedListPage.SelectYear` | Client/src/pages/ItemClaimedListPage.jsx:235-238 | the selected year becomes the chosen one; the current page is not touched |
| `ClaimedItems.ClaimedListPage.SetItems` | Client/src/pages/ItemClaimedListPage.jsx:31 | the fetched items replace the item list |
| `ClaimedItems.FilterAllKeepsEverything` | Client/src/pages/ItemClaimedListPage.jsx:42-43 | with "All" selected the filtered list equals the item list |
| `ClaimedItems.FilterKeepsExactly` | Client/src/pages/ItemClaimedListPage.jsx:42-47 | an item is in the filtered list iff it is in the item list and passes the year test (undated items fail for a specific year) |
| `ClaimedItems.FilterPreservesOrder` | Client/src/pages/ItemClaimedListPage.jsx:42-47 | the filtered list is a subsequence of the item list: relative order is kept |
| `ClaimedItems.FilterKeepsEveryCopy` | Client/src/pages/ItemClaimedListPage.jsx:42-47 | every copy of an item that passes the year test is kept, and no copy of one that fails it |
| `ClaimedItems.PageIsWindow` | Client/src/pages/ItemClaimedListPage.jsx:56-59 | page `p >= 1` is the window `[(p-1)*6, p*6)` of the filtered list, cut at its length |
| `ClaimedItems.PagesInRangeAreNonEmpty` | Client/src/pages/ItemClaimedListPage.jsx:49-59 | page `p >= 1` shows something iff `p <= totalPages` |
| `ClaimedItems.PagesUpToArePrefix` | Client/src/pages/ItemClaimedListPage.jsx:56-59 | pages 1 to `k` put together are the first `min(6k, n)` filtered items |
| `ClaimedItems.PagesCoverList` | Client/src/pages/ItemClaimedListPage.jsx:49-59 | pages 1 to `totalPages` put together give back the filtered list exactly |
| `ClaimedItems.NavigationButtonsMatchGuard` | Client/src/pages/ItemClaimedListPage.jsx:328-353 | on a page that exists, "previous" is enabled iff page-1 is accepted and "next" is enabled iff page+1 is accepted |
| `ClaimedItems.EmptyListNextButtonIsInert` | Client/src/pages/ItemClaimedListPage.jsx:347-353 | with no items there are 0 pages, so on page 1 the next button is enabled, but the page 2 it asks for is refused |
| `ClaimedItems.StalePageShowsNothing` | Client/src/pages/ItemClaimedListPage.jsx:56-59 | a current page beyond the new selection's page count (the year change keeps the page) displays nothing |
| `GuestRating.RatingForm.constructor` | Mobile/components/GuestRatingModal.tsx:26-27 | the form starts with rating 0 and empty feedback |
| `GuestRating.RatingForm.PressStar` | Mobile/components/GuestRatingModal.tsx:29-31 | pressing star `index` (0 to 4) sets the rating to `index + 1`, so it lies in 1 to 5, and exactly `index + 1` of the five stars are then drawn filled |
| `GuestRating.RatingForm.EditFeedback` | Mobile/components/GuestRatingModal.tsx:79 | typing replaces the feedback text |
| `GuestRating.RatingForm.HandleSubmit` | Mobile/components/GuestRatingModal.tsx:33-45 | the handler refuses exactly when the submit button's rating condition disables it; rating 0: refused, `onSubmit` not called, state unchanged; otherwise `onSubmit` gets exactly the current rating and feedback; if it resolves, both are reset; if it rejects, both keep their values |
| `GuestRating.FilledStars` | Mobile/components/GuestRatingModal.tsx:63-68 | of the first `k` stars at most `k` are filled |
| `GuestRating.FilledStarsShowRating` | Mobile/components/GuestRatingModal.tsx:63-68 | the number of filled stars among the first `k` is `min(rating, k)`, so among the five it is the rating |

## Left out

- The lifecycle subscription and its removal on unmount (Mobile/hooks/useInactivityLogout.js:13, 18-21) belong to the host runtime. Events are the explicit input of `HandleAppStateChange`. After unmount, no events arrive.
- `parseInt` of the stored string is not modelled. The cell holds the integer that `setBackgroundTimestamp` wrote. A foreign non-numeric value (which would give `NaN`, no logout, then removal) is not represented.
- The async interleaving of the handlers is not modelled. Each handler is one atomic step. The one exception is `handleReload`, which is split at its `await`. The remembered status is written after the awaited storage call. A second lifecycle event that arrives during that call is not modelled.
- Console logging, the `Alert` text and the screen the rating modal navigates to are not modelled. A successful submit is the `Submitted` outcome.
- The Firestore query that loads claimed items is not modelled. This includes its descending order by claim date, the loading flag and its error logging. The fetched list arrives through `SetItems`.
- The year of a claim date (`new Date(...).getFullYear()` written as text) is the parameter `yearText`, because it depends on the time zone. `Math.ceil` of the floating-point quotient is modelled as exact integer ceiling division.
- `isSubmitting`, `show` and `onClose` of the rating modal are owned by its caller and are not modelled. `isSubmitting` appears only as an input of `SubmitDisabled`.
- The rendering, styles, icons, the preview image and the page-number buttons are not modelled.
- Mobile/utils/createVerificationCode.js, Mobile/components/CropperModal.tsx, Client/src/pages/GuestEmailRequestPage.jsx, Client/src/pages/ViewProfilePage.jsx, Mobile/app/GuestReportScreen.tsx and Mobile/app/UserLostProcedureScreen.tsx are not part of this model. They are remote reads and writes, random code generation, image manipulation or static views.
