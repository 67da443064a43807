# BarberFlow booking store in Dafny

This project models the in-memory store behind the BarberFlow barbershop
app (`context/AppContext.tsx`), together with the pure selectors and button
handlers of the barber and customer dashboards that read and drive it.

The store holds bookings, barbers, services, notifications and a gallery.
Each mutator is a pure function from one `Store` value to the next:

- booking admission (`AddBooking`): rejected when the barber is off that
  date or an active booking already holds the (barber, date, time slot);
  otherwise one PENDING booking is appended and the owner (`admin-1`) is
  notified;
- status updates (`UpdateBookingStatus`): any transition is accepted, and
  confirming a booking notifies its customer;
- the day-off toggle, the notification list, and add/delete on services,
  barbers and the gallery.

The one invariant is `Slots.Ledger`: at most one non-cancelled booking per
slot, and distinct booking ids. Admission keeps it. A status update keeps
it unless it revives a cancelled booking. The store allows that, and
`Slots.ReviveBreaksOneActivePerSlot` shows the double booking it causes.
The dashboards never revive a booking: the barber can only approve a
PENDING booking shown on the agenda, and the customer can only cancel an
upcoming booking. `UiActions.RunKeepsLedger` proves that every run of
these actions keeps the invariant, with the rest-day button wired as the
dashboard wires it.

Modules, one per file: `Seqs` holds the JavaScript array operations
(`filter`, `findIndex`, `some`, filter by position) and the reference
predicate `Selects`. Next come `Domain` (records), `AppContext` (the store)
and `Slots` (the invariant). Then `BarberDashboard`, `CustomerDashboard`
and `UiActions` (reachable transitions).

Generated ids and timestamps are parameters (`Fresh(token, time)`); the
`bk-`, `s-` and `b-` id prefixes are kept. A prompt answer from
`window.confirm` is a boolean parameter. Every call acts on the current
state, one call at a time.

Three behaviours follow the code where a stricter reading would be
tempting:

- Cancelling a booking sends no notification.
- "Mark all read" marks every notification, whoever it is addressed to.
- Toggling a day off for an unknown barber id changes nothing.

## Model

| member | source | states |
|---|---|---|
| AppContext.AddNotification | context/AppContext.tsx:149-159 | a new unread notification with the given recipient, text, kind, fresh id and time is prepended (newest first); the old list follows unchanged and nothing else in the store changes |
| AppContext.MarkNotificationsAsRead | context/AppContext.tsx:161-163 | every notification, whoever it is addressed to, is read afterwards; length, order and every other field are kept |
| AppContext.MarkNotificationsAsReadIdempotent | context/AppContext.tsx:161-163 | marking everything read twice is the same as once |
| AppContext.ToggleDay | context/AppContext.tsx:168-171 | the date's membership in the days off flips, and every other date's membership is unchanged |
| AppContext.ToggleDayTwiceSameSet | context/AppContext.tsx:168-171 | toggling the same date twice restores the days off as a set |
| AppContext.ToggleDayTwiceRestores | context/AppContext.tsx:168-171 | toggling a date that was not a day off twice restores the list exactly |
| AppContext.ToggleDayTwiceReorders | context/AppContext.tsx:168-171 | toggling a present date twice can move it to the end, so exact restoration needs the date to be absent |
| AppContext.ToggleBarberDayOff | context/AppContext.tsx:165-176 | only barbers with the given id change, and only in their days off, where the date flips; an unknown id leaves the store unchanged; bookings and the session user are untouched |
| AppContext.ToggleBarberDayOffTwice | context/AppContext.tsx:165-176 | toggling (barber, date) twice restores every barber's days off as a set, and the whole store when the date was absent |
| AppContext.AddBooking | context/AppContext.tsx:178-201 | admitted exactly when the first barber with the id (if any) is not off that date and no active booking holds the slot (cancelled ones never block); a rejection leaves the store unchanged; admission appends one booking after the untouched old ones and prepends one unread info notice to admin-1 |
| AppContext.AdmittedBookingCopiesRequest | context/AppContext.tsx:191-198 | the admitted booking copies the request's customer, barber, service, date, slot and price, is PENDING, and carries the fresh id and creation time |
| AppContext.UpdateBookingStatus | context/AppContext.tsx:203-211 | an unknown id changes nothing; otherwise only the status of bookings with that id changes (length, order, other fields and other bookings kept), any status is accepted; confirming prepends one unread success notice to that booking's customer, any other status adds none |
| AppContext.AddService | context/AppContext.tsx:213-219 | one service with id `s-<token>` and the draft's fields is appended after the unchanged old list |
| AppContext.DeleteService | context/AppContext.tsx:221-223 | exactly the services with another id remain, in order and with their multiplicities; an unknown id changes nothing |
| AppContext.DeleteAddedServiceRestores | context/AppContext.tsx:213-223 | deleting a just-added service by its new `s-<token>` id restores the store, when no service had that id before |
| AppContext.AddBarber | context/AppContext.tsx:225-235 | one barber is appended with id `b-<token>`, role BARBER, earnings 0, rating 5, no days off and the draft's profile |
| AppContext.DeleteBarber | context/AppContext.tsx:237-239 | exactly the barbers with another id remain, in order and with their multiplicities; an unknown id changes nothing |
| AppContext.DeleteAddedBarberRestores | context/AppContext.tsx:225-239 | deleting a just-added barber by its new `b-<token>` id restores the store, when no barber had that id before |
| AppContext.AddToGallery | context/AppContext.tsx:241-243 | the URL is appended after the unchanged gallery |
| AppContext.RemoveFromGallery | context/AppContext.tsx:245-247 | an index inside the gallery drops exactly that image and keeps the rest in order; any other index is a no-op |
| AppContext.AddThenRemoveGalleryImage | context/AppContext.tsx:241-247 | removing the last position right after adding an image restores the store |
| Slots.AddBookingKeepsOneActivePerSlot | context/AppContext.tsx:182-198 | if no two active bookings share a slot before admission, none do after |
| Slots.AddBookingKeepsUniqueIds | context/AppContext.tsx:191-198 | admission with an unused fresh id keeps booking ids distinct |
| Slots.UpdateStatusKeepsOneActivePerSlot | context/AppContext.tsx:203-206 | a status update keeps one active booking per slot when the new status is CANCELLED or every booking it touches was already active |
| Slots.UpdateStatusKeepsUniqueIds | context/AppContext.tsx:203-206 | a status update never changes ids |
| Slots.ReviveBreaksOneActivePerSlot | context/AppContext.tsx:203-206 | confirming a cancelled booking whose slot was taken again leaves two active bookings in one slot |
| Slots.RepeatedRequestRejected | context/AppContext.tsx:182-189 | repeating an admitted request is rejected, because its pending booking now holds the slot |
| Slots.CancelFreesSlot | context/AppContext.tsx:182-206 | cancelling the active booking that holds a slot lets the same request be admitted, unless the barber is off that day |
| BarberDashboard.MyBookings | pages/BarberDashboard.tsx:49 | exactly the bookings whose barber is the signed-in user, in store order with multiplicities; none without a user |
| BarberDashboard.DayBookings | pages/BarberDashboard.tsx:109 | exactly the signed-in barber's bookings on the viewed date, selected from the barber's list in order |
| BarberDashboard.IsDayOffReadsSessionOnly | pages/BarberDashboard.tsx:52 | the rest-day flag holds iff the session user's days off contain the date, whatever the barber list says |
| BarberDashboard.AgendaEntry | pages/BarberDashboard.tsx:274 | a slot's row shows an active booking with that slot, which belongs to the signed-in barber and the viewed date; the row is empty exactly when no such booking exists |
| BarberDashboard.AgendaEntryIsFirst | pages/BarberDashboard.tsx:274 | among several active bookings in the slot, the row shows the one that comes first in the day's list |
| BarberDashboard.AgendaEntryIsOnlyActive | pages/BarberDashboard.tsx:274 | under the ledger invariant the shown booking is the only active booking in its slot |
| BarberDashboard.ApproveTarget | pages/BarberDashboard.tsx:289-295 | Approve is offered exactly when the row shows a PENDING booking, and it targets that booking's id |
| BarberDashboard.ApproveConfirmsAndKeepsLedger | pages/BarberDashboard.tsx:67-82 | approving confirms exactly the shown pending booking, leaves the others unchanged, sends one success notice to its customer and keeps the ledger invariant |
| BarberDashboard.NeedsRestDayConfirmation | pages/BarberDashboard.tsx:86-88 | a prompt is needed exactly when a user is signed in, the date is not yet a rest day and an active booking of theirs exists that day |
| BarberDashboard.HandleToggleDayOff | pages/BarberDashboard.tsx:84-96 | no user or a declined prompt changes nothing; bookings and the session user are never touched |
| BarberDashboard.HandleToggleDayOffOutcome | pages/BarberDashboard.tsx:84-90 | without a prompt the answer is irrelevant; an accepted toggle toggles (signed-in id, viewed date); turning a rest day off never prompts |
| BarberDashboard.RestDayToggleLeavesSessionStale | pages/BarberDashboard.tsx:84-96 | as written, the rest-day flag the dashboard shows is the same after the toggle as before |
| BarberDashboard.RestDayToggleBreaksSync | pages/BarberDashboard.tsx:84-96 | a concrete in-sync barber sets a rest day: the barber list has it, the dashboard flag does not, and the two are out of sync |
| BarberDashboard.HandleToggleDayOffSynced | pages/BarberDashboard.tsx:84-96 | the corrected toggle: same no-op cases, bookings untouched |
| BarberDashboard.SyncedToggleFlipsRestDay | pages/BarberDashboard.tsx:84-96 | with the session kept in step, a carried-out toggle flips the rest-day flag and keeps session and barber list in sync |
| BarberDashboard.SyncedToggleKeepsSync | pages/BarberDashboard.tsx:84-96 | the corrected toggle keeps an in-sync session in sync whatever the answer |
| CustomerDashboard.CustomerBookings | pages/CustomerDashboard.tsx:14 | exactly the bookings whose customer is the signed-in user, in store order with multiplicities |
| CustomerDashboard.MyNotifications | pages/CustomerDashboard.tsx:15 | exactly the notifications addressed to the signed-in user, in store order |
| CustomerDashboard.AddNotificationShowsToRecipient | context/AppContext.tsx:149-159 | a new notification heads the signed-in user's list when addressed to them, and leaves their list unchanged otherwise |
| CustomerDashboard.RecentNotifications | pages/CustomerDashboard.tsx:103 | the displayed notes are the first min(3, n) of the user's own |
| CustomerDashboard.UpcomingBookings | pages/CustomerDashboard.tsx:16 | exactly the customer's PENDING or CONFIRMED bookings, in order |
| CustomerDashboard.PastBookings | pages/CustomerDashboard.tsx:17 | exactly the customer's COMPLETED or CANCELLED bookings, in order |
| CustomerDashboard.UpcomingAndPastPartition | pages/CustomerDashboard.tsx:16-17 | each of the customer's bookings is in exactly one of the two lists, and together they hold the customer's list as a multiset |
| CustomerDashboard.HandleCancelBooking | pages/CustomerDashboard.tsx:22-26 | a declined prompt changes nothing; an accepted one cancels exactly the bookings with that id and leaves every other booking as it was (so an unknown id changes nothing); no notification is sent |
| CustomerDashboard.CancelKeepsLedger | pages/CustomerDashboard.tsx:22-26 | cancelling keeps the ledger invariant and never turns a past booking into an upcoming one |
| CustomerDashboard.CancelOnlyTouchesTheCard | pages/CustomerDashboard.tsx:54-62 | with distinct ids, an accepted cancel on an upcoming card cancels exactly that upcoming booking of the customer and nothing else |
| UiActions.StepKeepsLedger | context/AppContext.tsx:203-206 | booking, approving, cancelling and the rest-day toggle, as the dashboards offer them, each keep the ledger invariant, with the rest-day button wired as written or corrected |
| UiActions.RunKeepsLedger | context/AppContext.tsx:182-206 | every run of dashboard actions with fresh booking ids keeps one active booking per slot and distinct ids, with the rest-day button wired as written or corrected |
| UiActions.AsWrittenRunBreaksSync | pages/BarberDashboard.tsx:84-96 | with the rest-day button wired as written, a one-action run from an in-sync store leaves the session copy out of sync with the barber list |
| UiActions.SyncedStepKeepsSync | pages/BarberDashboard.tsx:84-96 | with the corrected rest-day toggle, every dashboard action keeps the session copy in sync with the barber list |
| UiActions.SyncedRunKeepsSync | pages/BarberDashboard.tsx:84-96 | with the corrected rest-day toggle, every run keeps the session copy in sync |

## Findings

| source | as written | input that shows it | evidently intended | confidence | as-written member | corrected member |
|---|---|---|---|---|---|---|
| pages/BarberDashboard.tsx:84-96 | `handleToggleDayOff` calls `toggleBarberDayOff`, which updates only the `barbers` list. The rest-day flag (line 52) and the prompt guard read `currentUser.offDays`, which nothing updates. | Barber `b1` is signed in with no days off and a matching `barbers` entry. Pressing "Set Rest Day" for 2024-01-10 puts the date into `barbers[0].offDays`, but `isDayOff` stays false. The button still reads "Set Rest Day", and a second press removes the day again. | The session copy follows the toggle, so the flag flips and the button shows the current state | medium; not executed | BarberDashboard.RestDayToggleBreaksSync | BarberDashboard.SyncedToggleFlipsRestDay |

`BarberDashboard.HandleToggleDayOff` models the code as written and
`BarberDashboard.HandleToggleDayOffSynced` the correction. The transition
model in `UiActions` takes the wiring as a parameter. Neither version
touches bookings, so the ledger results hold for both
(`UiActions.RunKeepsLedger`). Session sync holds for every run only with
the correction (`UiActions.SyncedRunKeepsSync`); as written, one action
breaks it (`UiActions.AsWrittenRunBreaksSync`).

## Left out

- localStorage loading and saving, JSON parsing, the theme and its DOM class (context/AppContext.tsx:54-120): browser I/O.
- `login`/`logout` (context/AppContext.tsx:122-147): a hard-coded identity selector. The session user is simply a field of the store.
- `Math.random` ids and `new Date()` timestamps become caller-supplied `Fresh` values. The source does not guarantee unique ids, so `FreshBookingId` is an assumption of the invariant lemmas, not a property of the code.
- React state batching and stale closures: `addBooking` and `updateBookingStatus` read the render-time `bookings`. Every call here acts on the current state, one at a time.
- The JS `Date` calendar and locale formatting (pages/BarberDashboard.tsx:98-107, 240-243) and the `TIME_SLOTS` list: the viewed date and the time slot are parameters. `constants.tsx` and `types.ts` are not part of this model; the user, service and booking fields follow their use in the code (a service's `durationMinutes` included).
- Rendering, icons, charts, toasts, the `setTimeout` delay and the `processingId`/`justConfirmedId` flags of `handleConfirm`, and the AdminDashboard form that forwards to `addService`.
- JS numbers: prices and earnings are integers and the rating is a real. Fractional prices are not modelled.
- Optional user fields (`offDays?`, `rating?`, ...) are always present. A missing `offDays` behaves as the empty list, as both `b.offDays || []` and `?.includes` treat it.
- BarberDashboard.HandleConfirm has no contract of its own: it only forwards to `UpdateBookingStatus`. Its effect is stated by `BarberDashboard.ApproveConfirmsAndKeepsLedger`.
