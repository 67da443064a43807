/** The state transitions the dashboards can actually reach: making a
    booking, approving from the barber agenda, cancelling from a customer's
    upcoming card, and the barber's rest-day toggle. The store accepts any
    status change, but these entry points only ever confirm a pending
    booking or cancel one, so the ledger invariant survives every run. The
    session copy of the barber stays in sync only when the rest-day toggle
    is wired to update it. */
module UiActions {
  import opened Seqs
  import opened Domain
  import opened AppContext
  import opened Slots
  import opened BarberDashboard
  import opened CustomerDashboard

  datatype Action =
    | Book(req: BookingRequest, bookingFresh: Fresh, noteFresh: Fresh)
    | Approve(viewDate: string, slot: string, noteFresh: Fresh)
    | CancelCard(bookingId: string, confirmed: bool, noteFresh: Fresh)
    | RestDay(viewDate: string, confirmed: bool)

  /** How the rest-day button is wired: as the dashboard does it (the barber
      list only), or with the session copy kept in step as well. */
  datatype Wiring = AsWritten | SessionSynced

  /** One user action. An approve or cancel that no button offers in this
      state changes nothing. */
  function Step(s: Store, a: Action, w: Wiring): Store {
    match a
    case Book(req, bookingFresh, noteFresh) => AddBooking(s, req, bookingFresh, noteFresh).store
    case Approve(viewDate, slot, noteFresh) =>
      (match ApproveTarget(s, viewDate, slot)
       case Some(id) => HandleConfirm(s, id, noteFresh)
       case None => s)
    case CancelCard(id, confirmed, noteFresh) =>
      if CancelOffered(s, id) then HandleCancelBooking(s, id, confirmed, noteFresh) else s
    case RestDay(viewDate, confirmed) =>
      (match w
       case AsWritten => HandleToggleDayOff(s, viewDate, confirmed)
       case SessionSynced => HandleToggleDayOffSynced(s, viewDate, confirmed))
  }

  /** A sequence of user actions, one at a time. */
  function Run(s: Store, actions: seq<Action>, w: Wiring): Store
    decreases |actions|
  {
    if |actions| == 0 then s else Run(Step(s, actions[0], w), actions[1..], w)
  }

  /** A booking action brings an id not yet in use. */
  ghost predicate FreshFor(s: Store, a: Action) {
    a.Book? ==> FreshBookingId(s.bookings, a.bookingFresh)
  }

  /** Every booking action of the run brings an id not in use at its turn. */
  ghost predicate FreshRun(s: Store, actions: seq<Action>, w: Wiring)
    decreases |actions|
  {
    |actions| == 0 || (FreshFor(s, actions[0]) && FreshRun(Step(s, actions[0], w), actions[1..], w))
  }

  /** Every step the dashboards offer keeps the ledger invariant, with the
      rest-day button wired either way: the toggle never touches bookings. */
  lemma StepKeepsLedger(s: Store, a: Action, w: Wiring)
    requires Ledger(s.bookings)
    requires FreshFor(s, a)
    ensures Ledger(Step(s, a, w).bookings)
  {
    match a
    case Book(req, bookingFresh, noteFresh) =>
      AddBookingKeepsOneActivePerSlot(s, req, bookingFresh, noteFresh);
      AddBookingKeepsUniqueIds(s, req, bookingFresh, noteFresh);
    case Approve(viewDate, slot, noteFresh) =>
      if ApproveTarget(s, viewDate, slot).Some? {
        ApproveConfirmsAndKeepsLedger(s, viewDate, slot, noteFresh);
      }
    case CancelCard(id, confirmed, noteFresh) =>
      CancelKeepsLedger(s, id, confirmed, noteFresh);
    case RestDay(viewDate, confirmed) =>
  }

  /** Every run of dashboard actions keeps at most one active booking per
      slot and distinct booking ids. */
  lemma {:induction false} RunKeepsLedger(s: Store, actions: seq<Action>, w: Wiring)
    requires Ledger(s.bookings)
    requires FreshRun(s, actions, w)
    ensures Ledger(Run(s, actions, w).bookings)
    decreases |actions|
  {
    if |actions| > 0 {
      StepKeepsLedger(s, actions[0], w);
      RunKeepsLedger(Step(s, actions[0], w), actions[1..], w);
    }
  }

  /** With the rest-day toggle keeping the session copy in step, every step
      keeps the session in sync with the barber list. */
  lemma SyncedStepKeepsSync(s: Store, a: Action)
    requires SessionInSync(s)
    ensures SessionInSync(Step(s, a, SessionSynced))
  {
  }

  /** With the corrected wiring, every run keeps the session in sync. */
  lemma {:induction false} SyncedRunKeepsSync(s: Store, actions: seq<Action>)
    requires SessionInSync(s)
    ensures SessionInSync(Run(s, actions, SessionSynced))
    decreases |actions|
  {
    if |actions| > 0 {
      SyncedStepKeepsSync(s, actions[0]);
      SyncedRunKeepsSync(Step(s, actions[0], SessionSynced), actions[1..]);
    }
  }

  /** As the dashboard is wired, a one-action run from a synced store
      leaves the session out of sync. */
  lemma AsWrittenRunBreaksSync()
    ensures var me := User("b1", "Marcus", "m@example.com", Barber, "", [], 5.0, 0, []);
      var s := Store(Some(me), [], [me], [], [], []);
      && SessionInSync(s)
      && !SessionInSync(Run(s, [RestDay("2024-01-10", false)], AsWritten))
  {
    var me := User("b1", "Marcus", "m@example.com", Barber, "", [], 5.0, 0, []);
    var s := Store(Some(me), [], [me], [], [], []);
    var actions := [RestDay("2024-01-10", false)];
    RestDayToggleBreaksSync();
    assert Run(s, actions, AsWritten) == Run(HandleToggleDayOff(s, "2024-01-10", false), actions[1..], AsWritten);
  }
}
