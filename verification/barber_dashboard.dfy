/** The barber dashboard's selectors and actions over the store: the
    barber's own bookings, the day's agenda with one shown booking per time
    slot, the approve action and the rest-day toggle. `viewDate` and the
    answer to the browser's confirmation prompt are inputs. */
module BarberDashboard {
  import opened Seqs
  import opened Domain
  import opened AppContext
  import opened Slots

  /** A booking with the signed-in user as its barber. */
  function ForMe(s: Store): Booking -> bool {
    (b: Booking) => IsSessionUser(s, b.barberId)
  }

  /** A booking on the viewed date. */
  function OnDate(viewDate: string): Booking -> bool {
    (b: Booking) => b.date == viewDate
  }

  /** The signed-in barber's bookings, in store order. */
  function MyBookings(s: Store): (r: seq<Booking>)
    ensures Selects(r, s.bookings, ForMe(s))
    ensures forall i :: 0 <= i < |s.bookings| && IsSessionUser(s, s.bookings[i].barberId) ==> s.bookings[i] in r
    ensures s.currentUser.None? ==> r == []
  {
    FilterSelects(s.bookings, ForMe(s));
    Filter(s.bookings, ForMe(s))
  }

  /** The signed-in barber's bookings on the viewed date, in store order. */
  function DayBookings(s: Store, viewDate: string): (r: seq<Booking>)
    ensures Selects(r, MyBookings(s), OnDate(viewDate))
    ensures forall i :: 0 <= i < |r| ==> r[i] in s.bookings && IsSessionUser(s, r[i].barberId) && r[i].date == viewDate
    ensures forall i :: 0 <= i < |s.bookings| && IsSessionUser(s, s.bookings[i].barberId) && s.bookings[i].date == viewDate
              ==> s.bookings[i] in r
  {
    var mine := MyBookings(s);
    FilterSelects(mine, OnDate(viewDate));
    forall i | 0 <= i < |s.bookings| && IsSessionUser(s, s.bookings[i].barberId) && s.bookings[i].date == viewDate
      ensures s.bookings[i] in Filter(mine, OnDate(viewDate))
    {
      var k :| 0 <= k < |mine| && mine[k] == s.bookings[i];
      assert OnDate(viewDate)(mine[k]);
    }
    Filter(mine, OnDate(viewDate))
  }

  /** Whether the viewed date is a rest day, read from the session copy of
      the signed-in user (not from the barber list). */
  predicate IsDayOff(s: Store, viewDate: string) {
    s.currentUser.Some? && viewDate in s.currentUser.value.offDays
  }

  /** `IsDayOff` depends only on the session copy: the barber list can say
      anything. */
  lemma IsDayOffReadsSessionOnly(s: Store, viewDate: string, barbers: seq<User>)
    ensures IsDayOff(s.(barbers := barbers), viewDate) == IsDayOff(s, viewDate)
    ensures IsDayOff(s, viewDate) <==> s.currentUser.Some? && viewDate in s.currentUser.value.offDays
  {
  }

  /** A booking that the agenda shows in time slot `slot`. */
  function ShownIn(slot: string): Booking -> bool {
    (b: Booking) => b.timeSlot == slot && Active(b)
  }

  /** The agenda row for one time slot: the first active booking of the
      day in that slot, if any. */
  function AgendaEntry(s: Store, viewDate: string, slot: string): (r: Option<Booking>)
    ensures r.Some? ==> r.value in s.bookings && IsSessionUser(s, r.value.barberId)
    ensures r.Some? ==> r.value.date == viewDate && r.value.timeSlot == slot && Active(r.value)
    ensures r.None? <==>
      forall i :: 0 <= i < |s.bookings| ==>
        !(IsSessionUser(s, s.bookings[i].barberId) && s.bookings[i].date == viewDate
          && s.bookings[i].timeSlot == slot && Active(s.bookings[i]))
  {
    var day := DayBookings(s, viewDate);
    match FindIndex(day, ShownIn(slot))
    case None =>
      forall i | 0 <= i < |s.bookings| && IsSessionUser(s, s.bookings[i].barberId) && s.bookings[i].date == viewDate
        ensures !ShownIn(slot)(s.bookings[i])
      {
        var j :| 0 <= j < |day| && day[j] == s.bookings[i];
        assert !ShownIn(slot)(day[j]);
      }
      None
    case Some(k) =>
      assert ShownIn(slot)(day[k]) && day[k] in s.bookings;
      Some(day[k])
  }

  /** Position `k` of `day` holds the first booking shown in `slot`. */
  predicate FirstShownAt(day: seq<Booking>, slot: string, k: int) {
    0 <= k < |day| && ShownIn(slot)(day[k])
    && forall j :: 0 <= j < k ==> !ShownIn(slot)(day[j])
  }

  /** When several active bookings share a slot, the agenda shows the one
      that comes first in the day's list. */
  lemma AgendaEntryIsFirst(s: Store, viewDate: string, slot: string)
    ensures AgendaEntry(s, viewDate, slot).Some? ==>
      exists k :: FirstShownAt(DayBookings(s, viewDate), slot, k)
        && DayBookings(s, viewDate)[k] == AgendaEntry(s, viewDate, slot).value
  {
    var day := DayBookings(s, viewDate);
    match FindIndex(day, ShownIn(slot))
    case None =>
    case Some(k) =>
      assert FirstShownAt(day, slot, k);
  }

  /** When the ledger holds one active booking per slot, the booking the
      agenda shows is the only active booking in that slot. */
  lemma AgendaEntryIsOnlyActive(s: Store, viewDate: string, slot: string)
    requires OneActivePerSlot(s.bookings)
    ensures AgendaEntry(s, viewDate, slot).Some? ==>
      forall i :: 0 <= i < |s.bookings| && Active(s.bookings[i])
                  && SameSlot(s.bookings[i], AgendaEntry(s, viewDate, slot).value) ==>
        s.bookings[i] == AgendaEntry(s, viewDate, slot).value
  {
    var e := AgendaEntry(s, viewDate, slot);
    if e.Some? {
      var b := e.value;
      var j :| 0 <= j < |s.bookings| && s.bookings[j] == b;
      forall i | 0 <= i < |s.bookings| && Active(s.bookings[i]) && SameSlot(s.bookings[i], b)
        ensures s.bookings[i] == b
      {
        ActiveInSlotIsUnique(s.bookings, i, j);
      }
    }
  }

  /** The id the agenda row's Approve button confirms: offered only for a
      pending booking. */
  function ApproveTarget(s: Store, viewDate: string, slot: string): (r: Option<string>)
    ensures r.Some? ==>
      exists i :: 0 <= i < |s.bookings| && s.bookings[i].id == r.value && s.bookings[i].status == Pending
        && IsSessionUser(s, s.bookings[i].barberId)
        && s.bookings[i].date == viewDate && s.bookings[i].timeSlot == slot
    ensures r.Some? <==> AgendaEntry(s, viewDate, slot).Some? && AgendaEntry(s, viewDate, slot).value.status == Pending
    ensures r.Some? ==> r.value == AgendaEntry(s, viewDate, slot).value.id
  {
    match AgendaEntry(s, viewDate, slot)
    case Some(b) => if b.status == Pending then Some(b.id) else None
    case None => None
  }

  /** The state effect of approving: set the booking's status to CONFIRMED. */
  function HandleConfirm(s: Store, id: string, noteFresh: Fresh): Store {
    UpdateBookingStatus(s, id, Confirmed, noteFresh)
  }

  /** Approving the booking an agenda row offers confirms exactly that
      booking, tells its customer with one success notification, and keeps
      the ledger invariant. */
  lemma ApproveConfirmsAndKeepsLedger(s: Store, viewDate: string, slot: string, noteFresh: Fresh)
    requires Ledger(s.bookings)
    requires ApproveTarget(s, viewDate, slot).Some?
    ensures var id := ApproveTarget(s, viewDate, slot).value;
      var r := HandleConfirm(s, id, noteFresh);
      && Ledger(r.bookings)
      && (exists k :: 0 <= k < |s.bookings| && s.bookings[k].id == id && s.bookings[k].status == Pending
            && r.bookings[k] == s.bookings[k].(status := Confirmed)
            && r.notifications == [NewNote(s.bookings[k].customerId, ConfirmationMessage(s.bookings[k]), Success, noteFresh)]
                                  + s.notifications)
      && (forall i :: 0 <= i < |s.bookings| && s.bookings[i].id != id ==> r.bookings[i] == s.bookings[i])
  {
    var id := ApproveTarget(s, viewDate, slot).value;
    var k :| 0 <= k < |s.bookings| && s.bookings[k].id == id && s.bookings[k].status == Pending;
    forall i | 0 <= i < |s.bookings| && s.bookings[i].id == id
      ensures i == k
    {
      IdIsUnique(s.bookings, i, k);
    }
    UpdateStatusKeepsOneActivePerSlot(s, id, Confirmed, noteFresh);
    UpdateStatusKeepsUniqueIds(s, id, Confirmed, noteFresh);
  }

  /** The rest-day toggle asks for confirmation only when it would turn a
      rest day on while an active booking exists on that date. */
  function NeedsRestDayConfirmation(s: Store, viewDate: string): (r: bool)
    ensures r <==>
      && s.currentUser.Some?
      && viewDate !in s.currentUser.value.offDays
      && exists i :: 0 <= i < |s.bookings| && IsSessionUser(s, s.bookings[i].barberId)
           && s.bookings[i].date == viewDate && Active(s.bookings[i])
  {
    var mine := MyBookings(s);
    var busy := (b: Booking) => b.date == viewDate && Active(b);
    var has := Any(mine, busy);
    assert has ==> exists i :: 0 <= i < |s.bookings| && IsSessionUser(s, s.bookings[i].barberId)
                    && s.bookings[i].date == viewDate && Active(s.bookings[i]) by {
      if has {
        var k :| 0 <= k < |mine| && busy(mine[k]);
        assert mine[k] in s.bookings;
      }
    }
    s.currentUser.Some? && !IsDayOff(s, viewDate) && has
  }

  /** The rest-day button as the dashboard wires it: with no user nothing
      happens; a declined prompt changes nothing; otherwise the store
      toggles (signed-in barber, viewed date). */
  function HandleToggleDayOff(s: Store, viewDate: string, confirmed: bool): (r: Store)
    ensures s.currentUser.None? ==> r == s
    ensures NeedsRestDayConfirmation(s, viewDate) && !confirmed ==> r == s
    ensures r.bookings == s.bookings && r.currentUser == s.currentUser
  {
    if s.currentUser.None? then s
    else if NeedsRestDayConfirmation(s, viewDate) && !confirmed then s
    else ToggleBarberDayOff(s, s.currentUser.value.id, viewDate)
  }

  /** Without a prompt, the answer to the prompt is irrelevant; with one,
      accepting it toggles the signed-in barber's day. */
  lemma HandleToggleDayOffOutcome(s: Store, viewDate: string)
    ensures !NeedsRestDayConfirmation(s, viewDate) ==>
      HandleToggleDayOff(s, viewDate, true) == HandleToggleDayOff(s, viewDate, false)
    ensures s.currentUser.Some? ==>
      HandleToggleDayOff(s, viewDate, true) == ToggleBarberDayOff(s, s.currentUser.value.id, viewDate)
    ensures IsDayOff(s, viewDate) ==> !NeedsRestDayConfirmation(s, viewDate)
  {
  }

  // ---------------------------------------------------------------------------
  // The session copy of the barber goes stale

  /** The session copy of the signed-in user agrees with its record in the
      barber list on days off. */
  ghost predicate SessionInSync(s: Store) {
    s.currentUser.Some? ==>
      forall i :: 0 <= i < |s.barbers| && s.barbers[i].id == s.currentUser.value.id ==>
        s.barbers[i].offDays == s.currentUser.value.offDays
  }

  /** As written, the toggle updates the barber list only, so the
      dashboard's rest-day flag never changes, whatever the button does. */
  lemma RestDayToggleLeavesSessionStale(s: Store, viewDate: string, confirmed: bool)
    ensures IsDayOff(HandleToggleDayOff(s, viewDate, confirmed), viewDate) == IsDayOff(s, viewDate)
  {
  }

  /** A concrete run: a barber in sync with the list sets a rest day; the
      list now has the day off but the session copy, and so the dashboard,
      does not. */
  lemma RestDayToggleBreaksSync()
    ensures var me := User("b1", "Marcus", "m@example.com", Barber, "", [], 5.0, 0, []);
      var s := Store(Some(me), [], [me], [], [], []);
      var r := HandleToggleDayOff(s, "2024-01-10", false);
      && SessionInSync(s)
      && "2024-01-10" in r.barbers[0].offDays
      && !IsDayOff(r, "2024-01-10")
      && !SessionInSync(r)
  {
    var me := User("b1", "Marcus", "m@example.com", Barber, "", [], 5.0, 0, []);
    var s := Store(Some(me), [], [me], [], [], []);
    var r := HandleToggleDayOff(s, "2024-01-10", false);
    assert !NeedsRestDayConfirmation(s, "2024-01-10");
    assert r.barbers[0].offDays == ["2024-01-10"];
  }

  /** The toggle with the session copy kept in step with the barber list. */
  function HandleToggleDayOffSynced(s: Store, viewDate: string, confirmed: bool): (r: Store)
    ensures s.currentUser.None? ==> r == s
    ensures NeedsRestDayConfirmation(s, viewDate) && !confirmed ==> r == s
    ensures r.bookings == s.bookings
  {
    if s.currentUser.None? then s
    else if NeedsRestDayConfirmation(s, viewDate) && !confirmed then s
    else
      var me := s.currentUser.value;
      var toggled := ToggleBarberDayOff(s, me.id, viewDate);
      toggled.(currentUser := Some(me.(offDays := ToggleDay(me.offDays, viewDate))))
  }

  /** With the session kept in step, a carried-out toggle flips the
      dashboard's rest-day flag, and the session stays in sync with the
      barber list. */
  lemma SyncedToggleFlipsRestDay(s: Store, viewDate: string, confirmed: bool)
    requires SessionInSync(s)
    requires s.currentUser.Some?
    requires !NeedsRestDayConfirmation(s, viewDate) || confirmed
    ensures IsDayOff(HandleToggleDayOffSynced(s, viewDate, confirmed), viewDate) == !IsDayOff(s, viewDate)
    ensures SessionInSync(HandleToggleDayOffSynced(s, viewDate, confirmed))
  {
    var r := HandleToggleDayOffSynced(s, viewDate, confirmed);
    var me := s.currentUser.value;
    forall i | 0 <= i < |r.barbers| && r.barbers[i].id == r.currentUser.value.id
      ensures r.barbers[i].offDays == r.currentUser.value.offDays
    {
      assert s.barbers[i].offDays == me.offDays;
    }
  }

  /** The synced toggle keeps a session already in sync in sync whatever
      the answer, including the no-op cases. */
  lemma SyncedToggleKeepsSync(s: Store, viewDate: string, confirmed: bool)
    requires SessionInSync(s)
    ensures SessionInSync(HandleToggleDayOffSynced(s, viewDate, confirmed))
  {
    if s.currentUser.Some? && (!NeedsRestDayConfirmation(s, viewDate) || confirmed) {
      SyncedToggleFlipsRestDay(s, viewDate, confirmed);
    }
  }
}
