/** The application context's mutators as pure state transformers on a
    `Store`. Every call acts on the current state, one call at a time;
    generated ids and timestamps arrive as `Fresh` parameters. */
module AppContext {
  import opened Seqs
  import opened Domain

  /** Recipient of the notice sent when a booking is made. */
  const AdminId: string := "admin-1"

  // ---------------------------------------------------------------------------
  // Notifications

  /** The notification `addNotification` creates: unread, with a fresh id
      and the current time. */
  function NewNote(userId: string, message: string, kind: NoteKind, f: Fresh): Notification {
    Notification(f.token, userId, message, kind, f.time, false)
  }

  /** Prepends a new unread notification, so the list stays newest-first;
      nothing else in the store changes. */
  function AddNotification(s: Store, userId: string, message: string, kind: NoteKind, f: Fresh): (r: Store)
    ensures |r.notifications| == |s.notifications| + 1
    ensures r.notifications[0].userId == userId && r.notifications[0].message == message
    ensures r.notifications[0].kind == kind && !r.notifications[0].read
    ensures r.notifications[0].id == f.token && r.notifications[0].timestamp == f.time
    ensures r.notifications[1..] == s.notifications
    ensures r == s.(notifications := r.notifications)
  {
    s.(notifications := [NewNote(userId, message, kind, f)] + s.notifications)
  }

  /** Marks every notification read, whoever it is addressed to. */
  function MarkNotificationsAsRead(s: Store): (r: Store)
    ensures |r.notifications| == |s.notifications|
    ensures forall i :: 0 <= i < |r.notifications| ==> r.notifications[i].read
    ensures forall i :: 0 <= i < |r.notifications| ==>
      r.notifications[i] == s.notifications[i].(read := r.notifications[i].read)
    ensures r == s.(notifications := r.notifications)
  {
    s.(notifications := seq(|s.notifications|, i requires 0 <= i < |s.notifications| =>
                              s.notifications[i].(read := true)))
  }

  /** Marking everything read a second time changes nothing. */
  lemma MarkNotificationsAsReadIdempotent(s: Store)
    ensures MarkNotificationsAsRead(MarkNotificationsAsRead(s)) == MarkNotificationsAsRead(s)
  {
    var once := MarkNotificationsAsRead(s);
    var twice := MarkNotificationsAsRead(once);
    assert twice.notifications == once.notifications by {
      forall i | 0 <= i < |once.notifications|
        ensures twice.notifications[i] == once.notifications[i]
      {
        assert once.notifications[i].read;
      }
    }
  }

  // ---------------------------------------------------------------------------
  // Barber days off

  /** Toggles `date` in a list of days off: removes every copy when present,
      appends it otherwise. */
  function ToggleDay(offDays: seq<string>, date: string): (r: seq<string>)
    ensures date in r <==> date !in offDays
    ensures forall d :: d != date ==> (d in r <==> d in offDays)
  {
    if date in offDays then Filter(offDays, (d: string) => d != date) else offDays + [date]
  }

  /** Toggling the same date twice restores the days off as a set. */
  lemma ToggleDayTwiceSameSet(offDays: seq<string>, date: string)
    ensures forall d :: d in ToggleDay(ToggleDay(offDays, date), date) <==> d in offDays
  {
  }

  /** Toggling a date that was not a day off twice restores the list exactly. */
  lemma ToggleDayTwiceRestores(offDays: seq<string>, date: string)
    requires date !in offDays
    ensures ToggleDay(ToggleDay(offDays, date), date) == offDays
  {
    var p := (d: string) => d != date;
    assert date in offDays + [date];
    FilterAppend(offDays, [date], p);
    FilterAll(offDays, p);
    assert Filter([date], p) == [];
  }

  /** Toggling a date that was a day off twice may move it to the end of
      the list: exact restoration holds only for an absent date. */
  lemma ToggleDayTwiceReorders()
    ensures ToggleDay(ToggleDay(["mon", "tue"], "mon"), "mon") == ["tue", "mon"]
  {
  }

  /** Flips `date` in the days off of every barber with id `barberId`;
      nothing else in the store changes. */
  function ToggleBarberDayOff(s: Store, barberId: string, date: string): (r: Store)
    ensures |r.barbers| == |s.barbers|
    ensures forall i :: 0 <= i < |s.barbers| && s.barbers[i].id != barberId ==> r.barbers[i] == s.barbers[i]
    ensures forall i :: 0 <= i < |s.barbers| && s.barbers[i].id == barberId ==>
      r.barbers[i] == s.barbers[i].(offDays := ToggleDay(s.barbers[i].offDays, date))
    ensures forall i :: 0 <= i < |s.barbers| && s.barbers[i].id == barberId ==>
      (date in r.barbers[i].offDays <==> date !in s.barbers[i].offDays)
    ensures (forall i :: 0 <= i < |s.barbers| ==> s.barbers[i].id != barberId) ==> r == s
    ensures r == s.(barbers := r.barbers)
  {
    var barbers := seq(|s.barbers|, i requires 0 <= i < |s.barbers| =>
                     if s.barbers[i].id == barberId
                     then s.barbers[i].(offDays := ToggleDay(s.barbers[i].offDays, date))
                     else s.barbers[i]);
    s.(barbers := barbers)
  }

  /** Toggling the same (barber, date) twice restores every barber's days
      off as a set, and restores the whole store when the date was not a
      day off of any matching barber. */
  lemma ToggleBarberDayOffTwice(s: Store, barberId: string, date: string)
    ensures var r := ToggleBarberDayOff(ToggleBarberDayOff(s, barberId, date), barberId, date);
      && |r.barbers| == |s.barbers|
      && (forall i, d :: 0 <= i < |s.barbers| ==> (d in r.barbers[i].offDays <==> d in s.barbers[i].offDays))
      && ((forall i :: 0 <= i < |s.barbers| && s.barbers[i].id == barberId ==> date !in s.barbers[i].offDays)
          ==> r == s)
  {
    var once := ToggleBarberDayOff(s, barberId, date);
    var r := ToggleBarberDayOff(once, barberId, date);
    forall i | 0 <= i < |s.barbers| && s.barbers[i].id == barberId
      ensures r.barbers[i].offDays == ToggleDay(ToggleDay(s.barbers[i].offDays, date), date)
    {
    }
    if forall i :: 0 <= i < |s.barbers| && s.barbers[i].id == barberId ==> date !in s.barbers[i].offDays {
      forall i | 0 <= i < |s.barbers|
        ensures r.barbers[i] == s.barbers[i]
      {
        if s.barbers[i].id == barberId {
          ToggleDayTwiceRestores(s.barbers[i].offDays, date);
        }
      }
      assert r.barbers == s.barbers;
    }
  }

  // ---------------------------------------------------------------------------
  // Booking admission

  /** The reference reading of the day-off rule: the first barber with the
      requested id exists and has the date among its days off. */
  ghost predicate DayOffFor(barbers: seq<User>, barberId: string, date: string) {
    exists i :: 0 <= i < |barbers| && barbers[i].id == barberId
      && (forall j :: 0 <= j < i ==> barbers[j].id != barberId)
      && date in barbers[i].offDays
  }

  /** A booking that holds the slot a request asks for. */
  predicate Blocks(b: Booking, req: BookingRequest) {
    b.barberId == req.barberId && b.date == req.date && b.timeSlot == req.timeSlot && Active(b)
  }

  /** The booking `addBooking` stores for an admitted request. */
  function NewBooking(req: BookingRequest, f: Fresh): Booking {
    Booking("bk-" + f.token, req.customerId, req.barberId, req.serviceId,
            req.date, req.timeSlot, req.totalPrice, Pending, f.time)
  }

  function NewBookingMessage(req: BookingRequest): string {
    "New booking for " + req.date + " at " + req.timeSlot
  }

  /** The store's own day-off check: look the barber up, and block only if
      it is found and lists the date. */
  predicate IsDayOffBlocked(barbers: seq<User>, req: BookingRequest) {
    match FindIndex(barbers, (b: User) => b.id == req.barberId)
    case None => false
    case Some(i) => req.date in barbers[i].offDays
  }

  /** The store's own slot check. */
  predicate IsSlotTaken(bookings: seq<Booking>, req: BookingRequest) {
    Any(bookings, (b: Booking) => Blocks(b, req))
  }

  /** The outcome of `addBooking`: its boolean answer and the next store. */
  datatype Admission = Admission(accepted: bool, store: Store)

  /** Admits a booking request unless the barber is off that day or an
      active booking already holds the slot. An admitted request appends one
      pending booking and prepends one unread notice to the owner. */
  function AddBooking(s: Store, req: BookingRequest, bookingFresh: Fresh, noteFresh: Fresh): (r: Admission)
    ensures DayOffFor(s.barbers, req.barberId, req.date) ==> !r.accepted
    ensures (exists i :: 0 <= i < |s.bookings| && Blocks(s.bookings[i], req)) ==> !r.accepted
    ensures r.accepted <==>
      !DayOffFor(s.barbers, req.barberId, req.date)
      && forall i :: 0 <= i < |s.bookings| ==> !Blocks(s.bookings[i], req)
    ensures !r.accepted ==> r.store == s
    ensures r.accepted ==> |r.store.bookings| == |s.bookings| + 1
    ensures r.accepted ==> r.store.bookings[..|s.bookings|] == s.bookings
    ensures r.accepted ==> r.store.bookings[|s.bookings|] == NewBooking(req, bookingFresh)
    ensures r.accepted ==>
      r.store.notifications == [NewNote(AdminId, NewBookingMessage(req), Info, noteFresh)] + s.notifications
    ensures r.accepted ==> r.store == s.(bookings := r.store.bookings, notifications := r.store.notifications)
  {
    if IsDayOffBlocked(s.barbers, req) then Admission(false, s)
    else if IsSlotTaken(s.bookings, req) then Admission(false, s)
    else
      var s1 := s.(bookings := s.bookings + [NewBooking(req, bookingFresh)]);
      Admission(true, AddNotification(s1, AdminId, NewBookingMessage(req), Info, noteFresh))
  }

  /** The booking an admitted request stores copies the request, is
      pending, and carries the fresh id and time. */
  lemma AdmittedBookingCopiesRequest(s: Store, req: BookingRequest, bookingFresh: Fresh, noteFresh: Fresh)
    requires AddBooking(s, req, bookingFresh, noteFresh).accepted
    ensures var b := AddBooking(s, req, bookingFresh, noteFresh).store.bookings[|s.bookings|];
      && b.customerId == req.customerId && b.barberId == req.barberId
      && b.serviceId == req.serviceId && b.date == req.date && b.timeSlot == req.timeSlot
      && b.totalPrice == req.totalPrice
      && b.status == Pending && b.id == "bk-" + bookingFresh.token && b.createdAt == bookingFresh.time
  {
  }

  // ---------------------------------------------------------------------------
  // Status updates

  function ConfirmationMessage(b: Booking): string {
    "Your booking for " + b.timeSlot + " on " + b.date + " is CONFIRMED!"
  }

  /** Sets the status of every booking with the given id. */
  function SetStatus(bookings: seq<Booking>, id: string, status: BookingStatus): (r: seq<Booking>)
    ensures |r| == |bookings|
    ensures forall i :: 0 <= i < |bookings| && bookings[i].id != id ==> r[i] == bookings[i]
    ensures forall i :: 0 <= i < |bookings| && bookings[i].id == id ==> r[i] == bookings[i].(status := status)
  {
    seq(|bookings|, i requires 0 <= i < |bookings| =>
      if bookings[i].id == id then bookings[i].(status := status) else bookings[i])
  }

  /** Position `k` holds the first booking with id `id`. */
  predicate IsFirstWithId(bookings: seq<Booking>, id: string, k: int) {
    0 <= k < |bookings| && bookings[k].id == id && forall j :: 0 <= j < k ==> bookings[j].id != id
  }

  /** Two positions that are each the first with a given id are the same. */
  lemma FirstMatchIsUnique(bookings: seq<Booking>, id: string, k: nat)
    requires IsFirstWithId(bookings, id, k)
    ensures forall k' :: IsFirstWithId(bookings, id, k') ==> k' == k
  {
  }

  /** Sets the status of the booking(s) with id `id`, whatever the old and
      new status. Confirming notifies the customer of the first booking with
      that id. An unknown id changes nothing. */
  function UpdateBookingStatus(s: Store, id: string, status: BookingStatus, noteFresh: Fresh): (r: Store)
    ensures (forall i :: 0 <= i < |s.bookings| ==> s.bookings[i].id != id) ==> r == s
    ensures |r.bookings| == |s.bookings|
    ensures forall i :: 0 <= i < |s.bookings| && s.bookings[i].id != id ==> r.bookings[i] == s.bookings[i]
    ensures forall i :: 0 <= i < |s.bookings| && s.bookings[i].id == id ==>
      r.bookings[i] == s.bookings[i].(status := status)
    ensures status != Confirmed ==> r.notifications == s.notifications
    ensures forall k :: IsFirstWithId(s.bookings, id, k) && status == Confirmed ==>
      r.notifications == [NewNote(s.bookings[k].customerId, ConfirmationMessage(s.bookings[k]), Success, noteFresh)]
                         + s.notifications
    ensures r == s.(bookings := r.bookings, notifications := r.notifications)
  {
    match FindIndex(s.bookings, (b: Booking) => b.id == id)
    case None => s
    case Some(k) =>
      FirstMatchIsUnique(s.bookings, id, k);
      var s1 := s.(bookings := SetStatus(s.bookings, id, status));
      if status == Confirmed
      then AddNotification(s1, s.bookings[k].customerId, ConfirmationMessage(s.bookings[k]), Success, noteFresh)
      else s1
  }

  // ---------------------------------------------------------------------------
  // Services, barbers and gallery

  /** Appends a service with an id of the form `s-<token>`. */
  function AddService(s: Store, draft: ServiceDraft, f: Fresh): (r: Store)
    ensures |r.services| == |s.services| + 1
    ensures r.services[..|s.services|] == s.services
    ensures var x := r.services[|s.services|];
      && x.id == "s-" + f.token && x.name == draft.name && x.description == draft.description
      && x.price == draft.price && x.durationMinutes == draft.durationMinutes && x.icon == draft.icon
    ensures r == s.(services := r.services)
  {
    var service := Service("s-" + f.token, draft.name, draft.description, draft.price, draft.durationMinutes, draft.icon);
    s.(services := s.services + [service])
  }

  /** A service whose id is not `id`: the ones `deleteService` keeps. */
  function OtherService(id: string): Service -> bool {
    (x: Service) => x.id != id
  }

  /** Removes every service with id `id` and keeps the others in order. */
  function DeleteService(s: Store, id: string): (r: Store)
    ensures Selects(r.services, s.services, OtherService(id))
    ensures forall i :: 0 <= i < |r.services| ==> r.services[i].id != id && r.services[i] in s.services
    ensures forall i :: 0 <= i < |s.services| && s.services[i].id != id ==> s.services[i] in r.services
    ensures (forall i :: 0 <= i < |s.services| ==> s.services[i].id != id) ==> r == s
    ensures r == s.(services := r.services)
  {
    FilterSelects(s.services, OtherService(id));
    if forall i :: 0 <= i < |s.services| ==> s.services[i].id != id then
      FilterAll(s.services, OtherService(id));
      s.(services := Filter(s.services, OtherService(id)))
    else
      s.(services := Filter(s.services, OtherService(id)))
  }

  /** Deleting a just-added service by its new id restores the store, when
      no service had that id before. */
  lemma {:induction false} DeleteAddedServiceRestores(s: Store, draft: ServiceDraft, f: Fresh)
    requires forall i :: 0 <= i < |s.services| ==> s.services[i].id != "s-" + f.token
    ensures DeleteService(AddService(s, draft, f), "s-" + f.token) == s
  {
    var added := AddService(s, draft, f).services;
    var keep := OtherService("s-" + f.token);
    assert added == s.services + [added[|s.services|]];
    FilterAppend(s.services, [added[|s.services|]], keep);
    FilterAll(s.services, keep);
    assert Filter([added[|s.services|]], keep) == [];
  }

  /** Appends a barber with an id of the form `b-<token>`, role BARBER, no
      earnings, a rating of 5 and no days off. */
  function AddBarber(s: Store, draft: BarberDraft, f: Fresh): (r: Store)
    ensures |r.barbers| == |s.barbers| + 1
    ensures r.barbers[..|s.barbers|] == s.barbers
    ensures var b := r.barbers[|s.barbers|];
      && b.id == "b-" + f.token && b.role == Barber && b.earnings == 0 && b.rating == 5.0 && b.offDays == []
      && b.name == draft.name && b.email == draft.email && b.avatar == draft.avatar
      && b.specialties == draft.specialties
    ensures r == s.(barbers := r.barbers)
  {
    var barber := User("b-" + f.token, draft.name, draft.email, Barber, draft.avatar,
                       draft.specialties, 5.0, 0, []);
    s.(barbers := s.barbers + [barber])
  }

  /** A barber whose id is not `id`: the ones `deleteBarber` keeps. */
  function OtherBarber(id: string): User -> bool {
    (b: User) => b.id != id
  }

  /** Removes every barber with id `id` and keeps the others in order. */
  function DeleteBarber(s: Store, id: string): (r: Store)
    ensures Selects(r.barbers, s.barbers, OtherBarber(id))
    ensures forall i :: 0 <= i < |r.barbers| ==> r.barbers[i].id != id && r.barbers[i] in s.barbers
    ensures forall i :: 0 <= i < |s.barbers| && s.barbers[i].id != id ==> s.barbers[i] in r.barbers
    ensures (forall i :: 0 <= i < |s.barbers| ==> s.barbers[i].id != id) ==> r == s
    ensures r == s.(barbers := r.barbers)
  {
    FilterSelects(s.barbers, OtherBarber(id));
    if forall i :: 0 <= i < |s.barbers| ==> s.barbers[i].id != id then
      FilterAll(s.barbers, OtherBarber(id));
      s.(barbers := Filter(s.barbers, OtherBarber(id)))
    else
      s.(barbers := Filter(s.barbers, OtherBarber(id)))
  }

  /** Deleting a just-added barber by its new id restores the store, when
      no barber had that id before. */
  lemma {:induction false} DeleteAddedBarberRestores(s: Store, draft: BarberDraft, f: Fresh)
    requires forall i :: 0 <= i < |s.barbers| ==> s.barbers[i].id != "b-" + f.token
    ensures DeleteBarber(AddBarber(s, draft, f), "b-" + f.token) == s
  {
    var added := AddBarber(s, draft, f).barbers;
    var keep := OtherBarber("b-" + f.token);
    assert added == s.barbers + [added[|s.barbers|]];
    FilterAppend(s.barbers, [added[|s.barbers|]], keep);
    FilterAll(s.barbers, keep);
    assert Filter([added[|s.barbers|]], keep) == [];
  }

  /** Appends an image URL to the gallery. */
  function AddToGallery(s: Store, url: string): (r: Store)
    ensures |r.gallery| == |s.gallery| + 1
    ensures r.gallery[..|s.gallery|] == s.gallery && r.gallery[|s.gallery|] == url
    ensures r == s.(gallery := r.gallery)
  {
    s.(gallery := s.gallery + [url])
  }

  /** Removes the image at position `index`; any other index is a no-op. */
  function RemoveFromGallery(s: Store, index: int): (r: Store)
    ensures 0 <= index < |s.gallery| ==> |r.gallery| == |s.gallery| - 1
    ensures 0 <= index < |s.gallery| ==> r.gallery[..index] == s.gallery[..index]
    ensures 0 <= index < |s.gallery| ==> r.gallery[index..] == s.gallery[index + 1..]
    ensures !(0 <= index < |s.gallery|) ==> r == s
    ensures r == s.(gallery := r.gallery)
  {
    s.(gallery := RemoveAt(s.gallery, index))
  }

  /** Adding an image and then removing the last position restores the gallery. */
  lemma AddThenRemoveGalleryImage(s: Store, url: string)
    ensures RemoveFromGallery(AddToGallery(s, url), |s.gallery|) == s
  {
    var g := AddToGallery(s, url).gallery;
    assert g[..|s.gallery|] + g[|s.gallery| + 1..] == s.gallery;
  }
}
