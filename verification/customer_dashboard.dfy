/** The customer dashboard's selectors and its one action: the customer's
    bookings split into upcoming and past, the customer's notifications
    (three shown), and cancelling an upcoming booking after a confirmation
    prompt whose answer is an input. */
module CustomerDashboard {
  import opened Seqs
  import opened Domain
  import opened AppContext
  import opened Slots

  /** A booking made by the signed-in user. */
  function ByMe(s: Store): Booking -> bool {
    (b: Booking) => IsSessionUser(s, b.customerId)
  }

  /** A notification addressed to the session user `me`. It reads only the
      session user, so adding a notification does not change it. */
  function ToMe(me: Option<User>): Notification -> bool {
    (n: Notification) => me.Some? && me.value.id == n.userId
  }

  /** Shown under "Upcoming Sessions", with a cancel button. */
  predicate IsUpcoming(b: Booking) {
    b.status == Confirmed || b.status == Pending
  }

  /** Shown under "Past Grooming", without a cancel button. */
  predicate IsPast(b: Booking) {
    b.status == Completed || b.status == Cancelled
  }

  /** The signed-in customer's bookings, in store order. */
  function CustomerBookings(s: Store): (r: seq<Booking>)
    ensures Selects(r, s.bookings, ByMe(s))
    ensures forall i :: 0 <= i < |s.bookings| && IsSessionUser(s, s.bookings[i].customerId) ==> s.bookings[i] in r
    ensures s.currentUser.None? ==> r == []
  {
    FilterSelects(s.bookings, ByMe(s));
    Filter(s.bookings, ByMe(s))
  }

  /** The notifications addressed to the signed-in user, newest first as stored. */
  function MyNotifications(s: Store): (r: seq<Notification>)
    ensures Selects(r, s.notifications, ToMe(s.currentUser))
    ensures forall i :: 0 <= i < |s.notifications| && IsSessionUser(s, s.notifications[i].userId) ==>
      s.notifications[i] in r
  {
    FilterSelects(s.notifications, ToMe(s.currentUser));
    Filter(s.notifications, ToMe(s.currentUser))
  }

  /** The notifications the dashboard displays: at most the first three of
      the user's own. */
  function RecentNotifications(s: Store): (r: seq<Notification>)
    ensures |r| == if |MyNotifications(s)| < 3 then |MyNotifications(s)| else 3
    ensures r <= MyNotifications(s)
    ensures forall i :: 0 <= i < |r| ==> r[i] in s.notifications && IsSessionUser(s, r[i].userId)
  {
    var mine := MyNotifications(s);
    if |mine| < 3 then mine else mine[..3]
  }

  /** A new notification heads the user's list when it is addressed to the
      signed-in user, and leaves the list alone otherwise. */
  lemma AddNotificationShowsToRecipient(s: Store, userId: string, message: string, kind: NoteKind, f: Fresh)
    ensures IsSessionUser(s, userId) ==>
      MyNotifications(AddNotification(s, userId, message, kind, f))
        == [NewNote(userId, message, kind, f)] + MyNotifications(s)
    ensures !IsSessionUser(s, userId) ==>
      MyNotifications(AddNotification(s, userId, message, kind, f)) == MyNotifications(s)
  {
  }

  /** The customer's pending and confirmed bookings. */
  function UpcomingBookings(s: Store): (r: seq<Booking>)
    ensures Selects(r, CustomerBookings(s), IsUpcoming)
  {
    FilterSelects(CustomerBookings(s), IsUpcoming);
    Filter(CustomerBookings(s), IsUpcoming)
  }

  /** The customer's completed and cancelled bookings. */
  function PastBookings(s: Store): (r: seq<Booking>)
    ensures Selects(r, CustomerBookings(s), IsPast)
  {
    FilterSelects(CustomerBookings(s), IsPast);
    Filter(CustomerBookings(s), IsPast)
  }

  /** Upcoming and past partition the customer's bookings: every booking is
      in exactly one, and together they hold every booking as often as the
      customer's list does. */
  lemma UpcomingAndPastPartition(s: Store)
    ensures forall b :: b in CustomerBookings(s) ==> (b in UpcomingBookings(s) <==> b !in PastBookings(s))
    ensures multiset(UpcomingBookings(s)) + multiset(PastBookings(s)) == multiset(CustomerBookings(s))
    ensures |UpcomingBookings(s)| + |PastBookings(s)| == |CustomerBookings(s)|
  {
    var c := CustomerBookings(s);
    var up := UpcomingBookings(s);
    var past := PastBookings(s);
    forall b
      ensures multiset(up)[b] + multiset(past)[b] == multiset(c)[b]
    {
      FilterCounts(c, IsUpcoming, b);
      FilterCounts(c, IsPast, b);
    }
    assert multiset(up) + multiset(past) == multiset(c);
    assert |multiset(up) + multiset(past)| == |multiset(c)|;
  }

  /** The cancel button is on the card of this upcoming booking. */
  predicate CancelOffered(s: Store, id: string) {
    exists i :: 0 <= i < |UpcomingBookings(s)| && UpcomingBookings(s)[i].id == id
  }

  /** The state effect of the cancel button: after the user accepts the
      prompt, set the booking's status to CANCELLED; otherwise nothing. */
  function HandleCancelBooking(s: Store, id: string, confirmed: bool, noteFresh: Fresh): (r: Store)
    ensures !confirmed ==> r == s
    ensures r.notifications == s.notifications
    ensures |r.bookings| == |s.bookings|
    ensures forall i :: 0 <= i < |s.bookings| ==>
      r.bookings[i] == if confirmed && s.bookings[i].id == id then s.bookings[i].(status := Cancelled)
                       else s.bookings[i]
    ensures r == s.(bookings := r.bookings)
  {
    if confirmed then UpdateBookingStatus(s, id, Cancelled, noteFresh) else s
  }

  /** Cancelling never makes a booking active, so the ledger invariant holds
      afterwards whatever the booking's old status. */
  lemma CancelKeepsLedger(s: Store, id: string, confirmed: bool, noteFresh: Fresh)
    requires Ledger(s.bookings)
    ensures Ledger(HandleCancelBooking(s, id, confirmed, noteFresh).bookings)
    ensures forall i :: 0 <= i < |s.bookings| && !IsUpcoming(s.bookings[i]) ==>
      !IsUpcoming(HandleCancelBooking(s, id, confirmed, noteFresh).bookings[i])
  {
    if confirmed {
      UpdateStatusKeepsOneActivePerSlot(s, id, Cancelled, noteFresh);
      UpdateStatusKeepsUniqueIds(s, id, Cancelled, noteFresh);
    }
  }

  /** With distinct ids, a cancel offered on an upcoming card and accepted
      cancels exactly that upcoming booking of the customer and nothing else. */
  lemma CancelOnlyTouchesTheCard(s: Store, id: string, noteFresh: Fresh)
    requires UniqueIds(s.bookings)
    requires CancelOffered(s, id)
    ensures var r := HandleCancelBooking(s, id, true, noteFresh);
      exists k :: 0 <= k < |s.bookings| && s.bookings[k].id == id
        && IsUpcoming(s.bookings[k]) && IsSessionUser(s, s.bookings[k].customerId)
        && r.bookings[k] == s.bookings[k].(status := Cancelled)
        && forall i :: 0 <= i < |s.bookings| && i != k ==> r.bookings[i] == s.bookings[i]
  {
    var up := UpcomingBookings(s);
    var c := CustomerBookings(s);
    var j :| 0 <= j < |up| && up[j].id == id;
    var b := up[j];
    assert IsUpcoming(b) && b in c;
    var m :| 0 <= m < |c| && c[m] == b;
    assert ByMe(s)(b) && b in s.bookings;
    var k :| 0 <= k < |s.bookings| && s.bookings[k] == b;
    forall i | 0 <= i < |s.bookings| && s.bookings[i].id == id
      ensures i == k
    {
      IdIsUnique(s.bookings, i, k);
    }
    var r := HandleCancelBooking(s, id, true, noteFresh);
    assert r.bookings[k] == s.bookings[k].(status := Cancelled);
  }
}
