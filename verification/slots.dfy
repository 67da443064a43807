/** The one invariant the booking ledger carries: at most one active
    (non-cancelled) booking per (barber, date, time slot). Admission keeps
    it; a status update keeps it unless it revives a cancelled booking,
    which the store itself does not forbid. */
module Slots {
  import opened Seqs
  import opened Domain
  import opened AppContext

  /** No two active bookings share a slot. */
  ghost predicate OneActivePerSlot(bookings: seq<Booking>) {
    forall i, j :: 0 <= i < j < |bookings| && Active(bookings[i]) && Active(bookings[j]) ==>
      !SameSlot(bookings[i], bookings[j])
  }

  /** Booking ids are pairwise distinct. */
  ghost predicate UniqueIds(bookings: seq<Booking>) {
    forall i, j :: 0 <= i < j < |bookings| ==> bookings[i].id != bookings[j].id
  }

  /** The id a fresh token yields is not yet in use. */
  ghost predicate FreshBookingId(bookings: seq<Booking>, f: Fresh) {
    forall i :: 0 <= i < |bookings| ==> bookings[i].id != "bk-" + f.token
  }

  /** The ledger invariant: one active booking per slot, distinct ids. */
  ghost predicate Ledger(bookings: seq<Booking>) {
    OneActivePerSlot(bookings) && UniqueIds(bookings)
  }

  /** Under the invariant an active booking is the only active one in its slot. */
  lemma ActiveInSlotIsUnique(bookings: seq<Booking>, i: nat, j: nat)
    requires OneActivePerSlot(bookings)
    requires i < |bookings| && j < |bookings|
    requires Active(bookings[i]) && Active(bookings[j]) && SameSlot(bookings[i], bookings[j])
    ensures i == j
  {
  }

  /** With distinct ids, an id names one position. */
  lemma IdIsUnique(bookings: seq<Booking>, i: nat, j: nat)
    requires UniqueIds(bookings)
    requires i < |bookings| && j < |bookings| && bookings[i].id == bookings[j].id
    ensures i == j
  {
  }

  /** Admission never creates a second active booking in a slot. */
  lemma AddBookingKeepsOneActivePerSlot(s: Store, req: BookingRequest, bookingFresh: Fresh, noteFresh: Fresh)
    requires OneActivePerSlot(s.bookings)
    ensures OneActivePerSlot(AddBooking(s, req, bookingFresh, noteFresh).store.bookings)
  {
    var r := AddBooking(s, req, bookingFresh, noteFresh);
    if r.accepted {
      var bs := r.store.bookings;
      var n := |s.bookings|;
      forall i, j | 0 <= i < j < |bs| && Active(bs[i]) && Active(bs[j])
        ensures !SameSlot(bs[i], bs[j])
      {
        assert bs[i] == s.bookings[i] by { assert bs[..n][i] == bs[i]; }
        if j < n {
          assert bs[j] == s.bookings[j] by { assert bs[..n][j] == bs[j]; }
        } else {
          assert !Blocks(s.bookings[i], req);
        }
      }
    }
  }

  /** Admission with a fresh id keeps ids distinct. */
  lemma AddBookingKeepsUniqueIds(s: Store, req: BookingRequest, bookingFresh: Fresh, noteFresh: Fresh)
    requires UniqueIds(s.bookings)
    requires FreshBookingId(s.bookings, bookingFresh)
    ensures UniqueIds(AddBooking(s, req, bookingFresh, noteFresh).store.bookings)
  {
    var r := AddBooking(s, req, bookingFresh, noteFresh);
    if r.accepted {
      var bs := r.store.bookings;
      var n := |s.bookings|;
      forall i, j | 0 <= i < j < |bs|
        ensures bs[i].id != bs[j].id
      {
        assert bs[i] == s.bookings[i] by { assert bs[..n][i] == bs[i]; }
        if j < n {
          assert bs[j] == s.bookings[j] by { assert bs[..n][j] == bs[j]; }
        }
      }
    }
  }

  /** A status update keeps one active booking per slot when it does not
      revive a cancelled booking: either the new status is CANCELLED or
      every booking it touches was active already. */
  lemma UpdateStatusKeepsOneActivePerSlot(s: Store, id: string, status: BookingStatus, noteFresh: Fresh)
    requires OneActivePerSlot(s.bookings)
    requires status == Cancelled
          || forall i :: 0 <= i < |s.bookings| && s.bookings[i].id == id ==> Active(s.bookings[i])
    ensures OneActivePerSlot(UpdateBookingStatus(s, id, status, noteFresh).bookings)
  {
    var bs := UpdateBookingStatus(s, id, status, noteFresh).bookings;
    forall i, j | 0 <= i < j < |bs| && Active(bs[i]) && Active(bs[j])
      ensures !SameSlot(bs[i], bs[j])
    {
      assert Active(s.bookings[i]) && Active(s.bookings[j]);
    }
  }

  /** A status update never changes ids. */
  lemma UpdateStatusKeepsUniqueIds(s: Store, id: string, status: BookingStatus, noteFresh: Fresh)
    requires UniqueIds(s.bookings)
    ensures UniqueIds(UpdateBookingStatus(s, id, status, noteFresh).bookings)
  {
    var bs := UpdateBookingStatus(s, id, status, noteFresh).bookings;
    forall i, j | 0 <= i < j < |bs|
      ensures bs[i].id != bs[j].id
    {
      assert bs[i].id == s.bookings[i].id && bs[j].id == s.bookings[j].id;
    }
  }

  /** The store accepts any transition: confirming a cancelled booking whose
      slot has since been taken again leaves two active bookings in one slot. */
  lemma ReviveBreaksOneActivePerSlot(noteFresh: Fresh)
    ensures var old1 := Booking("bk-1", "u1", "b1", "s1", "2024-01-10", "11:00 AM", 35, Cancelled, "t1");
      var new2 := Booking("bk-2", "u2", "b1", "s1", "2024-01-10", "11:00 AM", 35, Pending, "t2");
      var s := Store(None, [old1, new2], [], [], [], []);
      && Ledger(s.bookings)
      && !OneActivePerSlot(UpdateBookingStatus(s, "bk-1", Confirmed, noteFresh).bookings)
  {
    var old1 := Booking("bk-1", "u1", "b1", "s1", "2024-01-10", "11:00 AM", 35, Cancelled, "t1");
    var new2 := Booking("bk-2", "u2", "b1", "s1", "2024-01-10", "11:00 AM", 35, Pending, "t2");
    var s := Store(None, [old1, new2], [], [], [], []);
    assert "bk-1" != "bk-2" by { assert "bk-1"[3] != "bk-2"[3]; }
    var bs := UpdateBookingStatus(s, "bk-1", Confirmed, noteFresh).bookings;
    assert bs[0] == old1.(status := Confirmed);
    assert bs[1] == new2;
    assert Active(bs[0]) && Active(bs[1]) && SameSlot(bs[0], bs[1]);
  }

  /** Repeating an admitted request is rejected: the pending booking it
      created now holds the slot. */
  lemma RepeatedRequestRejected(s: Store, req: BookingRequest, f1: Fresh, n1: Fresh, f2: Fresh, n2: Fresh)
    requires AddBooking(s, req, f1, n1).accepted
    ensures !AddBooking(AddBooking(s, req, f1, n1).store, req, f2, n2).accepted
  {
    var bs := AddBooking(s, req, f1, n1).store.bookings;
    assert Blocks(bs[|s.bookings|], req);
  }

  /** Cancelling the active booking that holds a slot frees it: the same
      request is then admitted, unless the barber is off that day. */
  lemma CancelFreesSlot(s: Store, req: BookingRequest, k: nat, noteFresh: Fresh, f: Fresh, n: Fresh)
    requires Ledger(s.bookings)
    requires k < |s.bookings| && Blocks(s.bookings[k], req)
    requires !DayOffFor(s.barbers, req.barberId, req.date)
    ensures AddBooking(UpdateBookingStatus(s, s.bookings[k].id, Cancelled, noteFresh), req, f, n).accepted
  {
    var s2 := UpdateBookingStatus(s, s.bookings[k].id, Cancelled, noteFresh);
    forall i | 0 <= i < |s2.bookings|
      ensures !Blocks(s2.bookings[i], req)
    {
      if i != k {
        assert s.bookings[i].id != s.bookings[k].id;
        assert s2.bookings[i] == s.bookings[i];
        assert Blocks(s.bookings[i], req) ==> SameSlot(s.bookings[k], s.bookings[i]);
      }
    }
  }
}
