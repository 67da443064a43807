/** The records the barbershop store holds: bookings, users (barbers and the
    signed-in session user), services, notifications and the gallery. Ids,
    dates, time slots and timestamps are opaque strings. */
module Domain {
  import opened Seqs

  /** The four states of a booking. */
  datatype BookingStatus = Pending | Confirmed | Cancelled | Completed

  /** A booking as stored: the request fields plus the store-assigned id,
      status and creation time. */
  datatype Booking = Booking(
    id: string,
    customerId: string,
    barberId: string,
    serviceId: string,
    date: string,
    timeSlot: string,
    totalPrice: int,
    status: BookingStatus,
    createdAt: string)

  /** What a caller of `addBooking` supplies: a booking without id,
      status and creation time. */
  datatype BookingRequest = BookingRequest(
    customerId: string,
    barberId: string,
    serviceId: string,
    date: string,
    timeSlot: string,
    totalPrice: int)

  datatype Role = Customer | Barber | Admin

  /** A user record. The application's optional fields are modelled as
      always present: an absent `offDays` behaves as the empty list. */
  datatype User = User(
    id: string,
    name: string,
    email: string,
    role: Role,
    avatar: string,
    specialties: seq<string>,
    rating: real,
    earnings: int,
    offDays: seq<string>)

  /** What the owner supplies when adding a barber. */
  datatype BarberDraft = BarberDraft(
    name: string,
    email: string,
    avatar: string,
    specialties: seq<string>)

  datatype Service = Service(
    id: string,
    name: string,
    description: string,
    price: int,
    durationMinutes: int,
    icon: string)

  /** What the owner supplies when adding a service. */
  datatype ServiceDraft = ServiceDraft(
    name: string,
    description: string,
    price: int,
    durationMinutes: int,
    icon: string)

  datatype NoteKind = Info | Success | Warning

  datatype Notification = Notification(
    id: string,
    userId: string,
    message: string,
    kind: NoteKind,
    timestamp: string,
    read: bool)

  /** A freshly generated random token and the current time, supplied by
      the caller in place of `Math.random` and `new Date()`. */
  datatype Fresh = Fresh(token: string, time: string)

  /** The whole in-memory state of the application context. */
  datatype Store = Store(
    currentUser: Option<User>,
    bookings: seq<Booking>,
    barbers: seq<User>,
    services: seq<Service>,
    notifications: seq<Notification>,
    gallery: seq<string>)

  /** A booking that still occupies its slot. */
  predicate Active(b: Booking) {
    b.status != Cancelled
  }

  /** `id` is the id of the signed-in user. With no one signed in the
      application compares against `undefined`, which no id equals. */
  predicate IsSessionUser(s: Store, id: string) {
    s.currentUser.Some? && s.currentUser.value.id == id
  }

  /** Two bookings for the same barber, date and time slot. */
  predicate SameSlot(a: Booking, b: Booking) {
    a.barberId == b.barberId && a.date == b.date && a.timeSlot == b.timeSlot
  }
}
