/** The application's record types: users, events, bookings, attendee
    details, notifications and validation errors, with the form shapes used
    to create and update them. Numbers are integers (dollars, counts);
    optional properties are `Option`s. */
module Records {
  import opened Wrappers

  datatype Role = User | Organizer | Admin

  datatype EventStatus = Draft | Upcoming | Ongoing | Completed | Cancelled

  datatype BookingStatus = BookingConfirmed | BookingCancelled | BookingRefunded

  datatype PaymentStatus = PaymentPending | PaymentCompleted | PaymentFailed | PaymentRefunded

  datatype NotificationKind = BookingConfirmedNotice | EventUpdatedNotice | EventCancelledNotice | EventReminderNotice

  datatype Account = Account(
    id: string, email: string, name: string, role: Role, avatar: Option<string>,
    createdAt: string, updatedAt: string)

  datatype Event = Event(
    id: string, title: string, description: string, date: string, time: string,
    location: string, image: string, price: int, category: string,
    organizerId: string, organizerName: string, attendees: int, maxAttendees: int,
    status: EventStatus, featured: bool, createdAt: string, updatedAt: string,
    tags: Option<seq<string>>, requirements: Option<string>, refundPolicy: Option<string>)

  datatype AttendeeInfo = AttendeeInfo(name: string, email: string, phone: Option<string>)

  datatype Booking = Booking(
    id: string, userId: string, eventId: string, status: BookingStatus,
    bookingDate: string, attendeeCount: int, totalAmount: int,
    paymentStatus: PaymentStatus, attendeeInfo: seq<AttendeeInfo>)

  datatype Notification = Notification(
    id: string, userId: string, kind: NotificationKind, title: string, message: string,
    read: bool, createdAt: string, relatedEventId: Option<string>, relatedBookingId: Option<string>)

  datatype ValidationError = ValidationError(field: string, message: string, code: string)

  /** The event form: an event without id, timestamps, attendee count and
      organizer. */
  datatype EventInput = EventInput(
    title: string, description: string, date: string, time: string,
    location: string, image: string, price: int, category: string, maxAttendees: int,
    status: EventStatus, featured: bool,
    tags: Option<seq<string>>, requirements: Option<string>, refundPolicy: Option<string>)

  /** A partially filled event form: every property may be absent. */
  datatype EventDraft = EventDraft(
    title: Option<string>, description: Option<string>, date: Option<string>, time: Option<string>,
    location: Option<string>, image: Option<string>, price: Option<int>, category: Option<string>,
    maxAttendees: Option<int>, status: Option<EventStatus>, featured: Option<bool>,
    tags: Option<seq<string>>, requirements: Option<string>, refundPolicy: Option<string>)

  /** An event update: any event property except id, creation time and
      organizer id, each optional. */
  datatype EventUpdate = EventUpdate(
    title: Option<string>, description: Option<string>, date: Option<string>, time: Option<string>,
    location: Option<string>, image: Option<string>, price: Option<int>, category: Option<string>,
    organizerName: Option<string>, attendees: Option<int>, maxAttendees: Option<int>,
    status: Option<EventStatus>, featured: Option<bool>, updatedAt: Option<string>,
    tags: Option<seq<string>>, requirements: Option<string>, refundPolicy: Option<string>)

  /** The booking form: a booking without id and booking date. */
  datatype BookingInput = BookingInput(
    userId: string, eventId: string, status: BookingStatus, attendeeCount: int,
    totalAmount: int, paymentStatus: PaymentStatus, attendeeInfo: seq<AttendeeInfo>)

  /** The notification form: a notification without id and creation time. */
  datatype NotificationInput = NotificationInput(
    userId: string, kind: NotificationKind, title: string, message: string, read: bool,
    relatedEventId: Option<string>, relatedBookingId: Option<string>)
}
