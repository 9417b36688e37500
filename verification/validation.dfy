/** The record schemas as predicates: string-length and numeric bounds, the
    `HH:MM` time pattern, the phone pattern, the tag limits and the
    cross-field refinements. Format checks that rest on library parsers
    (uuid, e-mail, url, ISO datetime) are not part of these predicates. */
module Validation {
  import opened Wrappers
  import opened Records
  import Text
  import EventUtils

  predicate LengthIn(s: string, lo: int, hi: int) {
    lo <= |s| <= hi
  }

  predicate OptMaxLength(o: Option<string>, hi: int) {
    o.Some? ==> |o.value| <= hi
  }

  predicate IsDigit(c: char) {
    '0' <= c <= '9'
  }

  function DigitValue(c: char): int {
    c as int - '0' as int
  }

  // ---------------------------------------------------------------- time --

  /** `[0-1]?[0-9]|2[0-3]`, anchored. */
  predicate HourPattern(h: string) {
    || (|h| == 1 && IsDigit(h[0]))
    || (|h| == 2 && '0' <= h[0] <= '1' && IsDigit(h[1]))
    || (|h| == 2 && h[0] == '2' && '0' <= h[1] <= '3')
  }

  /** `[0-5][0-9]`, anchored. */
  predicate MinutePattern(m: string) {
    |m| == 2 && '0' <= m[0] <= '5' && IsDigit(m[1])
  }

  /** The time pattern `^([0-1]?[0-9]|2[0-3]):[0-5][0-9]$`. The minute part
      is exactly two characters, so the colon can only sit third from the
      end and the match is decided by that one split. */
  predicate TimePattern(s: string) {
    |s| >= 3 && s[|s| - 3] == ':' && HourPattern(s[..|s| - 3]) && MinutePattern(s[|s| - 2..])
  }

  function DigitChar(d: int): (c: char)
    requires 0 <= d <= 9
    ensures IsDigit(c) && DigitValue(c) == d
  {
    ('0' as int + d) as char
  }

  function TwoDigits(n: int): (s: string)
    requires 0 <= n <= 99
    ensures |s| == 2 && IsDigit(s[0]) && IsDigit(s[1])
    ensures DigitValue(s[0]) * 10 + DigitValue(s[1]) == n
  {
    [DigitChar(n / 10), DigitChar(n % 10)]
  }

  /** `s` writes the clock time `h`:`m`, the hour with one digit or two. */
  predicate Renders(s: string, h: int, m: int) {
    && 0 <= h <= 23 && 0 <= m <= 59
    && (s == TwoDigits(h) + ":" + TwoDigits(m) || (h <= 9 && s == [DigitChar(h)] + ":" + TwoDigits(m)))
  }

  /** A clock time: hour 0–23 in one or two digits, a colon, minute 00–59. */
  predicate IsClockTime(s: string) {
    exists h, m | 0 <= h <= 23 && 0 <= m <= 59 :: Renders(s, h, m)
  }

  lemma RendersMatches(s: string, h: int, m: int)
    requires Renders(s, h, m)
    ensures TimePattern(s)
  {
    var mm := TwoDigits(m);
    assert s[|s| - 2..] == mm;
    if s == TwoDigits(h) + ":" + mm {
      assert s[..|s| - 3] == TwoDigits(h);
    } else {
      assert s[..|s| - 3] == [DigitChar(h)];
    }
  }

  lemma MatchesRenders(s: string)
    requires TimePattern(s)
    ensures IsClockTime(s)
  {
    var hs, ms := s[..|s| - 3], s[|s| - 2..];
    var m := DigitValue(ms[0]) * 10 + DigitValue(ms[1]);
    assert TwoDigits(m) == ms;
    assert s == hs + ":" + ms;
    if |hs| == 1 {
      var h := DigitValue(hs[0]);
      assert [DigitChar(h)] == hs;
      assert Renders(s, h, m);
    } else {
      var h := DigitValue(hs[0]) * 10 + DigitValue(hs[1]);
      assert TwoDigits(h) == hs;
      assert Renders(s, h, m);
    }
  }

  /** The time pattern accepts exactly the clock times. */
  lemma {:induction false} TimePatternIsClockTime(s: string)
    ensures TimePattern(s) <==> IsClockTime(s)
  {
    if TimePattern(s) {
      MatchesRenders(s);
    }
    if IsClockTime(s) {
      var h, m :| Renders(s, h, m);
      RendersMatches(s, h, m);
    }
  }

  /** Some witnesses: "9:05", "09:05" and "23:59" pass, "24:00", "12:60",
      "123:00" and "9:5" do not. */
  lemma TimePatternExamples()
    ensures TimePattern("9:05") && TimePattern("09:05") && TimePattern("23:59")
    ensures !TimePattern("24:00") && !TimePattern("12:60") && !TimePattern("123:00") && !TimePattern("9:5")
  {
    assert "9:05"[..1] == "9";
    assert "09:05"[..2] == "09";
    assert "23:59"[..2] == "23";
    assert "24:00"[..2] == "24";
    assert "123:00"[..3] == "123";
    assert "9:05"[2..] == "05";
    assert "09:05"[3..] == "05";
    assert "23:59"[3..] == "59";
    assert "12:60"[3..] == "60";
  }

  // --------------------------------------------------------------- phone --

  /** One character of the class `[\d\s\-\(\)]`. */
  predicate PhoneChar(c: char) {
    IsDigit(c) || Text.IsSpace(c) || c == '-' || c == '(' || c == ')'
  }

  /** The phone pattern `^\+?[\d\s\-\(\)]+$`. A leading `+` is not a
      phone character, so it can only be the optional prefix. */
  predicate PhonePattern(p: string) {
    if |p| > 0 && p[0] == '+' then
      |p| >= 2 && forall i :: 1 <= i < |p| ==> PhoneChar(p[i])
    else
      |p| >= 1 && forall i :: 0 <= i < |p| ==> PhoneChar(p[i])
  }

  /** The phone pattern takes digits, whitespace, dashes and parentheses
      after at most one leading `+`, and needs at least one of them. */
  lemma PhonePatternExamples()
    ensures PhonePattern("+1 (555) 123-4567")
    ensures PhonePattern("555-0100")
    ensures !PhonePattern("") && !PhonePattern("+")
    ensures !PhonePattern("++1") && !PhonePattern("555+1") && !PhonePattern("ext. 12")
  {
    assert !PhoneChar('+') && !PhoneChar('e');
    assert "++1"[1] == '+';
    assert "555+1"[3] == '+';
  }

  // --------------------------------------------------------------- users --

  /** The user schema's checks on an account: a name of 2 to 100 characters
      (the role is one of the three by construction). */
  predicate ValidUser(a: Account) {
    LengthIn(a.name, 2, 100)
  }

  // -------------------------------------------------------------- events --

  /** At most ten tags, each of 1 to 30 characters. */
  predicate ValidTags(tags: Option<seq<string>>) {
    tags.Some? ==>
      && |tags.value| <= 10
      && forall i :: 0 <= i < |tags.value| ==> LengthIn(tags.value[i], 1, 30)
  }

  /** The bounds shared by the event, create and update schemas, on the
      fields an event form carries. */
  predicate ValidEventFields(
    title: string, description: string, time: string, location: string, price: int,
    category: string, maxAttendees: int, tags: Option<seq<string>>,
    requirements: Option<string>, refundPolicy: Option<string>)
  {
    && LengthIn(title, 3, 200)
    && LengthIn(description, 10, 2000)
    && TimePattern(time)
    && LengthIn(location, 5, 200)
    && 0 <= price <= 10000
    && LengthIn(category, 2, 50)
    && 1 <= maxAttendees <= 10000
    && ValidTags(tags)
    && OptMaxLength(requirements, 1000)
    && OptMaxLength(refundPolicy, 1000)
  }

  /** The base event schema, before its refinements. */
  predicate ValidBaseEvent(e: Event) {
    && ValidEventFields(e.title, e.description, e.time, e.location, e.price, e.category,
                        e.maxAttendees, e.tags, e.requirements, e.refundPolicy)
    && |e.organizerName| >= 2
    && e.attendees >= 0
  }

  /** The event schema: the base checks, a start in the future unless the
      event is completed or cancelled, and no more attendees than places.
      `start` is the instant the event's date and time denote. */
  predicate ValidEvent(e: Event, start: Option<int>, now: int) {
    && ValidBaseEvent(e)
    && (EventUtils.IsEventUpcoming(start, now) || e.status == Completed || e.status == Cancelled)
    && e.attendees <= e.maxAttendees
  }

  /** A valid event is within capacity, and its bounds hold. */
  lemma ValidEventBounds(e: Event, start: Option<int>, now: int)
    requires ValidEvent(e, start, now)
    ensures 0 <= e.attendees <= e.maxAttendees <= 10000
    ensures 0 <= e.price <= 10000
    ensures 3 <= |e.title| <= 200 && 10 <= |e.description| <= 2000
    ensures e.tags.Some? ==> |e.tags.value| <= 10
    ensures IsClockTime(e.time)
    ensures EventUtils.GetAvailableSpots(e.attendees, e.maxAttendees) == e.maxAttendees - e.attendees
  {
    TimePatternIsClockTime(e.time);
  }

  /** An event whose start is not in the future is valid only when it is
      completed or cancelled: a past-dated ongoing or upcoming event is
      rejected. */
  lemma PastEventNeedsClosedStatus(e: Event, start: Option<int>, now: int)
    requires !EventUtils.IsEventUpcoming(start, now)
    ensures ValidEvent(e, start, now) ==> e.status == Completed || e.status == Cancelled
    ensures ValidBaseEvent(e) && e.attendees <= e.maxAttendees && (e.status == Completed || e.status == Cancelled)
      ==> ValidEvent(e, start, now)
  {
  }

  /** The create-event schema: the form's bounds and a start strictly in the
      future, whatever the status. */
  predicate ValidCreateEvent(e: EventInput, start: Option<int>, now: int) {
    && ValidEventFields(e.title, e.description, e.time, e.location, e.price, e.category,
                        e.maxAttendees, e.tags, e.requirements, e.refundPolicy)
    && EventUtils.IsEventUpcoming(start, now)
  }

  /** Creation has no status waiver: a valid form always starts later than
      `now`, even when it claims to be completed or cancelled. */
  lemma CreateEventNeedsFutureStart(e: EventInput, start: Option<int>, now: int)
    requires ValidCreateEvent(e, start, now)
    ensures start.Some? && start.value > now
  {
  }

  // ------------------------------------------- event dates as written --

  predicate Digits(s: string) {
    forall i :: 0 <= i < |s| ==> IsDigit(s[i])
  }

  /** Two digits whose value lies between `lo` and `hi`. */
  predicate TwoDigitField(s: string, lo: int, hi: int) {
    |s| == 2 && IsDigit(s[0]) && IsDigit(s[1]) && lo <= DigitValue(s[0]) * 10 + DigitValue(s[1]) <= hi
  }

  /** What may follow the minutes of an instant: nothing, or `:SS` with an
      optional fraction of one or more digits. */
  predicate SecondsPart(x: string) {
    || |x| == 0
    || (&& |x| >= 3 && x[0] == ':' && TwoDigitField(x[1..3], 0, 59)
        && (|x| == 3 || (|x| >= 5 && x[3] == '.' && Digits(x[4..]))))
  }

  /** zod's `datetime()` with its default options: an ISO instant in UTC,
      `YYYY-MM-DDTHH:MM`, optional seconds and fraction, then `Z`; no
      offset is allowed. Days run to 31 in every month. */
  predicate DateTimeFormat(d: string) {
    && |d| >= 17
    && Digits(d[..4]) && d[4] == '-' && TwoDigitField(d[5..7], 1, 12)
    && d[7] == '-' && TwoDigitField(d[8..10], 1, 31)
    && d[10] == 'T' && TwoDigitField(d[11..13], 0, 23)
    && d[13] == ':' && TwoDigitField(d[14..16], 0, 59)
    && SecondsPart(d[16..|d| - 1]) && d[|d| - 1] == 'Z'
  }

  /** Instants the format takes: with seconds, with a fraction, and
      without seconds. */
  lemma DateTimeFormatAccepts()
    ensures DateTimeFormat("2025-03-15T10:00:00Z")
    ensures DateTimeFormat("2025-03-15T10:00:00.123Z")
    ensures DateTimeFormat("2025-03-15T10:00Z")
  {
    InstantPrefix("2025-03-15T10:00:00Z");
    InstantPrefix("2025-03-15T10:00:00.123Z");
    InstantPrefix("2025-03-15T10:00Z");
    var a := "2025-03-15T10:00:00Z";
    assert a[16..|a| - 1] == ":00";
    var b := "2025-03-15T10:00:00.123Z";
    assert b[16..|b| - 1] == ":00.123";
    assert ":00.123"[4..] == "123";
    var c := "2025-03-15T10:00Z";
    assert c[16..|c| - 1] == [];
  }

  /** Every string starting `2025-03-15T10:00` has a well-formed date, hour
      and minute. */
  lemma InstantPrefix(d: string)
    requires |d| >= 17 && d[..16] == "2025-03-15T10:00"
    ensures Digits(d[..4]) && d[4] == '-' && TwoDigitField(d[5..7], 1, 12)
    ensures d[7] == '-' && TwoDigitField(d[8..10], 1, 31)
    ensures d[10] == 'T' && TwoDigitField(d[11..13], 0, 23)
    ensures d[13] == ':' && TwoDigitField(d[14..16], 0, 59)
  {
    var p := d[..16];
    assert d[..4] == p[..4] == "2025";
    assert d[5..7] == p[5..7] == "03";
    assert d[8..10] == p[8..10] == "15";
    assert d[11..13] == p[11..13] == "10";
    assert d[14..16] == p[14..16] == "00";
    assert d[4] == p[4] && d[7] == p[7] && d[10] == p[10] && d[13] == p[13];
  }

  /** Strings the format refuses: a bare date, an offset, a free-form date
      ending in `Z`, an hour 24. */
  lemma DateTimeFormatRefuses()
    ensures !DateTimeFormat("2025-03-15")
    ensures !DateTimeFormat("2025-03-15T10:00:00+02:00")
    ensures !DateTimeFormat("1 2030 DecZ")
    ensures !DateTimeFormat("2025-03-15T24:00:00Z")
  {
    var e := "2025-03-15T24:00:00Z";
    assert e[11..13] == "24";
  }

  /** The text both refinements hand to `new Date`: the date, a `T`, and the
      time. */
  function StartText(date: string, time: string): (t: string)
    ensures |t| == |date| + 1 + |time|
    ensures t[..|date|] == date && t[|date|] == 'T' && t[|date| + 1..] == time
  {
    date + "T" + time
  }

  /** What `new Date` does with that text, as far as the model needs it:
      date parsing is a parameter, and the one thing demanded of it is that
      an instant in the `datetime()` format followed by `T` and a time is
      an Invalid Date. The ISO format ends at the `Z`, and the trailing
      text makes the whole string malformed. */
  ghost predicate DateParser(parse: string -> Option<int>) {
    forall d, t :: DateTimeFormat(d) ==> parse(StartText(d, t)) == None
  }

  /** The event schema as written: the date must pass `datetime()`, and the
      date refinement parses `${date}T${time}`. */
  predicate ValidEventAsWritten(e: Event, parse: string -> Option<int>, now: int) {
    DateTimeFormat(e.date) && ValidEvent(e, parse(StartText(e.date, e.time)), now)
  }

  /** The create-event schema as written, the same way. */
  predicate ValidCreateEventAsWritten(e: EventInput, parse: string -> Option<int>, now: int) {
    DateTimeFormat(e.date) && ValidCreateEvent(e, parse(StartText(e.date, e.time)), now)
  }

  /** As written, the create-event schema refuses every form: a date
      outside the `datetime()` format fails it, and one inside makes the
      refinement's text unparsable. */
  lemma CreateEventRejectsAllAsWritten(e: EventInput, parse: string -> Option<int>, now: int)
    requires DateParser(parse)
    ensures !ValidCreateEventAsWritten(e, parse, now)
  {
    if DateTimeFormat(e.date) {
      assert parse(StartText(e.date, e.time)) == None;
    }
  }

  /** As written, the event schema accepts only completed and cancelled
      events, whatever their date. */
  lemma EventAsWrittenNeedsClosedStatus(e: Event, parse: string -> Option<int>, now: int)
    requires DateParser(parse)
    ensures ValidEventAsWritten(e, parse, now) ==> e.status == Completed || e.status == Cancelled
  {
    if DateTimeFormat(e.date) {
      assert parse(StartText(e.date, e.time)) == None;
    }
  }

  /** The intended create-event schema, on the instant the date and time
      denote, does accept forms: a valid form with a later start passes. */
  lemma CreateEventAcceptsFutureStart(e: EventInput, start: int, now: int)
    requires ValidEventFields(e.title, e.description, e.time, e.location, e.price, e.category,
                              e.maxAttendees, e.tags, e.requirements, e.refundPolicy)
    ensures ValidCreateEvent(e, Some(start), now) <==> start > now
  {
  }

  /** The update schema: every field optional, each present one checked
      against its bound, and no refinement. */
  predicate ValidUpdateEvent(u: EventUpdate) {
    && (u.title.Some? ==> LengthIn(u.title.value, 3, 200))
    && (u.description.Some? ==> LengthIn(u.description.value, 10, 2000))
    && (u.time.Some? ==> TimePattern(u.time.value))
    && (u.location.Some? ==> LengthIn(u.location.value, 5, 200))
    && (u.price.Some? ==> 0 <= u.price.value <= 10000)
    && (u.category.Some? ==> LengthIn(u.category.value, 2, 50))
    && (u.organizerName.Some? ==> |u.organizerName.value| >= 2)
    && (u.attendees.Some? ==> u.attendees.value >= 0)
    && (u.maxAttendees.Some? ==> 1 <= u.maxAttendees.value <= 10000)
    && ValidTags(u.tags)
    && OptMaxLength(u.requirements, 1000)
    && OptMaxLength(u.refundPolicy, 1000)
  }

  const EmptyUpdate := EventUpdate(None, None, None, None, None, None, None, None, None,
                                   None, None, None, None, None, None, None, None)

  /** An empty update passes, and so does one that sets more attendees than
      places: the capacity refinement is not part of the update schema. */
  lemma UpdateHasNoRefinement()
    ensures ValidUpdateEvent(EmptyUpdate)
    ensures ValidUpdateEvent(EmptyUpdate.(attendees := Some(5), maxAttendees := Some(1)))
  {
  }

  /** Every field of an event except id, creation time and organizer id, as
      an update that sets them all. */
  function AsUpdate(e: Event): (u: EventUpdate)
    ensures u.title == Some(e.title) && u.attendees == Some(e.attendees)
    ensures u.maxAttendees == Some(e.maxAttendees) && u.tags == e.tags
  {
    EventUpdate(Some(e.title), Some(e.description), Some(e.date), Some(e.time), Some(e.location),
                Some(e.image), Some(e.price), Some(e.category), Some(e.organizerName),
                Some(e.attendees), Some(e.maxAttendees), Some(e.status), Some(e.featured),
                Some(e.updatedAt), e.tags, e.requirements, e.refundPolicy)
  }

  /** A valid event, sent whole as an update, passes the update schema. */
  lemma ValidEventIsValidUpdate(e: Event, start: Option<int>, now: int)
    requires ValidEvent(e, start, now)
    ensures ValidUpdateEvent(AsUpdate(e))
  {
  }

  // ------------------------------------------------------------ bookings --

  /** An attendee: a name of 2 to 100 characters and, when given, a phone
      number matching the phone pattern. */
  predicate ValidAttendee(a: AttendeeInfo) {
    LengthIn(a.name, 2, 100) && (a.phone.Some? ==> PhonePattern(a.phone.value))
  }

  /** The fields a booking form and a booking share. */
  predicate ValidBookingFields(attendeeCount: int, totalAmount: int, info: seq<AttendeeInfo>) {
    && 1 <= attendeeCount <= 10
    && totalAmount >= 0
    && |info| >= 1
    && (forall i :: 0 <= i < |info| ==> ValidAttendee(info[i]))
    && |info| == attendeeCount
  }

  /** The booking schema with its refinement. */
  predicate ValidBooking(b: Booking) {
    ValidBookingFields(b.attendeeCount, b.totalAmount, b.attendeeInfo)
  }

  /** The create-booking schema with its refinement. */
  predicate ValidCreateBooking(b: BookingInput) {
    ValidBookingFields(b.attendeeCount, b.totalAmount, b.attendeeInfo)
  }

  /** A booking form, as the booking it would become once it has an id and
      a booking date. */
  function ToBooking(b: BookingInput, id: string, bookingDate: string): (r: Booking)
    ensures r.id == id && r.bookingDate == bookingDate
    ensures r.userId == b.userId && r.eventId == b.eventId && r.status == b.status
    ensures r.attendeeCount == b.attendeeCount && r.attendeeInfo == b.attendeeInfo
    ensures r.totalAmount == b.totalAmount && r.paymentStatus == b.paymentStatus
  {
    Booking(id, b.userId, b.eventId, b.status, bookingDate, b.attendeeCount, b.totalAmount,
            b.paymentStatus, b.attendeeInfo)
  }

  /** The form part of a booking: everything but its id and booking date. */
  function BookingForm(r: Booking): BookingInput {
    BookingInput(r.userId, r.eventId, r.status, r.attendeeCount, r.totalAmount,
                 r.paymentStatus, r.attendeeInfo)
  }

  /** A booking is its form plus an id and a booking date, and nothing else:
      the two directions of the round trip. */
  lemma ToBookingRoundTrip(b: BookingInput, r: Booking)
    ensures BookingForm(ToBooking(b, r.id, r.bookingDate)) == b
    ensures ToBooking(BookingForm(r), r.id, r.bookingDate) == r
  {
  }

  /** A valid booking names between one and ten attendees, one detail record
      for each. */
  lemma ValidBookingCounts(b: Booking)
    requires ValidBooking(b)
    ensures 1 <= b.attendeeCount <= 10 && |b.attendeeInfo| == b.attendeeCount
  {
  }

  /** The form and the stored booking are checked alike: a form is valid
      exactly when the booking made from it is. */
  lemma CreateBookingMatchesBooking(b: BookingInput, id: string, bookingDate: string)
    ensures ValidCreateBooking(b) <==> ValidBooking(ToBooking(b, id, bookingDate))
  {
  }

  // ------------------------------------------------------- notifications --

  predicate ValidNotificationText(title: string, message: string) {
    LengthIn(title, 1, 200) && LengthIn(message, 1, 1000)
  }

  /** The notification schema: a title of 1 to 200 and a message of 1 to
      1000 characters. */
  predicate ValidNotification(n: Notification) {
    ValidNotificationText(n.title, n.message)
  }

  /** The create-notification schema. */
  predicate ValidCreateNotification(n: NotificationInput) {
    ValidNotificationText(n.title, n.message)
  }

  function ToNotification(n: NotificationInput, id: string, createdAt: string): (r: Notification)
    ensures r.id == id && r.createdAt == createdAt
    ensures r.title == n.title && r.message == n.message && r.userId == n.userId
    ensures r.kind == n.kind && r.read == n.read
    ensures r.relatedEventId == n.relatedEventId && r.relatedBookingId == n.relatedBookingId
  {
    Notification(id, n.userId, n.kind, n.title, n.message, n.read, createdAt,
                 n.relatedEventId, n.relatedBookingId)
  }

  /** The form part of a notification: everything but its id and creation
      time. */
  function NotificationForm(r: Notification): NotificationInput {
    NotificationInput(r.userId, r.kind, r.title, r.message, r.read,
                      r.relatedEventId, r.relatedBookingId)
  }

  /** A notification is its form plus an id and a creation time, and nothing
      else: the two directions of the round trip. */
  lemma ToNotificationRoundTrip(n: NotificationInput, r: Notification)
    ensures NotificationForm(ToNotification(n, r.id, r.createdAt)) == n
    ensures ToNotification(NotificationForm(r), r.id, r.createdAt) == r
  {
  }

  /** A notification form is valid exactly when the notification made from
      it is. */
  lemma CreateNotificationMatchesNotification(n: NotificationInput, id: string, createdAt: string)
    ensures ValidCreateNotification(n) <==> ValidNotification(ToNotification(n, id, createdAt))
  {
  }
}
