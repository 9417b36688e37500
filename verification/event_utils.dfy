/** Event-time, capacity, booking-window, sanitization and error-formatting
    helpers. The instant an event's `date` and `time` denote is passed in as
    `start` (milliseconds; `None` for a date that does not parse, against
    which every comparison is false), and the current time as `now`. */
module EventUtils {
  import opened Wrappers
  import opened Records
  import Text

  const HourMs: int := 60 * 60 * 1000
  const DayMs: int := 24 * HourMs
  /** The event length `getEventStatus` assumes. */
  const DefaultDurationHours: int := 3

  /** The event starts strictly after `now`. */
  function IsEventUpcoming(start: Option<int>, now: int): (r: bool)
    ensures r <==> exists s :: start == Some(s) && now < s
  {
    match start
    case None => false
    case Some(s) => s > now
  }

  /** `now` lies in the closed window from the start to `durationHours`
      later. */
  function IsEventOngoing(start: Option<int>, now: int, durationHours: int): (r: bool)
    ensures r ==> start.Some? && start.value <= now
    ensures r <==> exists s :: start == Some(s) && s <= now <= s + durationHours * HourMs
  {
    match start
    case None => false
    case Some(s) => now >= s && now <= s + durationHours * HourMs
  }

  /** Whether the instant `now` has left the event's default window behind
      (or the event date does not parse). */
  predicate IsOver(start: Option<int>, now: int) {
    start.None? || start.value + DefaultDurationHours * HourMs < now
  }

  /** A cancelled or draft status is kept; otherwise the status follows
      from the clock: ongoing within three hours of the start, upcoming
      before it, completed after it or when the date is invalid. */
  function GetEventStatus(start: Option<int>, now: int, current: Option<EventStatus>): (r: EventStatus)
    ensures current == Some(Cancelled) || current == Some(Draft) ==> r == current.value
    ensures r == Draft ==> current == Some(Draft)
    ensures r == Cancelled ==> current == Some(Cancelled)
    ensures current != Some(Cancelled) && current != Some(Draft) ==>
      && (r == Upcoming <==> start.Some? && now < start.value)
      && (r == Ongoing <==> start.Some? && start.value <= now <= start.value + DefaultDurationHours * HourMs)
      && (r == Completed <==> IsOver(start, now))
  {
    if current == Some(Cancelled) || current == Some(Draft) then current.value
    else if IsEventOngoing(start, now, DefaultDurationHours) then Ongoing
    else if IsEventUpcoming(start, now) then Upcoming
    else Completed
  }

  /** Rank of a clock-derived status in an event's life. */
  function Phase(st: EventStatus): nat {
    match st
    case Upcoming => 0
    case Ongoing => 1
    case _ => 2
  }

  /** As time passes, a clock-derived status only moves forward: upcoming,
      then ongoing, then completed. */
  lemma StatusMovesForward(start: Option<int>, t1: int, t2: int, current: Option<EventStatus>)
    requires t1 <= t2
    ensures Phase(GetEventStatus(start, t1, current)) <= Phase(GetEventStatus(start, t2, current))
  {
  }

  /** At most one of "ongoing" and "upcoming" holds for an instant. */
  lemma OngoingExcludesUpcoming(start: Option<int>, now: int, durationHours: int)
    ensures !(IsEventOngoing(start, now, durationHours) && IsEventUpcoming(start, now))
  {
  }

  /** The event has no room left. */
  function IsEventAtCapacity(attendees: int, maxAttendees: int): (r: bool)
    ensures r <==> maxAttendees - attendees <= 0
  {
    attendees >= maxAttendees
  }

  /** Free places, never negative. */
  function GetAvailableSpots(attendees: int, maxAttendees: int): (r: nat)
    ensures attendees <= maxAttendees ==> attendees + r == maxAttendees
    ensures attendees >= maxAttendees ==> r == 0
  {
    if maxAttendees - attendees > 0 then maxAttendees - attendees else 0
  }

  /** The requested attendees fit alongside the current ones. */
  function CanBookAttendees(current: int, maxAttendees: int, requested: int): (r: bool)
    ensures r <==> current + requested <= maxAttendees
  {
    current + requested <= maxAttendees
  }

  /** An event is at capacity exactly when no spots are available. */
  lemma AtCapacityIffNoSpots(attendees: int, maxAttendees: int)
    ensures IsEventAtCapacity(attendees, maxAttendees) <==> GetAvailableSpots(attendees, maxAttendees) == 0
  {
  }

  /** A bookable request never exceeds the available spots, and when the
      event is not over-booked every request within the available spots can
      be booked. */
  lemma CanBookWithinSpots(current: int, maxAttendees: int, requested: int)
    ensures CanBookAttendees(current, maxAttendees, requested) ==>
      requested <= GetAvailableSpots(current, maxAttendees)
    ensures current <= maxAttendees && requested <= GetAvailableSpots(current, maxAttendees) ==>
      CanBookAttendees(current, maxAttendees, requested)
  {
  }

  /** A booking may be cancelled while more than 24 hours remain before the
      event. The booking date plays no part. */
  function CanCancelBooking(bookingDate: string, start: Option<int>, now: int): (r: bool)
    ensures r <==> exists s :: start == Some(s) && s - now > DayMs
  {
    match start
    case None => false
    case Some(s) => s - now > DayMs
  }

  /** A reminder goes out during the last 24 hours before the event. */
  function ShouldSendReminder(start: Option<int>, now: int): (r: bool)
    ensures r <==> exists s :: start == Some(s) && 0 < s - now <= DayMs
  {
    match start
    case None => false
    case Some(s) => 0 < s - now <= DayMs
  }

  /** The cancellation window and the reminder window never overlap, and an
      event still in the future is in one of them. */
  lemma CancelAndReminderPartitionFuture(bookingDate: string, start: Option<int>, now: int)
    ensures !(CanCancelBooking(bookingDate, start, now) && ShouldSendReminder(start, now))
    ensures IsEventUpcoming(start, now) <==>
      CanCancelBooking(bookingDate, start, now) || ShouldSendReminder(start, now)
  {
  }

  /** The booking date does not affect whether a booking can be cancelled. */
  lemma CancelIgnoresBookingDate(d1: string, d2: string, start: Option<int>, now: int)
    ensures CanCancelBooking(d1, start, now) == CanCancelBooking(d2, start, now)
  {
  }

  /** The `x ? sanitizeString(x) : x` pattern: a present, non-empty string
      is sanitized; anything else passes through. */
  function SanitizeIfTruthy(o: Option<string>): Option<string> {
    match o
    case Some(s) => if |s| > 0 then Some(Text.Sanitize(s)) else o
    case None => None
  }

  /** Every present string of an optional text field is sanitized. */
  predicate SanitizedField(o: Option<string>) {
    o.Some? ==> Text.Normalized(o.value)
  }

  /** A tag in stored form: sanitized and lower-case. */
  function NormalizeTag(t: string): (r: string)
    ensures |r| == |Text.Sanitize(t)|
    ensures forall i :: 0 <= i < |r| ==> r[i] == Text.LowerChar(Text.Sanitize(t)[i])
    ensures Text.Normalized(r)
    ensures forall i :: 0 <= i < |r| ==> !('A' <= r[i] <= 'Z')
    ensures |r| <= |t|
  {
    Text.ToLowerKeepsNormalized(Text.Sanitize(t));
    Text.ToLower(Text.Sanitize(t))
  }

  /** Normalizing a tag twice is normalizing it once. */
  lemma NormalizeTagIdempotent(t: string)
    ensures NormalizeTag(NormalizeTag(t)) == NormalizeTag(t)
  {
    var n := NormalizeTag(t);
    Text.NormalizedIsFixpoint(n);
    assert Text.ToLower(n) == n;
  }

  /** Sanitizing an optional field is sanitizing its value when present. */
  lemma SanitizeIfTruthyMapsSanitize(o: Option<string>)
    ensures o.None? ==> SanitizeIfTruthy(o) == None
    ensures o.Some? ==> SanitizeIfTruthy(o) == Some(Text.Sanitize(o.value))
  {
    if o.Some? && |o.value| == 0 {
      assert Text.Sanitize(o.value) == o.value by {
        Text.NormalizedIsFixpoint(o.value);
      }
    }
  }

  function MapTags(tags: seq<string>): (r: seq<string>)
    ensures |r| == |tags|
    ensures forall i :: 0 <= i < |tags| ==> r[i] == NormalizeTag(tags[i])
  {
    seq(|tags|, i requires 0 <= i < |tags| => NormalizeTag(tags[i]))
  }

  /** Sanitizes the free-text fields of an event form and normalizes its
      tags; every other field is kept as given. */
  function SanitizeEventData(d: EventDraft): (r: EventDraft)
    ensures SanitizedField(r.title) && SanitizedField(r.description) && SanitizedField(r.location)
    ensures SanitizedField(r.requirements) && SanitizedField(r.refundPolicy)
    ensures r.title.Some? == d.title.Some? && r.description.Some? == d.description.Some?
    ensures r.location.Some? == d.location.Some? && r.requirements.Some? == d.requirements.Some?
    ensures r.refundPolicy.Some? == d.refundPolicy.Some?
    ensures r.tags.Some? == d.tags.Some?
    ensures r.tags.Some? ==>
      && |r.tags.value| == |d.tags.value|
      && forall i :: 0 <= i < |r.tags.value| ==> Text.Normalized(r.tags.value[i])
    ensures d.title.Some? ==> r.title == Some(Text.Sanitize(d.title.value))
    ensures d.description.Some? ==> r.description == Some(Text.Sanitize(d.description.value))
    ensures d.location.Some? ==> r.location == Some(Text.Sanitize(d.location.value))
    ensures d.requirements.Some? ==> r.requirements == Some(Text.Sanitize(d.requirements.value))
    ensures d.refundPolicy.Some? ==> r.refundPolicy == Some(Text.Sanitize(d.refundPolicy.value))
    ensures r.tags.Some? ==> forall i :: 0 <= i < |r.tags.value| ==> r.tags.value[i] == NormalizeTag(d.tags.value[i])
    ensures r.(title := d.title, description := d.description, location := d.location,
               requirements := d.requirements, refundPolicy := d.refundPolicy, tags := d.tags) == d
  {
    SanitizeIfTruthyMapsSanitize(d.title);
    SanitizeIfTruthyMapsSanitize(d.description);
    SanitizeIfTruthyMapsSanitize(d.location);
    SanitizeIfTruthyMapsSanitize(d.requirements);
    SanitizeIfTruthyMapsSanitize(d.refundPolicy);
    d.(title := SanitizeIfTruthy(d.title),
       description := SanitizeIfTruthy(d.description),
       location := SanitizeIfTruthy(d.location),
       requirements := SanitizeIfTruthy(d.requirements),
       refundPolicy := SanitizeIfTruthy(d.refundPolicy),
       tags := if d.tags.Some? then Some(MapTags(d.tags.value)) else None)
  }

  /** Sanitizing already sanitized data changes nothing. */
  lemma SanitizeEventDataIdempotent(d: EventDraft)
    ensures SanitizeEventData(SanitizeEventData(d)) == SanitizeEventData(d)
  {
    var r := SanitizeEventData(d);
    forall o | o in [d.title, d.description, d.location, d.requirements, d.refundPolicy]
      ensures SanitizeIfTruthy(SanitizeIfTruthy(o)) == SanitizeIfTruthy(o)
    {
      SanitizeIfTruthyMapsSanitize(o);
      SanitizeIfTruthyMapsSanitize(SanitizeIfTruthy(o));
      if o.Some? {
        Text.SanitizeIdempotent(o.value);
      }
    }
    if d.tags.Some? {
      var ts := r.tags.value;
      forall i | 0 <= i < |ts| ensures NormalizeTag(ts[i]) == ts[i] {
        NormalizeTagIdempotent(d.tags.value[i]);
      }
      assert MapTags(ts) == ts;
    }
  }

  /** Collects validation errors into a field-to-message record, a later
      error for a field replacing an earlier one. */
  function FormatValidationErrors(errors: seq<ValidationError>): (r: map<string, string>)
    ensures r.Keys == set i | 0 <= i < |errors| :: errors[i].field
    ensures forall f :: f in r ==> exists i :: LastFor(errors, f, i) && r[f] == errors[i].message
  {
    if |errors| == 0 then map[]
    else
      var prefix := errors[..|errors| - 1];
      var last := errors[|errors| - 1];
      var acc := FormatValidationErrors(prefix);
      FormatStep(errors, acc);
      acc[last.field := last.message]
  }

  /** `i` is the last position of an error for field `f`. */
  predicate LastFor(errors: seq<ValidationError>, f: string, i: int) {
    0 <= i < |errors| && errors[i].field == f &&
    forall j :: i < j < |errors| ==> errors[j].field != f
  }

  lemma FormatStep(errors: seq<ValidationError>, acc: map<string, string>)
    requires |errors| > 0
    requires acc.Keys == set i | 0 <= i < |errors| - 1 :: errors[i].field
    requires forall f :: f in acc ==> exists i :: LastFor(errors[..|errors| - 1], f, i) && acc[f] == errors[i].message
    ensures var last := errors[|errors| - 1];
      var r := acc[last.field := last.message];
      && r.Keys == (set i | 0 <= i < |errors| :: errors[i].field)
      && forall f :: f in r ==> exists i :: LastFor(errors, f, i) && r[f] == errors[i].message
  {
    var n := |errors| - 1;
    var last := errors[n];
    var r := acc[last.field := last.message];
    assert LastFor(errors, last.field, n);
    forall f | f in r ensures exists i :: LastFor(errors, f, i) && r[f] == errors[i].message {
      if f != last.field {
        var i :| LastFor(errors[..n], f, i) && acc[f] == errors[i].message;
        assert LastFor(errors, f, i);
      }
    }
    var all := set i | 0 <= i < |errors| :: errors[i].field;
    forall f | f in all ensures f in r.Keys {
      var i :| 0 <= i < |errors| && errors[i].field == f;
      if i < n {
        assert f in acc.Keys;
      }
    }
  }

  /** The message of the first error, if there is one. */
  function GetFirstValidationError(errors: seq<ValidationError>): (r: Option<string>)
    ensures r.None? <==> |errors| == 0
    ensures r.Some? ==> r.value == errors[0].message
  {
    if |errors| > 0 then Some(errors[0].message) else None
  }
}
