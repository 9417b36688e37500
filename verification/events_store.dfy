/** The events store: an ordered list of events with lookup by id, the
    featured and per-organizer views, and append, merge-update and delete of
    the first event carrying an id. The store's own event record is smaller
    than the application-wide one and has four statuses (no draft). */
module EventsStore {
  import opened Wrappers
  import Seqs

  datatype Status = Upcoming | Ongoing | Completed | Cancelled

  datatype Event = Event(
    id: string, title: string, description: string, date: string, time: string,
    location: string, image: string, price: int, category: string,
    organizerId: string, organizerName: string, attendees: int, maxAttendees: int,
    status: Status, featured: bool)

  /** An event as handed to `AddEvent`: every field but the id. */
  datatype NewEvent = NewEvent(
    title: string, description: string, date: string, time: string,
    location: string, image: string, price: int, category: string,
    organizerId: string, organizerName: string, attendees: int, maxAttendees: int,
    status: Status, featured: bool)

  /** A partial event: the fields an update sets. The id may be among them. */
  datatype Patch = Patch(
    id: Option<string>, title: Option<string>, description: Option<string>,
    date: Option<string>, time: Option<string>, location: Option<string>,
    image: Option<string>, price: Option<int>, category: Option<string>,
    organizerId: Option<string>, organizerName: Option<string>,
    attendees: Option<int>, maxAttendees: Option<int>, status: Option<Status>,
    featured: Option<bool>)

  const NoChange := Patch(None, None, None, None, None, None, None, None, None,
                          None, None, None, None, None, None)

  function WithId(d: NewEvent, id: string): Event {
    Event(id, d.title, d.description, d.date, d.time, d.location, d.image, d.price,
          d.category, d.organizerId, d.organizerName, d.attendees, d.maxAttendees,
          d.status, d.featured)
  }

  /** The event without its id. */
  function WithoutId(e: Event): NewEvent {
    NewEvent(e.title, e.description, e.date, e.time, e.location, e.image, e.price,
             e.category, e.organizerId, e.organizerName, e.attendees, e.maxAttendees,
             e.status, e.featured)
  }

  /** Attaching an id and dropping it again are inverse. */
  lemma WithIdRoundTrip(d: NewEvent, e: Event)
    ensures WithoutId(WithId(d, e.id)) == d
    ensures WithId(WithoutId(e), e.id) == e
  {
  }

  /** The object spread `{ ...e, ...p }`: each field the patch sets wins. */
  function Merge(e: Event, p: Patch): (r: Event)
    ensures p.id.Some? ==> r.id == p.id.value
    ensures p.id.None? ==> r.id == e.id
    ensures p == NoChange ==> r == e
    ensures Full(r) == Then(Full(e), p)
  {
    Event(p.id.GetOr(e.id), p.title.GetOr(e.title), p.description.GetOr(e.description),
          p.date.GetOr(e.date), p.time.GetOr(e.time), p.location.GetOr(e.location),
          p.image.GetOr(e.image), p.price.GetOr(e.price), p.category.GetOr(e.category),
          p.organizerId.GetOr(e.organizerId), p.organizerName.GetOr(e.organizerName),
          p.attendees.GetOr(e.attendees), p.maxAttendees.GetOr(e.maxAttendees),
          p.status.GetOr(e.status), p.featured.GetOr(e.featured))
  }

  function Or<T>(later: Option<T>, earlier: Option<T>): Option<T> {
    if later.Some? then later else earlier
  }

  /** The patch that sets what `q` sets and otherwise what `p` sets. */
  function Then(p: Patch, q: Patch): Patch {
    Patch(Or(q.id, p.id), Or(q.title, p.title), Or(q.description, p.description),
          Or(q.date, p.date), Or(q.time, p.time), Or(q.location, p.location),
          Or(q.image, p.image), Or(q.price, p.price), Or(q.category, p.category),
          Or(q.organizerId, p.organizerId), Or(q.organizerName, p.organizerName),
          Or(q.attendees, p.attendees), Or(q.maxAttendees, p.maxAttendees),
          Or(q.status, p.status), Or(q.featured, p.featured))
  }

  /** Two updates in a row are one update with the later patch winning. */
  lemma MergeThen(e: Event, p: Patch, q: Patch)
    ensures Merge(Merge(e, p), q) == Merge(e, Then(p, q))
  {
  }

  /** The patch that sets every field to the event's value. */
  function Full(e: Event): (p: Patch)
    ensures p.id == Some(e.id) && p.featured == Some(e.featured)
  {
    Patch(Some(e.id), Some(e.title), Some(e.description), Some(e.date), Some(e.time),
          Some(e.location), Some(e.image), Some(e.price), Some(e.category),
          Some(e.organizerId), Some(e.organizerName), Some(e.attendees),
          Some(e.maxAttendees), Some(e.status), Some(e.featured))
  }

  /** A patch that sets every field replaces the event outright. */
  lemma MergeFull(e: Event, f: Event)
    ensures Merge(e, Full(f)) == f
  {
  }

  /** Merging is idempotent: applying the same patch twice is applying it
      once. */
  lemma MergeIdempotent(e: Event, p: Patch)
    ensures Merge(Merge(e, p), p) == Merge(e, p)
  {
  }

  predicate HasId(e: Event, id: string) {
    e.id == id
  }

  /** Index of the first event with this id (`findIndex`). */
  function IndexOfId(es: seq<Event>, id: string): (r: Option<nat>)
    ensures r.Some? ==> r.value < |es| && es[r.value].id == id
    ensures r.Some? ==> forall j :: 0 <= j < r.value ==> es[j].id != id
    ensures r.None? <==> forall j :: 0 <= j < |es| ==> es[j].id != id
  {
    Seqs.FirstIndex(es, (e: Event) => e.id == id)
  }

  /** The first event with this id (`find`), if any. */
  function GetEventById(es: seq<Event>, id: string): (r: Option<Event>)
    ensures r.None? <==> forall j :: 0 <= j < |es| ==> es[j].id != id
    ensures r.Some? ==>
      && r.value.id == id
      && exists i :: 0 <= i < |es| && es[i] == r.value && forall j :: 0 <= j < i ==> es[j].id != id
  {
    match IndexOfId(es, id)
    case None => None
    case Some(i) => Some(es[i])
  }

  /** The featured events. */
  function GetFeaturedEvents(es: seq<Event>): (r: seq<Event>)
    ensures forall k :: 0 <= k < |r| ==> r[k].featured && r[k] in es
    ensures forall k :: 0 <= k < |es| && es[k].featured ==> es[k] in r
  {
    Seqs.Filter(es, (e: Event) => e.featured)
  }

  /** The featured view of a concatenation is the concatenation of the
      views, and one event is kept exactly when it is featured: so the view
      holds exactly the featured events, in store order. */
  lemma FeaturedInOrder(a: seq<Event>, b: seq<Event>, e: Event)
    ensures GetFeaturedEvents(a + b) == GetFeaturedEvents(a) + GetFeaturedEvents(b)
    ensures GetFeaturedEvents([e]) == if e.featured then [e] else []
  {
    var f := (x: Event) => x.featured;
    Seqs.FilterAppend(a, b, f);
    Seqs.FilterSingleton(e, f);
  }

  /** The events of one organizer. */
  function GetEventsByOrganizer(es: seq<Event>, organizerId: string): (r: seq<Event>)
    ensures forall k :: 0 <= k < |r| ==> r[k].organizerId == organizerId && r[k] in es
    ensures forall k :: 0 <= k < |es| && es[k].organizerId == organizerId ==> es[k] in r
  {
    Seqs.Filter(es, (e: Event) => e.organizerId == organizerId)
  }

  /** The organizer view of a concatenation is the concatenation of the
      views, and one event is kept exactly when it is that organizer's: so
      the view holds exactly the organizer's events, in store order. */
  lemma ByOrganizerInOrder(a: seq<Event>, b: seq<Event>, e: Event, organizerId: string)
    ensures GetEventsByOrganizer(a + b, organizerId) ==
      GetEventsByOrganizer(a, organizerId) + GetEventsByOrganizer(b, organizerId)
    ensures GetEventsByOrganizer([e], organizerId) == if e.organizerId == organizerId then [e] else []
  {
    var f := (x: Event) => x.organizerId == organizerId;
    Seqs.FilterAppend(a, b, f);
    Seqs.FilterSingleton(e, f);
  }

  /** Appends the new event under `newId` (the store uses the current
      millisecond clock reading, as a decimal string) and returns it. */
  function AddEvent(es: seq<Event>, d: NewEvent, newId: string): (r: (seq<Event>, Event))
    ensures r.1.id == newId && WithoutId(r.1) == d
    ensures r.0 == es + [r.1]
  {
    var e := WithId(d, newId);
    (es + [e], e)
  }

  /** Merges the patch into the first event with this id and returns the
      merged event; with no such event, nothing changes and `None` is
      returned. */
  function UpdateEvent(es: seq<Event>, id: string, p: Patch): (r: (seq<Event>, Option<Event>))
    ensures IndexOfId(es, id).None? ==> r == (es, None)
    ensures IndexOfId(es, id).Some? ==>
      var i := IndexOfId(es, id).value;
      && |r.0| == |es|
      && r.0[i] == Merge(es[i], p)
      && r.1 == Some(r.0[i])
      && forall j :: 0 <= j < |es| && j != i ==> r.0[j] == es[j]
  {
    match IndexOfId(es, id)
    case None => (es, None)
    case Some(i) => (es[i := Merge(es[i], p)], Some(Merge(es[i], p)))
  }

  /** Removes the first event with this id and reports whether there was
      one. */
  function DeleteEvent(es: seq<Event>, id: string): (r: (seq<Event>, bool))
    ensures r.1 <==> exists j :: 0 <= j < |es| && es[j].id == id
    ensures !r.1 ==> r.0 == es
    ensures r.1 ==>
      var i := IndexOfId(es, id).value;
      && |r.0| == |es| - 1
      && r.0 == es[..i] + es[i + 1..]
  {
    match IndexOfId(es, id)
    case None => (es, false)
    case Some(i) => (Seqs.RemoveAt(es, i), true)
  }

  /** An event added under an id no other event has is the one found by
      that id. */
  lemma AddThenGet(es: seq<Event>, d: NewEvent, newId: string)
    requires forall j :: 0 <= j < |es| ==> es[j].id != newId
    ensures GetEventById(AddEvent(es, d, newId).0, newId) == Some(WithId(d, newId))
  {
    var s := AddEvent(es, d, newId).0;
    assert s[|es|].id == newId;
    var i := IndexOfId(s, newId).value;
    assert i == |es|;
  }

  /** Deleting an event just added under a fresh id restores the list. */
  lemma AddThenDelete(es: seq<Event>, d: NewEvent, newId: string)
    requires forall j :: 0 <= j < |es| ==> es[j].id != newId
    ensures DeleteEvent(AddEvent(es, d, newId).0, newId) == (es, true)
  {
    var s := AddEvent(es, d, newId).0;
    assert s == es + [WithId(d, newId)];
    assert s[|es|].id == newId;
    var i := IndexOfId(s, newId).value;
    assert i == |es|;
    assert s[..i] + s[i + 1..] == es;
  }

  /** The featured view after an add is the old view, followed by the new
      event when it is featured: the view keeps the store's order. */
  lemma FeaturedAfterAdd(es: seq<Event>, d: NewEvent, newId: string)
    ensures GetFeaturedEvents(AddEvent(es, d, newId).0) ==
      GetFeaturedEvents(es) + (if d.featured then [WithId(d, newId)] else [])
  {
    var f := (e: Event) => e.featured;
    Seqs.FilterAppend(es, [WithId(d, newId)], f);
    Seqs.FilterSingleton(WithId(d, newId), f);
  }

  /** The organizer view after an add is the old view, followed by the new
      event when it belongs to that organizer. */
  lemma ByOrganizerAfterAdd(es: seq<Event>, d: NewEvent, newId: string, organizerId: string)
    ensures GetEventsByOrganizer(AddEvent(es, d, newId).0, organizerId) ==
      GetEventsByOrganizer(es, organizerId) + (if d.organizerId == organizerId then [WithId(d, newId)] else [])
  {
    var f := (e: Event) => e.organizerId == organizerId;
    Seqs.FilterAppend(es, [WithId(d, newId)], f);
    Seqs.FilterSingleton(WithId(d, newId), f);
  }

  /** An update that keeps the id can be read back by that id. */
  lemma UpdateThenGet(es: seq<Event>, id: string, p: Patch)
    requires exists j :: 0 <= j < |es| && es[j].id == id
    requires p.id.None? || p.id == Some(id)
    ensures GetEventById(UpdateEvent(es, id, p).0, id) == UpdateEvent(es, id, p).1
  {
    var i := IndexOfId(es, id).value;
    var s := UpdateEvent(es, id, p).0;
    var k := IndexOfId(s, id).value;
    assert s[i].id == id;
  }

  /** The three events the store starts with. */
  const SeedEvents: seq<Event> := [TechConference, MusicFestival, NetworkingDinner]

  const TechConference := Event("1", "Tech Conference 2025",
    "Join us for the biggest tech conference of the year featuring industry leaders and innovative technologies.",
    "2025-03-15", "09:00", "San Francisco Convention Center",
    "https://images.pexels.com/photos/2608517/pexels-photo-2608517.jpeg?auto=compress&cs=tinysrgb&w=800",
    299, "Technology", "2", "Event Organizer", 450, 500, Upcoming, true)

  const MusicFestival := Event("2", "Music Festival Summer",
    "Experience the best live music performances from top artists in a beautiful outdoor setting.",
    "2025-06-20", "14:00", "Central Park Amphitheater",
    "https://images.pexels.com/photos/1763075/pexels-photo-1763075.jpeg?auto=compress&cs=tinysrgb&w=800",
    129, "Music", "2", "Event Organizer", 2800, 3000, Upcoming, true)

  const NetworkingDinner := Event("3", "Business Networking Dinner",
    "Connect with professionals and expand your network at this exclusive business dinner event.",
    "2025-02-28", "18:30", "Grand Hotel Ballroom",
    "https://images.pexels.com/photos/1181406/pexels-photo-1181406.jpeg?auto=compress&cs=tinysrgb&w=800",
    89, "Business", "2", "Event Organizer", 180, 200, Upcoming, false)

  /** Filtering three events, one at a time. */
  lemma FilterThree(x: Event, y: Event, z: Event, p: Event -> bool)
    ensures Seqs.Filter([x, y, z], p) ==
      (if p(x) then [x] else []) + (if p(y) then [y] else []) + (if p(z) then [z] else [])
  {
    assert [x, y, z] == [x] + [y] + [z];
    Seqs.FilterAppend([x] + [y], [z], p);
    Seqs.FilterAppend([x], [y], p);
    Seqs.FilterSingleton(x, p);
    Seqs.FilterSingleton(y, p);
    Seqs.FilterSingleton(z, p);
  }

  /** In the initial store the first two events are featured. */
  lemma SeedFeatured()
    ensures GetFeaturedEvents(SeedEvents) == [TechConference, MusicFestival]
  {
    FilterThree(TechConference, MusicFestival, NetworkingDinner, (e: Event) => e.featured);
  }

  /** In the initial store all three events belong to organizer "2". */
  lemma SeedByOrganizer()
    ensures GetEventsByOrganizer(SeedEvents, "2") == SeedEvents
  {
    FilterThree(TechConference, MusicFestival, NetworkingDinner, (e: Event) => e.organizerId == "2");
  }

  /** In the initial store id "3" finds the third event. */
  lemma SeedLookup()
    ensures GetEventById(SeedEvents, "3") == Some(NetworkingDinner)
  {
    assert SeedEvents[2].id == "3";
    var i := IndexOfId(SeedEvents, "3").value;
    assert SeedEvents[0].id != "3" && SeedEvents[1].id != "3";
    assert i == 2;
  }
}
