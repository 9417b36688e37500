# Ticketing core in Dafny

A model of the business logic of an event-ticketing web application. It covers the following parts:

- **Component registry and load-time monitor.**
  - Component lookup by name, with lazy wrapping of the "complex" components.
  - The button variant and size defaults.
  - A monitor that records load start times in an insertion-ordered map.
- **Event and booking rules.**
  - Event status from the clock.
  - Capacity arithmetic.
  - The cancellation and reminder windows.
  - Whitespace sanitization of event text and tag normalization.
  - Folding validation errors into a field-to-message record.
- **Record schemas.** The validation rules on users, events, bookings and notifications, as predicates over records. The event date rule is modelled both as intended and as written (see "## Findings").
- **In-memory stores.**
  - The events store: find, featured and per-organizer views, add, merge-update, delete.
  - The authentication store: mock login by e-mail address, registration, logout, the role and permission checks.
- **Route guards.** For admin, organizer and signed-in pages, both as intended and as written (see "## Findings").
- **Toast list.** Defaulted timeouts and scheduled removal.

Everything is pure functions over immutable values:

- Clock readings are explicit `now` parameters, in milliseconds.
- Generated ids are explicit parameters.
- The instant an event's `date` and `time` denote is passed in as `start: Option<int>`, where `None` is a date that does not parse.
- A pending `setTimeout` removal is returned as data.

Modules, one per concern:

| module | file | models |
|---|---|---|
| `Wrappers` | wrappers.dfy | `Option`, `Result` |
| `Seqs` | seqs.dfy | `findIndex`, `splice(i, 1)`, `filter` |
| `ComponentLoader` | component_loader.dfy | registry, `loadComponent`, `createLazyComponent`, bundle helpers |
| `LoadMonitor` | load_monitor.dfy | `performanceMonitor` |
| `Text` | text.dfy | `trim()`, `/\s+/g`, `sanitizeString`, `toLowerCase` |
| `Records` | records.dfy | the record types |
| `EventUtils` | event_utils.dfy | event time, capacity, booking windows, sanitizing, error formatting |
| `Validation` | validation.dfy | the zod schemas as predicates |
| `EventsStore` | events_store.dfy | the events store |
| `AuthStore` | auth_store.dfy | the authentication store |
| `RouteGuards` | route_guards.dfy | the three route middlewares, as intended and as written |
| `Toasts` | toasts.dfy | the toast composable |

Where a schema's error message and its bound disagree, the model follows the bound. For example, `max(200)` with the message "must be less than 200 characters" accepts exactly 200 characters.

## Model

| member | source | states |
|---|---|---|
| ComponentLoader.CreateLazyComponent | lib/component-loader.ts:27-43 | the loader and placeholders pass through; an absent delay or timeout becomes 200 or 3000, and a supplied one, 0 included, is kept |
| ComponentLoader.LoadComponent | lib/component-loader.ts:46-64 | fails exactly for names outside the registry, with the message `Component "<name>" not found in registry`; Dialog and Select (and only they) give a lazy wrapper with delay 100 and timeout 5000; every other registered name gives its registry loader unchanged |
| ComponentLoader.RegistryContents | lib/component-loader.ts:9-21 | the registry holds exactly the eight UI components, the complex ones among them |
| ComponentLoader.NotFoundMessageInjective | lib/component-loader.ts:49 | the not-found message identifies the missing name: different names give different messages |
| ComponentLoader.UnknownComponentFails | lib/component-loader.ts:46-50 | "NonExistentComponent" fails with the not-found message naming it |
| ComponentLoader.ExplicitZeroKept | lib/component-loader.ts:40-41 | a delay or timeout of 0 survives the `??` defaulting |
| ComponentLoader.GetButtonVariants | lib/component-loader.ts:69-72 | a non-empty list is returned unchanged, an empty one becomes the six variants; never empty |
| ComponentLoader.GetButtonSizes | lib/component-loader.ts:75-78 | a non-empty list is returned unchanged, an empty one becomes the four sizes; never empty |
| ComponentLoader.ButtonDefaultsIdempotent | lib/component-loader.ts:69-78 | applying either default twice gives the same list as applying it once |
| ComponentLoader.GetOptimizedClasses | lib/component-loader.ts:81-85 | the result is the caller's variant list, whatever the component name |
| LoadMonitor.Get | lib/component-loader.ts:97 | a name has a start time exactly when it is among the labels, and the time found is the one stored under it |
| LoadMonitor.StartTimer | lib/component-loader.ts:92-94 | afterwards the name maps to `now` and every other name keeps its time; a new name is appended to the label order, while a present name keeps its position |
| LoadMonitor.EndTimer | lib/component-loader.ts:96-105 | with a truthy start it returns `now - start`, removes only that name, and shrinks the map by one; with no entry or a start of 0 it returns 0 and changes nothing; the result is never negative when no start lies after `now` |
| LoadMonitor.GetStats | lib/component-loader.ts:107-112 | the active count is the number of running timers; the labels are the map's names in first-insertion order, so exactly the names with a start time, each listed once |
| LoadMonitor.StartNew | lib/component-loader.ts:92-94 | starting a name the monitor does not hold appends its entry at the end |
| LoadMonitor.StartThenEnd | lib/component-loader.ts:92-105 | starting a new name and then ending it returns the elapsed time and restores the previous map |
| LoadMonitor.EndTwice | lib/component-loader.ts:96-105 | a second end of the same name returns 0 |
| LoadMonitor.EndPresent | lib/component-loader.ts:96-103 | ending a name held with a truthy start returns the time since that start and removes exactly its entry |
| LoadMonitor.StartTwo | lib/component-loader.ts:92-94 | starting two different names on an empty monitor holds exactly those two entries, in start order |
| LoadMonitor.StatsInStartOrder | lib/component-loader.ts:107-112 | two timers started on an empty monitor are listed in start order |
| LoadMonitor.StatsAfterEndingFirst | lib/component-loader.ts:96-112 | ending the first of two timers leaves only the second |
| Text.TrimStart | types/utils.ts:192 | the result is a suffix of the input, every character dropped is whitespace, and the result does not start with whitespace |
| Text.TrimEnd | types/utils.ts:192 | the result is a prefix of the input, every character dropped is whitespace, and the result does not end with whitespace |
| Text.Trim | types/utils.ts:192 | `trim()`: the result is a slice of the input with only whitespace before and after it, starts and ends with a non-whitespace character, and is no longer than the input |
| Text.Collapse | types/utils.ts:192 | `replace(/\s+/g, ' ')` as a definition: each maximal whitespace run becomes one space and every other character is copied; its contract is stated by Text.CollapseShape and Text.SanitizeIsJoinOfWords |
| Text.CollapseShape | types/utils.ts:192 | replacing whitespace runs leaves whitespace only as single plain spaces, keeps whitespace at an end exactly where the input had it, and only shortens |
| Text.Sanitize | types/utils.ts:191-193 | the result has no whitespace at either end, no two adjacent whitespace characters, only plain spaces as whitespace, and is no longer than the input |
| Text.NormalizedIsFixpoint | types/utils.ts:191-193 | a string already in that shape is returned unchanged |
| Text.SanitizeIdempotent | types/utils.ts:191-193 | sanitizing twice is sanitizing once |
| Text.SanitizeIsJoinOfWords | types/utils.ts:191-193 | the result is the input's whitespace-separated words joined by single spaces |
| Text.LowerChar | types/utils.ts:203 | an ASCII capital becomes its lower-case letter, every other character is kept, and no capital remains |
| Text.ToLower | types/utils.ts:203 | `toLowerCase()`: the same length, each character mapped by Text.LowerChar (ASCII only, see the Text.LowerChar line under "## Left out") |
| Text.ToLowerIdempotent | types/utils.ts:203 | lower-casing twice is lower-casing once |
| Text.ToLowerKeepsNormalized | types/utils.ts:203 | lower-casing a sanitized string keeps it sanitized |
| EventUtils.IsEventUpcoming | types/utils.ts:132-135 | true exactly when the start parses and lies strictly after `now` |
| EventUtils.IsEventOngoing | types/utils.ts:137-142 | true exactly when the start parses and `now` lies in the closed window from the start to the given number of hours later |
| EventUtils.GetEventStatus | types/utils.ts:144-158 | cancelled and draft are kept; otherwise the result is upcoming exactly when the start is after `now`, ongoing exactly when `now` is within three hours after the start, and completed exactly when that window is over or the date does not parse; draft and cancelled never arise otherwise |
| EventUtils.StatusMovesForward | types/utils.ts:144-158 | as `now` grows, a clock-derived status only moves from upcoming to ongoing to completed |
| EventUtils.OngoingExcludesUpcoming | types/utils.ts:132-142 | an event is never both ongoing and upcoming |
| EventUtils.IsEventAtCapacity | types/utils.ts:161-163 | true exactly when no places remain |
| EventUtils.GetAvailableSpots | types/utils.ts:165-167 | never negative; places left when within capacity, 0 otherwise |
| EventUtils.CanBookAttendees | types/utils.ts:169-171 | true exactly when current plus requested attendees fit the maximum |
| EventUtils.AtCapacityIffNoSpots | types/utils.ts:161-167 | at capacity exactly when the available spots are 0 |
| EventUtils.CanBookWithinSpots | types/utils.ts:165-171 | a bookable request never exceeds the available spots; when not over-booked, any request within them is bookable |
| EventUtils.CanCancelBooking | types/utils.ts:174-180 | true exactly when the start parses and more than 24 hours remain |
| EventUtils.ShouldSendReminder | types/utils.ts:182-188 | true exactly when the start parses and between 0 (exclusive) and 24 hours (inclusive) remain |
| EventUtils.CancelAndReminderPartitionFuture | types/utils.ts:174-188 | cancellation and reminder windows never overlap, and together they cover exactly the upcoming events |
| EventUtils.CancelIgnoresBookingDate | types/utils.ts:174 | the booking date has no influence on cancellation |
| EventUtils.NormalizeTag | types/utils.ts:203 | a stored tag is the sanitized tag lower-cased character by character; it is in sanitized shape, has no capitals, and is no longer than the given one |
| EventUtils.NormalizeTagIdempotent | types/utils.ts:203 | normalizing a tag twice is normalizing it once |
| EventUtils.SanitizeIfTruthyMapsSanitize | types/utils.ts:198-202 | the truthiness test makes no difference: an absent field stays absent, a present one is sanitized (the empty string sanitizes to itself) |
| EventUtils.SanitizeEventData | types/utils.ts:195-205 | title, description, location, requirements and refund policy become their sanitized text when present and stay absent otherwise; each tag becomes its sanitized lower-case form, one for one; every other field is copied unchanged; the text fields come out sanitized |
| EventUtils.SanitizeEventDataIdempotent | types/utils.ts:195-205 | sanitizing event data twice is sanitizing it once |
| EventUtils.FormatValidationErrors | types/utils.ts:208-213 | the keys are exactly the error fields, and each field maps to the message of its last error |
| EventUtils.GetFirstValidationError | types/utils.ts:215-217 | none exactly for an empty list, otherwise the first error's message |
| Validation.TimePattern | types/validation.ts:27 | the anchored time regex: an hour of one digit, two digits starting 0 or 1, or 20 to 23, then a colon and a minute 00 to 59; decided by the one split three characters from the end |
| Validation.PhonePattern | types/validation.ts:62 | the anchored phone regex: an optional leading `+`, then one or more digits, whitespace characters, dashes or parentheses |
| Validation.PhonePatternExamples | types/validation.ts:62 | "+1 (555) 123-4567" and "555-0100" pass; "", "+", "++1", "555+1" and "ext. 12" fail |
| Validation.ValidUser | types/validation.ts:11-19 | the user schema's name bound: 2 to 100 characters |
| Validation.ValidEvent | types/validation.ts:22-56 | the event schema: the base bounds, a start after `now` unless completed or cancelled, and attendees at most the maximum |
| Validation.ValidCreateEvent | types/validation.ts:98-112 | the create-event schema: the form bounds and a start after `now`, whatever the status |
| Validation.ValidUpdateEvent | types/validation.ts:114-118 | the update schema: each present field within its base bound, no refinement |
| Validation.TimePatternIsClockTime | types/validation.ts:27 | the time pattern accepts exactly the strings writing a clock time: hour 0-23 in one or two digits, a colon, minute 00-59 |
| Validation.TimePatternExamples | types/validation.ts:27 | "9:05", "09:05", "23:59" pass; "24:00", "12:60", "123:00", "9:5" fail |
| Validation.ValidEventBounds | types/validation.ts:22-56 | a valid event is within capacity, has price 0-10000, places at most 10000, title 3-200 and description 10-2000 characters, at most ten tags and a clock time |
| Validation.PastEventNeedsClosedStatus | types/validation.ts:46-52 | an event not starting after `now` is valid only when completed or cancelled, and for those the date rule is waived |
| Validation.CreateEventNeedsFutureStart | types/validation.ts:98-112 | a valid new event starts after `now`, with no status waiver |
| Validation.CreateEventAcceptsFutureStart | types/validation.ts:98-112 | as intended, a form within the bounds passes exactly when its start is after `now` |
| Validation.StartText | types/validation.ts:47 | the text handed to `new Date` is the date, a `T`, and the time |
| Validation.DateTimeFormat | types/validation.ts:26 | `datetime()` with its default options: an ISO instant `YYYY-MM-DDTHH:MM[:SS[.fraction]]Z`, month 1-12, day 1-31, hour 0-23, minute and second 0-59, ending in the zone designator `Z`; its instances are Validation.DateTimeFormatAccepts and Validation.DateTimeFormatRefuses |
| Validation.DateTimeFormatAccepts | types/validation.ts:26 | instants with seconds, with a fractional second, and without seconds pass the format |
| Validation.DateTimeFormatRefuses | types/validation.ts:26 | a bare date, an instant with a `+02:00` offset, a free-form date that merely ends in `Z`, and an hour 24 fail the format |
| Validation.DateParser | types/validation.ts:47 | the demand on `new Date` for the schemas as written: for every date of the `datetime()` shape and every time, the concatenated text `date + "T" + time` is an Invalid Date (ISO parsing takes nothing after the `Z`) |
| Validation.ValidEventAsWritten | types/validation.ts:26-52 | as written: the date must pass the `datetime()` format, and the date rule reads the start from the concatenated text |
| Validation.ValidCreateEventAsWritten | types/validation.ts:98-112 | as written: the same for the create-event schema |
| Validation.CreateEventRejectsAllAsWritten | types/validation.ts:98-112 | as written, with a date parser that refuses an instant followed by `T` and a time (Validation.DateParser), no create form passes |
| Validation.EventAsWrittenNeedsClosedStatus | types/validation.ts:46-52 | as written, with such a parser, only completed and cancelled events pass the event schema |
| Validation.UpdateHasNoRefinement | types/validation.ts:114-118 | the empty update passes, and so does one with more attendees than places |
| Validation.AsUpdate | types/validation.ts:114-118 | an event viewed as an update sets its title, attendee count, capacity and tags |
| Validation.ValidEventIsValidUpdate | types/validation.ts:22-56 | a valid event, sent whole as an update, passes the update schema |
| Validation.ValidAttendee | types/validation.ts:59-63 | the attendee schema: a name of 2 to 100 characters and, when given, a phone number matching the phone pattern |
| Validation.ValidBooking | types/validation.ts:59-82 | the booking schema: 1 to 10 attendees, a non-negative amount, valid attendee records, and one record per attendee |
| Validation.ValidCreateBooking | types/validation.ts:120-126 | the create-booking schema: the same checks on the form, refinement included |
| Validation.ToBooking | types/validation.ts:120-126 | a booking carries the id and booking date given and every field of the form unchanged |
| Validation.ToBookingRoundTrip | types/validation.ts:120-126 | a booking is exactly its form plus an id and a booking date: dropping them from a made booking gives the form back, and re-adding them to a booking's form gives the booking back |
| Validation.ValidBookingCounts | types/validation.ts:72-82 | a valid booking has 1 to 10 attendees and one attendee record per attendee |
| Validation.CreateBookingMatchesBooking | types/validation.ts:120-126 | a booking form is valid exactly when the booking made from it is |
| Validation.ValidNotification | types/validation.ts:85-95 | the notification schema: a title of 1 to 200 and a message of 1 to 1000 characters |
| Validation.ValidCreateNotification | types/validation.ts:128-131 | the create-notification schema: the same text bounds on the form |
| Validation.ToNotification | types/validation.ts:128-131 | a notification carries the id and creation time given and every field of the form unchanged |
| Validation.ToNotificationRoundTrip | types/validation.ts:128-131 | a notification is exactly its form plus an id and a creation time, in both directions |
| Validation.CreateNotificationMatchesNotification | types/validation.ts:128-131 | a notification form is valid exactly when the notification made from it is |
| EventsStore.WithIdRoundTrip | stores/events.ts:88-92 | attaching an id and dropping it are inverse |
| EventsStore.Merge | stores/events.ts:100 | every field the patch sets, the id included, takes the patch's value and every other field keeps the event's (the event's full patch overlaid with the update); an empty patch changes nothing |
| EventsStore.MergeThen | stores/events.ts:100 | two updates in a row are one update in which the later patch wins |
| EventsStore.MergeFull | stores/events.ts:100 | a patch setting every field replaces the event |
| EventsStore.MergeIdempotent | stores/events.ts:100 | applying a patch twice is applying it once |
| EventsStore.IndexOfId | stores/events.ts:98 | the position of the first event with the id, or none exactly when no event has it |
| EventsStore.GetEventById | stores/events.ts:76-78 | none exactly when no event has the id; otherwise the first event with it |
| EventsStore.GetFeaturedEvents | stores/events.ts:80-82 | exactly the featured events of the store |
| EventsStore.FeaturedInOrder | stores/events.ts:80-82 | the featured view of a concatenation is the concatenation of the views, and one event is kept exactly when featured: the view is the featured events in store order |
| EventsStore.GetEventsByOrganizer | stores/events.ts:84-86 | exactly the store's events of that organizer |
| EventsStore.ByOrganizerInOrder | stores/events.ts:84-86 | the organizer view of a concatenation is the concatenation of the views, and one event is kept exactly when it is that organizer's: the view is those events in store order |
| EventsStore.AddEvent | stores/events.ts:88-95 | the list gains exactly one event at the end, carrying the new id and otherwise the given data, and that event is returned |
| EventsStore.UpdateEvent | stores/events.ts:97-104 | with the id present, only its first event is replaced by the merge, the length is kept, and the merged event is returned; with it absent, nothing changes and none is returned |
| EventsStore.DeleteEvent | stores/events.ts:106-113 | true exactly when some event has the id, in which case only the first such event is removed; otherwise nothing changes |
| EventsStore.AddThenGet | stores/events.ts:76-95 | an event added under a fresh id is the one found by it |
| EventsStore.AddThenDelete | stores/events.ts:88-113 | deleting an event just added under a fresh id restores the list |
| EventsStore.FeaturedAfterAdd | stores/events.ts:80-95 | the featured view after an add is the old view, followed by the new event when it is featured, so the view keeps store order |
| EventsStore.ByOrganizerAfterAdd | stores/events.ts:84-95 | the organizer view after an add is the old view, followed by the new event when it is that organizer's |
| EventsStore.UpdateThenGet | stores/events.ts:76-104 | after an update that keeps the id, lookup by the id returns the merged event |
| EventsStore.SeedFeatured | stores/events.ts:22-82 | of the initial events exactly the first two, the conference and the festival, are featured |
| EventsStore.SeedByOrganizer | stores/events.ts:22-86 | all three initial events belong to organizer "2" |
| EventsStore.SeedLookup | stores/events.ts:22-78 | in the initial events, id "3" finds the third |
| AuthStore.RoleName | stores/auth.ts:7 | the name "admin" belongs to Admin, "organizer" to Organizer and "user" to User, each name to that role only |
| AuthStore.IsAuthenticated | stores/auth.ts:13 | true exactly when a user is set |
| AuthStore.Login | stores/auth.ts:15-31 | the user is signed in with the given e-mail; the admin address gives admin "1" "Admin User", the organizer address organizer "2" "Event Organizer", any other a regular user "3" "Regular User" |
| AuthStore.LoginIgnoresPassword | stores/auth.ts:15-31 | the password and the previous state do not affect the login |
| AuthStore.Register | stores/auth.ts:33-46 | signs in a regular user with the given id, name and e-mail |
| AuthStore.Logout | stores/auth.ts:48-50 | afterwards nobody is authenticated |
| AuthStore.HasRole | stores/auth.ts:52-54 | true exactly when a user is set and their role has that name |
| AuthStore.Permissions | stores/auth.ts:58-62 | the role-to-permissions table: admin, organizer and user with their listed permissions; AuthStore.PermissionFacts states its consequences |
| AuthStore.HasPermission | stores/auth.ts:56-66 | false with no user; otherwise membership in the fixed table for the user's role |
| AuthStore.PermissionFacts | stores/auth.ts:59-65 | user management is admin-only, booking user-only, reading open to all signed-in users, and own-event management organizer-only, so admins lack it |
| AuthStore.LoginRole | stores/auth.ts:15-31 | after a login, the role checks follow the e-mail address |
| AuthStore.LogoutAfterSignIn | stores/auth.ts:48-50 | logging out after a login or a registration leaves the signed-out state, which has no role and no permission |
| RouteGuards.AdminGuard | middleware/admin.ts:1-10 | as intended: proceeds exactly for a signed-in admin; every other state is refused with 403 and "Access denied. Administrator role required." |
| RouteGuards.OrganizerGuard | middleware/organizer.ts:1-10 | as intended: proceeds exactly for a signed-in organizer or admin; every other state is refused with 403 and "Access denied. Organizer role required." |
| RouteGuards.AuthGuard | middleware/auth.ts:1-7 | as intended: proceeds exactly when authenticated, otherwise redirects to /auth/signin; never aborts |
| RouteGuards.GuardsNest | middleware/admin.ts:4 | passing the admin guard implies passing the organizer guard, which implies passing the auth guard |
| RouteGuards.GuardsRejectLowerRoles | middleware/organizer.ts:4 | regular users are kept out of organizer pages, and non-admins out of admin pages |
| RouteGuards.GuardsIgnoreRoutes | middleware/auth.ts:1 | no guard's decision depends on the routes |
| RouteGuards.LoginOpensGuards | middleware/admin.ts:4 | for the guards as intended: after a login every user passes the auth guard, only the admin address passes the admin guard, and the admin and organizer addresses pass the organizer guard |
| RouteGuards.StoreUser | stores/auth.ts:68-69 | the store hands a destructuring the unwrapped user: the user record when signed in, null when not |
| RouteGuards.StoreIsAuthenticated | stores/auth.ts:13 | the store hands a destructuring the unwrapped boolean of `isAuthenticated` |
| RouteGuards.ValueOf | middleware/admin.ts:4 | reading `.value` throws a TypeError exactly on null or undefined, and otherwise yields undefined |
| RouteGuards.AdminGuardAsWritten | middleware/admin.ts:1-10 | as written: never proceeds; signed out it throws a TypeError, signed in it refuses with 403 and the administrator message |
| RouteGuards.OrganizerGuardAsWritten | middleware/organizer.ts:1-10 | as written: never proceeds; signed out it throws a TypeError, signed in it refuses with 403 and the organizer message |
| RouteGuards.AuthGuardAsWritten | middleware/auth.ts:1-7 | as written: every navigation is redirected to /auth/signin |
| RouteGuards.AdminGuardAsWrittenDiffers | middleware/admin.ts:4 | the admin guard as written agrees with the intended one exactly on signed-in non-admins |
| RouteGuards.OrganizerGuardAsWrittenDiffers | middleware/organizer.ts:4 | the organizer guard as written agrees with the intended one exactly on signed-in regular users |
| RouteGuards.AuthGuardAsWrittenDiffers | middleware/auth.ts:4 | the auth guard as written agrees with the intended one exactly when no one is signed in |
| RouteGuards.SignedInAdminShutOutAsWritten | middleware/admin.ts:4 | after logging in as the admin address, the intended guards all proceed; the guards as written redirect to sign in and refuse both areas with 403 |
| RouteGuards.SignedOutCrashesAsWritten | middleware/organizer.ts:4 | signed out, the intended admin and organizer guards refuse with 403 while the guards as written throw a TypeError |
| RouteGuards.LoginOpensNothingAsWritten | middleware/auth.ts:4 | after any login the guards as written redirect to sign in and refuse both areas |
| Toasts.EffectiveTimeout | composables/useToast.ts:9 | a supplied non-zero timeout is kept, an absent or zero one becomes 5000; never 0 |
| Toasts.Add | composables/useToast.ts:4-21 | exactly one toast is appended and returned; it carries the request's id if given, else the generated id; a removal of the generated id is scheduled exactly when the timeout is positive |
| Toasts.IndexOfId | composables/useToast.ts:24 | the position of the first toast with the id, or none exactly when no toast has it |
| Toasts.Remove | composables/useToast.ts:23-28 | removes only the first toast with the id; no change when there is none |
| Toasts.Clear | composables/useToast.ts:30-32 | the list becomes empty |
| Toasts.ScheduledRemovalUndoesAdd | composables/useToast.ts:4-28 | a toast added without its own id under a fresh generated id is removed by its scheduled removal, restoring the list |
| Toasts.ScheduledRemovalMissesOverriddenId | composables/useToast.ts:5-18 | when the request brings its own id, the scheduled removal looks for the generated id and the toast stays |
| Toasts.NegativeTimeoutNeverExpires | composables/useToast.ts:9-18 | a negative timeout is kept and schedules no removal |

## Left out

- Asynchronous loading: the asynchronous behaviour of `defineAsyncComponent` (the delay/timeout race, showing placeholders) and the real `import()` calls are framework concerns. A loader is a path and a lazy component is its configuration record.
- Registry lookup through the object prototype (`componentRegistry["toString"]`): the registry is a closed finite map.
- EventUtils.FormatValidationErrors: an error whose field is `"__proto__"` goes to the object's prototype setter and adds no key; the model gives every field, that one included, its own key.
- Clocks and timers:
  - `performance.now()`, `Date.now()` and `new Date()` become explicit parameters.
  - The one-second delays of login and registration, `console.log` and the `setTimeout` callback are not modelled. A scheduled toast removal is returned as a `Removal` value.
- EventUtils.GetEventStatus: takes one clock reading, where the source reads the clock separately in each helper it calls.
- Date parsing: `new Date(`${date}T${time}`)` is the `start` parameter of the schemas as intended. The model does not decide which strings parse. For the schemas as written, parsing is a function parameter. The one thing demanded of it, Validation.DateParser, is stated and not derived: text made of a `datetime()` instant, a `T` and a time is an Invalid Date, because the ISO date-time grammar of ECMAScript admits nothing after the zone designator and the instant's leading digits and dashes leave no free-form reading.
- Validation.DateTimeFormat: the seconds are optional, so the format covers a zod version that demands seconds as well as one that does not; month lengths and leap years are not checked (`2025-02-31T10:00Z` passes). It therefore accepts at least every string zod accepts, so the refusals proved from it hold for zod's check as well.
- Validation.ValidEventAsWritten: the date format is Validation.DateTimeFormat, with optional seconds and no calendar check, so it accepts some dates zod refuses; the refusal it leads to holds for zod's check as well.
- Validation.ValidCreateEventAsWritten: the date format is Validation.DateTimeFormat, with optional seconds and no calendar check, so it accepts some dates zod refuses; the refusal it leads to holds for zod's check as well.
- Validation.ValidUser: e-mail, uuid, url and datetime formats are not checked, so this accepts more than the schema.
- Validation.ValidEvent: uuid, url and datetime formats are not checked, so this accepts more than the schema. Its `start` is the instant the date and time denote, as intended. Under the schema's own `datetime()` format the concatenated text never parses (Validation.DateParser), so as written `start` is always `None` (see "## Findings").
- Validation.ValidCreateEvent: the url and datetime formats are not checked. Its `start` is the instant the date and time denote, as intended. As written, `start` is always `None`, so no form passes (see "## Findings").
- Validation.ValidUpdateEvent: the url and datetime formats are not checked.
- Validation.ValidBooking: e-mail, uuid and datetime formats are not checked.
- Validation.ValidCreateBooking: e-mail and uuid formats are not checked.
- Validation.ValidNotification: uuid and datetime formats are not checked.
- Validation.ValidCreateNotification: uuid formats are not checked.
- Validation messages: the schemas' error messages and codes, `validateData`'s mapping of zod errors, the `validate*` and `isValid*` wrappers, and the form-validation composable are not modelled.
- String lengths: counted in characters, where JavaScript counts UTF-16 code units. They differ only for characters outside the Basic Multilingual Plane.
- Text.LowerChar, Text.ToLower, EventUtils.NormalizeTag: lower-case only ASCII letters; `toLowerCase` also maps other scripts.
- Numbers are integers:
  - prices in whole dollars, times in milliseconds;
  - fractional and NaN values are not represented.
- EventUtils.CanCancelBooking: compares whole milliseconds against 24 hours, where the source divides by the hour as a float.
- EventUtils.ShouldSendReminder: compares whole milliseconds against 24 hours, where the source divides by the hour as a float.
- Generated ids: `Date.now().toString()` ids are parameters, so two adds in the same millisecond are not distinguished from adds with equal ids.
- Randomness and locale: `generateId`, `getCurrentTimestamp`, `formatEventDate`, `formatPrice` and `calculateTotalAmount` (a float product) are not modelled.
- RouteGuards.AdminGuard: states the intended decision. The guard as written is RouteGuards.AdminGuardAsWritten (see "## Findings").
- RouteGuards.OrganizerGuard: states the intended decision. The guard as written is RouteGuards.OrganizerGuardAsWritten (see "## Findings").
- RouteGuards.AuthGuard: states the intended decision. The guard as written is RouteGuards.AuthGuardAsWritten (see "## Findings").
- RouteGuards.LoginOpensGuards: holds of the intended guards only. After any login the guards as written open nothing, as RouteGuards.LoginOpensNothingAsWritten states.
- Pinia's unwrapping is stated, not derived: RouteGuards.StoreUser and RouteGuards.StoreIsAuthenticated give the values a destructuring of the store sees. The store machinery itself is not modelled.
- Explicit `undefined`: an object spread copies a property explicitly set to `undefined`. The model has only absent (`None`) and present values.
- Not part of this model:
  - the build and performance scripts, the health endpoint and the configuration files;
  - the UI components and their tests.

## Findings

Each route guard destructures the auth store and then reads `.value` off what it got. The store object unwraps the refs and computed values it holds, so the destructured `user` is already the user record or null, and `isAuthenticated` is already a boolean.

The event and create-event schemas require `date` to pass `datetime()`, whose default format is an ISO instant ending in `Z` such as `2025-03-15T10:00:00Z`. Their date refinements then parse `${date}T${time}`, which for such a date reads `2025-03-15T10:00:00ZT10:00`: the ISO grammar ends at the `Z`, so the text is an Invalid Date (Validation.DateParser).

| source | as written | input that shows it | evidently intended | confidence | as-written member | corrected member |
|---|---|---|---|---|---|---|
| middleware/admin.ts:2-4 | `!user.value` is true for every signed-in user, and the read throws when signed out | logged in as admin@example.com: refused with 403; signed out: TypeError instead of 403 | only a signed-in admin proceeds, everyone else gets 403 | medium, not executed | RouteGuards.AdminGuardAsWritten | RouteGuards.AdminGuard |
| middleware/organizer.ts:2-4 | `!user.value` is true for every signed-in user, and the read throws when signed out | logged in as organizer@example.com: refused with 403; signed out: TypeError instead of 403 | a signed-in organizer or admin proceeds, everyone else gets 403 | medium, not executed | RouteGuards.OrganizerGuardAsWritten | RouteGuards.OrganizerGuard |
| middleware/auth.ts:2-4 | `isAuthenticated.value` is undefined, so the condition always holds | any signed-in user: redirected to /auth/signin | signed-in users proceed, others are redirected | medium, not executed | RouteGuards.AuthGuardAsWritten | RouteGuards.AuthGuard |
| types/validation.ts:98-112 | the date must be an ISO instant ending in `Z` and the parsed `${date}T${time}` must lie after now | any form: "2025-03-15" fails `datetime()`; "2025-03-15T10:00:00Z" with time "10:00" parses as Invalid Date | a form within the bounds passes when its date and time denote a future instant | medium, not executed | Validation.ValidCreateEventAsWritten | Validation.ValidCreateEvent |
| types/validation.ts:26-52 | the same date rule, waived for completed and cancelled events | an upcoming event dated "2025-03-15T10:00:00Z" at "10:00" is refused whenever it is checked | an upcoming event passes when its date and time denote a future instant | medium, not executed | Validation.ValidEventAsWritten | Validation.ValidEvent |

RouteGuards.SignedInAdminShutOutAsWritten and RouteGuards.SignedOutCrashesAsWritten exhibit the guard inputs. RouteGuards.AdminGuardAsWrittenDiffers, RouteGuards.OrganizerGuardAsWrittenDiffers and RouteGuards.AuthGuardAsWrittenDiffers state exactly where each pair disagrees. The properties of the guards (nesting, refusal of lower roles, login) are proved of the intended guards. Validation.CreateEventRejectsAllAsWritten and Validation.EventAsWrittenNeedsClosedStatus state the schema gap for all inputs, and Validation.CreateEventAcceptsFutureStart states what the intended create-event schema accepts.
