# Hazard-zone bookkeeping, modelled in Dafny

This project models the part of the hazard-zone application that decides
which (zone, user location) association rows exist and which of them carry
`isNotified = true`. It also models the client's in-memory notification list.

- `model.dfy` (module `Model`) holds the entities: zones, users, user
  locations and association rows. It also holds the enum names the database
  stores and the text of the alert SMS.
- `matching.dfy` (module `Matching`) holds the matching itself, written as
  specification functions and two loops.
  - `MatchZones` is the `forEach` over ACTIVE zones in `createLocation` and
    `updateLocation`.
  - `ScanForZone` is the `for` loop of `createZone`. It collects the
    contained locations, calls the SMS gateway for owners with a phone
    number, and records which calls returned.
  - The module also has the lemmas about deleting, re-inserting and marking
    rows.
- `actions.dfy` (module `Actions`) holds the server actions as methods of a
  `Database` class. Its tables are `seq` fields (users as a `map`) and its
  autoincrement counters are `nat` fields. `Valid()` is the table
  invariant: ids are distinct and below the counters, every location has an
  owner, and no two rows share a (zoneId, userLocationId) pair. Every action
  keeps this invariant and states its whole new state.
- `notifications.dfy` (module `Notifications`) holds the notification
  provider's updaters as pure functions on `seq<Notification>`, with lemmas
  about the updaters.

Point-in-polygon is the arrow `Containment = (Geometry, Point) -> bool`. The
database holds it as a constant and the matching functions take it as a
parameter, so the model assumes nothing about geometry beyond its
determinism. The SMS gateway is `Matching.SendSms`, whose outcome (returned
or threw) is left open. `CreateZone` returns the log of every attempt as
`seq<SmsAttempt>`, so its contract can say which calls were made and which
rows were marked because of them.

Three behaviours of the code worth knowing:

- The code marks a row notified whenever `sendSms` returned. That includes a
  gateway answer whose `status` is not `"success"`: lib/philsms.ts:36 logs
  the failure and lib/philsms.ts:39 still returns normally.
- `updateLocation` deletes and re-inserts the rows of the location even when
  the coordinates did not change, although the comment at
  actions/locations.action.ts:72 says the deletion is "in case location
  moved". As a result, the location's `isNotified` history is lost on every
  update.
- The status of the zone being created plays no part in `createZone`. A zone
  created as RESOLVED still gets rows and SMS attempts.

## Model

| member | source | states |
|---|---|---|
| Model.ParseStatus | actions/zone.action.ts:19 | the status is accepted exactly when the text is one of the enum's stored names, and then it is the status with that name |
| Model.ParseDisasterType | actions/zone.action.ts:21 | the disaster type is accepted exactly when the text is one of its stored names, and then it is the type with that name |
| Model.ParseDangerLevel | actions/zone.action.ts:22 | the danger level is accepted exactly when the text is one of its stored names, and then it is the level with that name |
| Model.LowerCase | actions/zone.action.ts:49-51 | `toLowerCase` keeps the length and maps each character through the ASCII upper-to-lower mapping |
| Model.SmsMessageNamesLocation | actions/zone.action.ts:49-51 | for one danger level and disaster type, equal alerts name the same location (the text itself is `SmsMessage`'s definition) |
| Matching.PointOf | actions/locations.action.ts:27 | the containment point has two coordinates, longitude first and latitude second |
| Matching.ActiveZones | actions/locations.action.ts:21-25 | the zones fetched are exactly the stored zones whose status is ACTIVE |
| Matching.ContainingZones | actions/locations.action.ts:30-38 | a row is produced exactly for each listed zone containing the point; it carries the location's id and is not notified |
| Matching.LocationRowsExact | actions/locations.action.ts:21-38 | a row is matched for a location exactly when its zone is stored, is ACTIVE and contains the point |
| Matching.MatchZones | actions/locations.action.ts:27-38 | the loop pushes exactly the rows of the containing zones, in zone order |
| Matching.ContainedLocations | actions/zone.action.ts:36-45 | `affected` holds a row for the new zone exactly for each contained location; none is notified; the zone's status plays no part |
| Matching.SmsRequests | actions/zone.action.ts:43-54 | an SMS is requested exactly for each contained location whose owner's phone number is present and non-empty; it goes to that number with that location's alert |
| Matching.ReturnedIds | actions/zone.action.ts:53-58 | `notifiedIds` holds a location exactly when one of its SMS calls returned; a call that threw adds nothing |
| Matching.ScanForZone | actions/zone.action.ts:36-61 | the loop builds exactly the contained rows, makes exactly the requested SMS calls in order, and collects the ids whose call returned; a thrown call does not stop the loop |
| Matching.NotifiedAreAffected | actions/zone.action.ts:43-58 | every notified id has a row for the new zone and an SMS call to a non-empty number that returned |
| Matching.Detach | actions/locations.action.ts:72-75 | `deleteMany` keeps exactly the rows of other locations |
| Matching.MarkNotified | actions/zone.action.ts:68-77 | `updateMany` keeps every row's key and sets `isNotified` on exactly the rows of this zone whose location is in the id list; other rows are unchanged |
| Matching.MarkNotifiedKeys | actions/zone.action.ts:69-76 | marking rows adds no (zone, location) pair |
| Matching.MarkNotifiedNone | actions/zone.action.ts:69 | with no notified id, skipping the update and running it leave the same table |
| Matching.DetachAppend | actions/locations.action.ts:72-75 | deleting a location's rows distributes over concatenation of tables |
| Matching.DetachAllOf | actions/locations.action.ts:72-75 | deleting removes every row that belongs to the location |
| Matching.DetachNoneOf | actions/locations.action.ts:72-75 | deleting changes nothing in a table without rows of the location |
| Matching.RelocatedFrame | actions/locations.action.ts:72-101 | after delete-and-reinsert, the rows of every other location are exactly those before |
| Matching.RelocatedIdempotent | actions/locations.action.ts:72-101 | doing delete-and-reinsert twice with the same new rows gives the table that doing it once gives |
| Matching.RelocatedRowsOfLocation | actions/locations.action.ts:72-101 | afterwards the location's rows are exactly the re-inserted ones, and every other location's row is kept |
| Matching.UniqueAppend | actions/locations.action.ts:41-45 | appending rows with fresh keys keeps (zoneId, userLocationId) unique |
| Matching.DetachUnique | actions/locations.action.ts:72-75 | deleting rows keeps keys unique |
| Matching.ActiveZonesDistinct | actions/locations.action.ts:21-25 | the ACTIVE zones have distinct ids when the zone table has them |
| Matching.ContainingZonesUnique | actions/locations.action.ts:30-38 | the rows matched for one location have unique keys |
| Matching.ContainedLocationsUnique | actions/zone.action.ts:40-44 | given distinct location ids, the new zone gets at most one row per location |
| Matching.RelocatedUnique | actions/locations.action.ts:72-101 | delete-and-reinsert keeps (zoneId, userLocationId) unique |
| Matching.CreatedZoneRows | actions/zone.action.ts:63-77 | when no row of the new zone existed, every earlier row is unchanged, and a new row is notified exactly when its location is in `notifiedIds` |
| Matching.CreatedZoneUnique | actions/zone.action.ts:40-77 | inserting the new zone's rows and marking them keeps keys unique |
| Actions.ZoneIndex | actions/zone.action.ts:110-111 | finds the position of the zone with that id, or reports that no stored zone has it |
| Actions.LocationIndex | actions/locations.action.ts:62-63 | finds the position of the location with that id, or reports that no stored location has it |
| Actions.WithOwners | actions/zone.action.ts:32-34 | every location is listed once, in table order, with its owner's phone number |
| Actions.ActiveAssociations | actions/locations.action.ts:115-121 | a location is shown with exactly its rows whose zone exists and is ACTIVE, each with that zone |
| Actions.LocationViews | actions/locations.action.ts:110-124 | exactly the user's locations are returned, each with its ACTIVE associations |
| Actions.OwnersDistinct | actions/zone.action.ts:32-34 | joining the owners keeps the location ids distinct |
| Actions.ContainedBelow | actions/zone.action.ts:40-44 | every row of the new zone refers to a stored location, whose id is below the location counter |
| Actions.CreateZoneConsistent | actions/zone.action.ts:15-77 | storing the zone, inserting its rows and marking them keeps the table invariant |
| Actions.ZoneEditConsistent | actions/zone.action.ts:108-146 | overwriting a zone's fields, with its id kept, keeps the table invariant |
| Actions.CreateLocationConsistent | actions/locations.action.ts:8-45 | storing a location with a known owner and inserting its rows keeps the table invariant |
| Actions.UpdateLocationConsistent | actions/locations.action.ts:54-101 | overwriting a location's fields and re-matching it keeps the table invariant |
| Actions.NotifyZone | actions/zone.action.ts:31-77 | the rows after `createZone` are the old rows plus the contained rows, marked where the SMS call returned; the SMS calls are exactly the requested ones |
| Actions.MatchRows | actions/locations.action.ts:21-45 | after `createLocation` the rows are the old rows plus one row for each containing ACTIVE zone |
| Actions.RematchRows | actions/locations.action.ts:72-101 | after `updateLocation` the location's rows are replaced by those of the ACTIVE zones containing its new position |
| Actions.Database.CreateZone | actions/zone.action.ts:10-85 | an unknown status, disaster type or danger level fails with the generic error and changes nothing. Otherwise the zone gets the next id; the SMS calls are exactly those for contained, reachable locations; the rows become the old rows plus the contained ones, marked exactly where a call returned; users and locations are unchanged; the invariant holds |
| Actions.Database.StoreZoneAndNotify | actions/zone.action.ts:15-77 | the zone is appended; the rows and SMS calls are as for `CreateZone`; the invariant is kept |
| Actions.Database.UpdateZone | actions/zone.action.ts:108-123 | a missing id fails with the generic error; otherwise only that zone's name and description change; the rows and locations are untouched |
| Actions.Database.ChangeZoneStatus | actions/zone.action.ts:134-146 | a missing id or an unknown status fails; otherwise only that zone's status changes; no row is added, removed or re-matched |
| Actions.Database.CreateLocation | actions/locations.action.ts:8-52 | an unknown owner fails and changes nothing. Otherwise the location gets the next id, and the rows become the old rows plus one unnotified row per ACTIVE zone containing it; no SMS is sent |
| Actions.Database.UpdateLocation | actions/locations.action.ts:54-108 | a missing id fails and changes nothing. Otherwise only that location's name, description and coordinates change, and all its rows are replaced by the ACTIVE matches for the new position, even when the coordinates are unchanged |
| Actions.Database.GetUserLocations | actions/locations.action.ts:110-129 | every one of the user's stored locations is returned and no other, and only with stored rows whose zone is ACTIVE |
| Actions.UpdateLocationTwice | actions/locations.action.ts:54-108 | two identical `updateLocation` calls in a row leave the same rows as one |
| Notifications.SomeWithId | providers/NotoficationsProvider.tsx:31 | `some` is true exactly when an entry has the id |
| Notifications.AddNotification | providers/NotoficationsProvider.tsx:29-35 | a listed id leaves the list unchanged; otherwise the notification is appended after all earlier entries, in order |
| Notifications.MarkAsRead | providers/NotoficationsProvider.tsx:37-41 | length and order are kept; entries with the id get `read = true`; every other entry and field is unchanged |
| Notifications.ClearNotifications | providers/NotoficationsProvider.tsx:43 | the list holds no entry afterwards and its unread count is zero |
| Notifications.UnreadCount | providers/NotoficationsProvider.tsx:45 | the count is at most the length, and it is zero exactly when every entry is read |
| Notifications.AddKeepsDistinct | providers/NotoficationsProvider.tsx:29-35 | adding keeps ids pairwise distinct |
| Notifications.RunKeepsDistinct | providers/NotoficationsProvider.tsx:29-43 | ids stay pairwise distinct across any sequence of add, mark-as-read and clear |
| Notifications.ReachableDistinct | providers/NotoficationsProvider.tsx:27-43 | every list reachable from the initial empty list has distinct ids |
| Notifications.MarkAsReadIdempotent | providers/NotoficationsProvider.tsx:37-41 | marking the same id twice equals marking it once |
| Notifications.MarkAsReadAbsent | providers/NotoficationsProvider.tsx:37-41 | marking an id that is not listed leaves the list unchanged |
| Notifications.UnreadCountAppend | providers/NotoficationsProvider.tsx:45 | the unread count of a concatenation is the sum of the counts |
| Notifications.MarkAsReadLowersUnread | providers/NotoficationsProvider.tsx:37-45 | with distinct ids, marking the id of an unread entry lowers the unread count by exactly one |

## Left out

- Point-in-polygon over GeoJSON polygons and multipolygons (section 3.1.6 of RFC 7946) is taken as an arbitrary deterministic containment test. It is not re-derived over IEEE doubles.
- `JSON.parse` of the geometry, and `parseFloat`/`parseInt` of coordinates and ids, are left out. Coordinates are `real`, geometry is an opaque value, and ids are `nat`.
- The SMS request itself (lib/philsms.ts) is left out: the token check, the leading-`+` strip, the HTTP call and the gateway's answer. Only "returned or threw" is modelled.
- The discussion record that `createZone` creates with the zone is left out; it does not touch the association table.
- `revalidatePath`, console logging and the `createdAt` ordering of other reads are left out.
- `deleteZone` and `deleteUserLocation` are left out. Whether their association rows cascade is decided by the database schema, which is not part of this model.
- Store failures (a lost connection, a rejected write) are not modelled. Only the failures the actions meet on well-formed tables are modelled: an unknown enum name, a missing id, and a missing owner, which is a foreign-key violation. Every action is one atomic step; the missing transactions and concurrent requests are not modelled.
- The other actions are left out: discussions, facilities, users, authentication and affected history. So are the React UI and the `useNotifications` context guard.
- Notifications.Notification: the `Date` timestamp is an opaque `int`.
