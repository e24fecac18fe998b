/**
 * The affected-location matcher: which association rows a write operation
 * inserts, which alerts it sends, and how the association table changes.
 * Functions here are the specification; the two scan loops of the server
 * actions are the methods MatchZones and ScanForZone.
 */
module Matching {
  import opened Model

  /** The GeoJSON point built for a location: longitude first, then latitude. */
  function PointOf(loc: UserLocation): (p: Point)
    ensures |p.coordinates| == 2
    ensures p.coordinates[0] == loc.longitude && p.coordinates[1] == loc.latitude
  {
    Point([loc.longitude, loc.latitude])
  }

  // ===========================================================================
  // Location side: a location against the ACTIVE zones

  /** The `status: "ACTIVE"` query over the zone table, in table order. */
  function ActiveZones(zones: seq<Zone>): (r: seq<Zone>)
    ensures |r| <= |zones|
    ensures forall z :: z in r <==> z in zones && z.status == Active
  {
    if zones == [] then []
    else
      var z := zones[|zones| - 1];
      ActiveZones(zones[..|zones| - 1]) + (if z.status == Active then [z] else [])
  }

  /** One row `{zoneId, userLocationId}` for each listed zone whose geometry contains `p`, in list order. */
  function ContainingZones(zones: seq<Zone>, p: Point, locId: nat, contains: Containment): (rows: seq<Affected>)
    ensures |rows| <= |zones|
    ensures forall r :: r in rows <==>
      && r.userLocationId == locId && !r.isNotified
      && exists z :: z in zones && z.id == r.zoneId && contains(z.geometry, p)
  {
    if zones == [] then []
    else
      var z := zones[|zones| - 1];
      ContainingZones(zones[..|zones| - 1], p, locId, contains)
        + (if contains(z.geometry, p) then [Affected(z.id, locId, false)] else [])
  }

  /** The rows createLocation and updateLocation insert for location `locId` standing at `p`. */
  function LocationRows(zones: seq<Zone>, p: Point, locId: nat, contains: Containment): seq<Affected> {
    ContainingZones(ActiveZones(zones), p, locId, contains)
  }

  /**
   * The inserted rows are exactly one per ACTIVE zone that contains the point:
   * nothing for a RESOLVED zone and nothing for a zone that does not contain it.
   */
  lemma LocationRowsExact(zones: seq<Zone>, p: Point, locId: nat, contains: Containment, r: Affected)
    ensures r in LocationRows(zones, p, locId, contains) <==>
      && r.userLocationId == locId && !r.isNotified
      && exists z :: z in zones && z.id == r.zoneId && z.status == Active && contains(z.geometry, p)
  {
    var active := ActiveZones(zones);
    if r.userLocationId == locId && !r.isNotified && exists z :: z in zones && z.id == r.zoneId && z.status == Active && contains(z.geometry, p) {
      var z :| z in zones && z.id == r.zoneId && z.status == Active && contains(z.geometry, p);
      assert z in active;
      assert r == Affected(z.id, locId, false);
    }
  }

  /** The `forEach` over the active zones that pushes one row per containing zone. */
  method MatchZones(activeZones: seq<Zone>, p: Point, locId: nat, contains: Containment) returns (affectedZones: seq<Affected>)
    ensures affectedZones == ContainingZones(activeZones, p, locId, contains)
  {
    affectedZones := [];
    for i := 0 to |activeZones|
      invariant affectedZones == ContainingZones(activeZones[..i], p, locId, contains)
    {
      var zone := activeZones[i];
      assert activeZones[..i + 1][..i] == activeZones[..i];
      if contains(zone.geometry, p) {
        affectedZones := affectedZones + [Affected(zone.id, locId, false)];
      }
    }
    assert activeZones[..|activeZones|] == activeZones;
  }

  // ===========================================================================
  // Zone side: a new zone against every location

  /** A location as fetched with its owner included: the owner's phone number travels with it. */
  datatype Candidate = Candidate(location: UserLocation, phoneNumber: Option<string>)

  /** A JavaScript-truthy phone number: present and non-empty. */
  predicate HasPhone(c: Candidate) {
    c.phoneNumber.Some? && c.phoneNumber.value != ""
  }

  datatype SmsRequest = SmsRequest(locationId: nat, recipient: string, message: string)

  /** One call of the SMS gateway and whether it returned (true) or threw (false). */
  datatype SmsAttempt = SmsAttempt(request: SmsRequest, returned: bool)

  function RequestFor(zone: Zone, c: Candidate): SmsRequest
    requires HasPhone(c)
  {
    SmsRequest(c.location.id, c.phoneNumber.value, SmsMessage(c.location.name, zone.dangerLevel, zone.disasterType))
  }

  predicate Inside(geometry: Geometry, c: Candidate, contains: Containment) {
    contains(geometry, PointOf(c.location))
  }

  /** The `affected` list: one row per contained location, in list order; the zone's status plays no part. */
  function ContainedLocations(zoneId: nat, geometry: Geometry, cands: seq<Candidate>, contains: Containment): (rows: seq<Affected>)
    ensures |rows| <= |cands|
    ensures forall r :: r in rows <==>
      && r.zoneId == zoneId && !r.isNotified
      && exists c :: c in cands && c.location.id == r.userLocationId && Inside(geometry, c, contains)
  {
    if cands == [] then []
    else
      var c := cands[|cands| - 1];
      ContainedLocations(zoneId, geometry, cands[..|cands| - 1], contains)
        + (if Inside(geometry, c, contains) then [Affected(zoneId, c.location.id, false)] else [])
  }

  /** The SMS calls the scan makes: one per contained location whose owner has a phone number, in list order. */
  function SmsRequests(zone: Zone, cands: seq<Candidate>, contains: Containment): (reqs: seq<SmsRequest>)
    ensures |reqs| <= |cands|
    ensures forall q :: q in reqs <==>
      exists c :: c in cands && Inside(zone.geometry, c, contains) && HasPhone(c) && q == RequestFor(zone, c)
  {
    if cands == [] then []
    else
      var c := cands[|cands| - 1];
      SmsRequests(zone, cands[..|cands| - 1], contains)
        + (if Inside(zone.geometry, c, contains) && HasPhone(c) then [RequestFor(zone, c)] else [])
  }

  function Requests(attempts: seq<SmsAttempt>): (r: seq<SmsRequest>)
    ensures |r| == |attempts|
    ensures forall i :: 0 <= i < |attempts| ==> r[i] == attempts[i].request
  {
    if attempts == [] then [] else Requests(attempts[..|attempts| - 1]) + [attempts[|attempts| - 1].request]
  }

  /** `notifiedIds`: the location of every attempt whose SMS call returned, whatever the gateway answered. */
  function ReturnedIds(attempts: seq<SmsAttempt>): (ids: seq<nat>)
    ensures |ids| <= |attempts|
    ensures forall id :: id in ids <==> exists a :: a in attempts && a.returned && a.request.locationId == id
  {
    if attempts == [] then []
    else
      var a := attempts[|attempts| - 1];
      ReturnedIds(attempts[..|attempts| - 1]) + (if a.returned then [a.request.locationId] else [])
  }

  /** The SMS gateway: its call either returns or throws, and nothing here decides which. */
  method SendSms(recipient: string, message: string) returns (returned: bool)
  {
    returned := *;
  }

  /**
   * The loop of createZone: every contained location gets a row; its owner, if
   * reachable, gets an SMS, and the location is counted as notified exactly
   * when that call returned. A throwing call is caught and the loop goes on.
   */
  method ScanForZone(zone: Zone, userLocations: seq<Candidate>, contains: Containment)
    returns (affected: seq<Affected>, notifiedIds: seq<nat>, attempts: seq<SmsAttempt>)
    ensures affected == ContainedLocations(zone.id, zone.geometry, userLocations, contains)
    ensures Requests(attempts) == SmsRequests(zone, userLocations, contains)
    ensures notifiedIds == ReturnedIds(attempts)
  {
    affected, notifiedIds, attempts := [], [], [];
    for i := 0 to |userLocations|
      invariant affected == ContainedLocations(zone.id, zone.geometry, userLocations[..i], contains)
      invariant Requests(attempts) == SmsRequests(zone, userLocations[..i], contains)
      invariant notifiedIds == ReturnedIds(attempts)
    {
      var loc := userLocations[i];
      assert userLocations[..i + 1][..i] == userLocations[..i];
      if contains(zone.geometry, PointOf(loc.location)) {
        affected := affected + [Affected(zone.id, loc.location.id, false)];
        if HasPhone(loc) {
          var message := SmsMessage(loc.location.name, zone.dangerLevel, zone.disasterType);
          var returned := SendSms(loc.phoneNumber.value, message);
          var attempt := SmsAttempt(SmsRequest(loc.location.id, loc.phoneNumber.value, message), returned);
          assert (attempts + [attempt])[..|attempts|] == attempts;
          attempts := attempts + [attempt];
          if returned {
            notifiedIds := notifiedIds + [loc.location.id];
          }
        }
      }
    }
    assert userLocations[..|userLocations|] == userLocations;
  }

  /** Only a location that got a row can be notified, and only if its SMS call returned. */
  lemma NotifiedAreAffected(zone: Zone, cands: seq<Candidate>, contains: Containment, attempts: seq<SmsAttempt>, id: nat)
    requires Requests(attempts) == SmsRequests(zone, cands, contains)
    requires id in ReturnedIds(attempts)
    ensures Affected(zone.id, id, false) in ContainedLocations(zone.id, zone.geometry, cands, contains)
    ensures exists a :: a in attempts && a.returned && a.request.locationId == id && a.request.recipient != ""
  {
    var a :| a in attempts && a.returned && a.request.locationId == id;
    var k :| 0 <= k < |attempts| && attempts[k] == a;
    assert a.request == Requests(attempts)[k];
    assert a.request in SmsRequests(zone, cands, contains);
    var c :| c in cands && Inside(zone.geometry, c, contains) && HasPhone(c) && a.request == RequestFor(zone, c);
  }

  // ===========================================================================
  // The association table

  function Key(r: Affected): (nat, nat) {
    (r.zoneId, r.userLocationId)
  }

  /** No two rows share a (zoneId, userLocationId) pair. */
  ghost predicate UniquePairs(rows: seq<Affected>) {
    forall i, j :: 0 <= i < j < |rows| ==> Key(rows[i]) != Key(rows[j])
  }

  ghost predicate DistinctZoneIds(zones: seq<Zone>) {
    forall i, j :: 0 <= i < j < |zones| ==> zones[i].id != zones[j].id
  }

  ghost predicate DistinctLocationIds(cands: seq<Candidate>) {
    forall i, j :: 0 <= i < j < |cands| ==> cands[i].location.id != cands[j].location.id
  }

  /** `deleteMany({ where: { userLocationId } })`: drops every row of that location and keeps the rest in order. */
  function Detach(rows: seq<Affected>, locId: nat): (r: seq<Affected>)
    ensures |r| <= |rows|
    ensures forall x :: x in r <==> x in rows && x.userLocationId != locId
  {
    if rows == [] then []
    else
      var x := rows[|rows| - 1];
      Detach(rows[..|rows| - 1], locId) + (if x.userLocationId != locId then [x] else [])
  }

  /** `updateMany` setting isNotified on the rows of `zoneId` whose location is listed in `ids`. */
  function MarkNotified(rows: seq<Affected>, zoneId: nat, ids: seq<nat>): (r: seq<Affected>)
    ensures |r| == |rows|
    ensures forall i :: 0 <= i < |rows| ==>
      && Key(r[i]) == Key(rows[i])
      && r[i].isNotified == (rows[i].isNotified || (rows[i].zoneId == zoneId && rows[i].userLocationId in ids))
  {
    if rows == [] then []
    else
      var x := rows[|rows| - 1];
      MarkNotified(rows[..|rows| - 1], zoneId, ids)
        + [if x.zoneId == zoneId && x.userLocationId in ids then x.(isNotified := true) else x]
  }

  /** The bulk update only flips flags: every row it yields has the pair of a row it was given. */
  lemma MarkNotifiedKeys(rows: seq<Affected>, zoneId: nat, ids: seq<nat>)
    ensures forall x :: x in MarkNotified(rows, zoneId, ids) ==> exists y :: y in rows && Key(y) == Key(x)
  {
    var r := MarkNotified(rows, zoneId, ids);
    forall x | x in r ensures exists y :: y in rows && Key(y) == Key(x) {
      var k :| 0 <= k < |r| && r[k] == x;
      assert rows[k] in rows;
    }
  }

  /** With no location to mark, the bulk update changes nothing (createZone skips it then). */
  lemma MarkNotifiedNone(rows: seq<Affected>, zoneId: nat)
    ensures MarkNotified(rows, zoneId, []) == rows
  {
    var r := MarkNotified(rows, zoneId, []);
    assert forall i :: 0 <= i < |rows| ==> r[i] == rows[i];
  }

  /** The table after updateLocation: that location's rows wiped, then the new matches appended. */
  function Relocated(rows: seq<Affected>, locId: nat, added: seq<Affected>): seq<Affected> {
    Detach(rows, locId) + added
  }

  lemma {:induction false} DetachAppend(a: seq<Affected>, b: seq<Affected>, locId: nat)
    ensures Detach(a + b, locId) == Detach(a, locId) + Detach(b, locId)
    decreases |b|
  {
    if b == [] {
      assert a + b == a;
    } else {
      var b' := b[..|b| - 1];
      assert (a + b)[..|a + b| - 1] == a + b';
      DetachAppend(a, b', locId);
    }
  }

  lemma {:induction false} DetachAllOf(rows: seq<Affected>, locId: nat)
    requires forall x :: x in rows ==> x.userLocationId == locId
    ensures Detach(rows, locId) == []
    decreases |rows|
  {
    if rows != [] {
      var init, last := rows[..|rows| - 1], rows[|rows| - 1];
      assert rows == init + [last];
      assert last in rows;
      assert forall x :: x in init ==> x in rows;
      DetachAllOf(init, locId);
    }
  }

  lemma {:induction false} DetachNoneOf(rows: seq<Affected>, locId: nat)
    requires forall x :: x in rows ==> x.userLocationId != locId
    ensures Detach(rows, locId) == rows
    decreases |rows|
  {
    if rows != [] {
      var init, last := rows[..|rows| - 1], rows[|rows| - 1];
      assert rows == init + [last];
      assert last in rows;
      assert forall x :: x in init ==> x in rows;
      DetachNoneOf(init, locId);
    }
  }

  /**
   * updateLocation leaves the rows of every other location exactly as they
   * were, in the same order.
   */
  lemma RelocatedFrame(rows: seq<Affected>, locId: nat, added: seq<Affected>)
    requires forall x :: x in added ==> x.userLocationId == locId
    ensures Detach(Relocated(rows, locId, added), locId) == Detach(rows, locId)
  {
    DetachAppend(Detach(rows, locId), added, locId);
    DetachNoneOf(Detach(rows, locId), locId);
    DetachAllOf(added, locId);
  }

  /** Wipe-and-recompute twice is the same as once. */
  lemma RelocatedIdempotent(rows: seq<Affected>, locId: nat, added: seq<Affected>)
    requires forall x :: x in added ==> x.userLocationId == locId
    ensures Relocated(Relocated(rows, locId, added), locId, added) == Relocated(rows, locId, added)
  {
    RelocatedFrame(rows, locId, added);
  }

  /** After updateLocation, the rows of that location are exactly the new matches; no earlier row survives. */
  lemma RelocatedRowsOfLocation(rows: seq<Affected>, locId: nat, added: seq<Affected>, x: Affected)
    requires forall y :: y in added ==> y.userLocationId == locId
    ensures x.userLocationId == locId ==> (x in Relocated(rows, locId, added) <==> x in added)
    ensures x.userLocationId != locId ==> (x in Relocated(rows, locId, added) <==> x in rows)
  {
  }

  lemma UniqueAppend(a: seq<Affected>, b: seq<Affected>)
    requires UniquePairs(a) && UniquePairs(b)
    requires forall x, y :: x in a && y in b ==> Key(x) != Key(y)
    ensures UniquePairs(a + b)
  {
    forall i, j | 0 <= i < j < |a + b|
      ensures Key((a + b)[i]) != Key((a + b)[j])
    {
      if j >= |a| && i < |a| {
        assert (a + b)[i] in a && (a + b)[j] in b;
      } else if i >= |a| {
        assert (a + b)[i] == b[i - |a|] && (a + b)[j] == b[j - |a|];
      }
    }
  }

  lemma {:induction false} DetachUnique(rows: seq<Affected>, locId: nat)
    requires UniquePairs(rows)
    ensures UniquePairs(Detach(rows, locId))
    decreases |rows|
  {
    if rows != [] {
      var init, x := rows[..|rows| - 1], rows[|rows| - 1];
      assert UniquePairs(init);
      DetachUnique(init, locId);
      forall y | y in Detach(init, locId) ensures Key(y) != Key(x) {
        var k :| 0 <= k < |init| && init[k] == y;
        assert rows[k] == y;
      }
      UniqueAppend(Detach(init, locId), if x.userLocationId != locId then [x] else []);
    }
  }

  lemma {:induction false} ActiveZonesDistinct(zones: seq<Zone>)
    requires DistinctZoneIds(zones)
    ensures DistinctZoneIds(ActiveZones(zones))
    decreases |zones|
  {
    if zones != [] {
      var init, z := zones[..|zones| - 1], zones[|zones| - 1];
      ActiveZonesDistinct(init);
      var a := ActiveZones(init);
      forall i | 0 <= i < |a| ensures a[i].id != z.id {
        assert a[i] in init;
        var k :| 0 <= k < |init| && init[k] == a[i];
        assert zones[k] == a[i];
      }
    }
  }

  /** Distinct zones give distinct rows: the matches of one location never repeat a pair. */
  lemma {:induction false} ContainingZonesUnique(zones: seq<Zone>, p: Point, locId: nat, contains: Containment)
    requires DistinctZoneIds(zones)
    ensures UniquePairs(ContainingZones(zones, p, locId, contains))
    decreases |zones|
  {
    if zones != [] {
      var init, z := zones[..|zones| - 1], zones[|zones| - 1];
      ContainingZonesUnique(init, p, locId, contains);
      var rows := ContainingZones(init, p, locId, contains);
      forall y | y in rows ensures Key(y) != Key(Affected(z.id, locId, false)) {
        var w :| w in init && w.id == y.zoneId && contains(w.geometry, p);
        var k :| 0 <= k < |init| && init[k] == w;
        assert zones[k] == w;
      }
      UniqueAppend(rows, if contains(z.geometry, p) then [Affected(z.id, locId, false)] else []);
    }
  }

  /** Distinct locations give distinct rows: a new zone gets at most one row per location. */
  lemma {:induction false} ContainedLocationsUnique(zoneId: nat, geometry: Geometry, cands: seq<Candidate>, contains: Containment)
    requires DistinctLocationIds(cands)
    ensures UniquePairs(ContainedLocations(zoneId, geometry, cands, contains))
    decreases |cands|
  {
    if cands != [] {
      var init, c := cands[..|cands| - 1], cands[|cands| - 1];
      ContainedLocationsUnique(zoneId, geometry, init, contains);
      var rows := ContainedLocations(zoneId, geometry, init, contains);
      forall y | y in rows ensures Key(y) != Key(Affected(zoneId, c.location.id, false)) {
        var w :| w in init && w.location.id == y.userLocationId && Inside(geometry, w, contains);
        var k :| 0 <= k < |init| && init[k] == w;
        assert cands[k] == w;
      }
      UniqueAppend(rows, if Inside(geometry, c, contains) then [Affected(zoneId, c.location.id, false)] else []);
    }
  }

  /** updateLocation keeps the table free of duplicate pairs. */
  lemma RelocatedUnique(rows: seq<Affected>, zones: seq<Zone>, p: Point, locId: nat, contains: Containment)
    requires UniquePairs(rows) && DistinctZoneIds(zones)
    ensures UniquePairs(Relocated(rows, locId, LocationRows(zones, p, locId, contains)))
  {
    DetachUnique(rows, locId);
    ActiveZonesDistinct(zones);
    ContainingZonesUnique(ActiveZones(zones), p, locId, contains);
    UniqueAppend(Detach(rows, locId), LocationRows(zones, p, locId, contains));
  }

  /**
   * The table after createZone for a new zone id: every earlier row is
   * untouched, the new zone's rows follow in scan order, and a new row is
   * notified exactly when its location is in `notifiedIds`.
   */
  lemma CreatedZoneRows(rows: seq<Affected>, zoneId: nat, added: seq<Affected>, notifiedIds: seq<nat>)
    requires forall x :: x in rows ==> x.zoneId != zoneId
    requires forall x :: x in added ==> x.zoneId == zoneId && !x.isNotified
    ensures var after := MarkNotified(rows + added, zoneId, notifiedIds);
      && |after| == |rows| + |added|
      && after[..|rows|] == rows
      && forall i :: 0 <= i < |added| ==>
           after[|rows| + i] == added[i].(isNotified := added[i].userLocationId in notifiedIds)
  {
    var after := MarkNotified(rows + added, zoneId, notifiedIds);
    forall i | 0 <= i < |rows| ensures after[i] == rows[i] {
      assert (rows + added)[i] == rows[i];
      assert rows[i] in rows;
    }
    forall i | 0 <= i < |added| ensures after[|rows| + i] == added[i].(isNotified := added[i].userLocationId in notifiedIds) {
      assert (rows + added)[|rows| + i] == added[i];
      assert added[i] in added;
    }
  }

  /** createZone keeps the table free of duplicate pairs. */
  lemma CreatedZoneUnique(rows: seq<Affected>, zoneId: nat, cands: seq<Candidate>, geometry: Geometry, contains: Containment, notifiedIds: seq<nat>)
    requires UniquePairs(rows) && DistinctLocationIds(cands)
    requires forall x :: x in rows ==> x.zoneId != zoneId
    ensures UniquePairs(MarkNotified(rows + ContainedLocations(zoneId, geometry, cands, contains), zoneId, notifiedIds))
  {
    var added := ContainedLocations(zoneId, geometry, cands, contains);
    ContainedLocationsUnique(zoneId, geometry, cands, contains);
    UniqueAppend(rows, added);
    var after := MarkNotified(rows + added, zoneId, notifiedIds);
    assert forall i :: 0 <= i < |after| ==> Key(after[i]) == Key((rows + added)[i]);
  }
}
