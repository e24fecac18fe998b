/**
 * The server actions that write zones, user locations and the association
 * table, over one in-memory database. Each action is one sequential step;
 * the database's own failures are not modelled, only the ones the actions
 * meet on valid tables (an unknown enum name, a missing record, a missing
 * owner).
 */
module Actions {
  import opened Model
  import opened Matching

  // ===========================================================================
  // Lookups and the read side

  /** Where the record with this id sits in the zone table, if anywhere. */
  function ZoneIndex(zones: seq<Zone>, id: nat): (r: Option<nat>)
    ensures r.Some? ==> r.value < |zones| && zones[r.value].id == id
    ensures r.None? ==> forall z :: z in zones ==> z.id != id
  {
    if zones == [] then None
    else if zones[|zones| - 1].id == id then Some(|zones| - 1)
    else ZoneIndex(zones[..|zones| - 1], id)
  }

  /** Where the record with this id sits in the location table, if anywhere. */
  function LocationIndex(locations: seq<UserLocation>, id: nat): (r: Option<nat>)
    ensures r.Some? ==> r.value < |locations| && locations[r.value].id == id
    ensures r.None? ==> forall l :: l in locations ==> l.id != id
  {
    if locations == [] then None
    else if locations[|locations| - 1].id == id then Some(|locations| - 1)
    else LocationIndex(locations[..|locations| - 1], id)
  }

  /** `findMany({ include: { user: true } })`: every location paired with its owner's phone number. */
  function WithOwners(locations: seq<UserLocation>, users: map<nat, User>): (cands: seq<Candidate>)
    requires forall l :: l in locations ==> l.userId in users
    ensures |cands| == |locations|
    ensures forall i :: 0 <= i < |locations| ==>
      cands[i].location == locations[i] && cands[i].phoneNumber == users[locations[i].userId].phoneNumber
  {
    if locations == [] then []
    else
      var l := locations[|locations| - 1];
      WithOwners(locations[..|locations| - 1], users) + [Candidate(l, users[l.userId].phoneNumber)]
  }

  datatype AffectedWithZone = AffectedWithZone(row: Affected, zone: Zone)

  datatype LocationView = LocationView(location: UserLocation, affectedUserLocations: seq<AffectedWithZone>)

  /**
   * The associations of one location whose zone is ACTIVE, each with its
   * zone; a row whose zone is RESOLVED, or missing, is not shown.
   */
  function ActiveAssociations(rows: seq<Affected>, zones: seq<Zone>, locId: nat): (r: seq<AffectedWithZone>)
    ensures forall e :: e in r ==>
      && e.row in rows && e.row.userLocationId == locId
      && ZoneIndex(zones, e.row.zoneId).Some? && e.zone == zones[ZoneIndex(zones, e.row.zoneId).value]
      && e.zone.status == Active
    ensures forall x ::
      (x in rows && x.userLocationId == locId && ZoneIndex(zones, x.zoneId).Some?
       && zones[ZoneIndex(zones, x.zoneId).value].status == Active) ==> exists e :: e in r && e.row == x
  {
    if rows == [] then []
    else
      var x := rows[|rows| - 1];
      var rest := ActiveAssociations(rows[..|rows| - 1], zones, locId);
      var zi := ZoneIndex(zones, x.zoneId);
      if x.userLocationId == locId && zi.Some? && zones[zi.value].status == Active then
        rest + [AffectedWithZone(x, zones[zi.value])]
      else
        rest
  }

  /** `getUserLocations`: the user's locations in table order, each with its ACTIVE associations. */
  function LocationViews(locations: seq<UserLocation>, rows: seq<Affected>, zones: seq<Zone>, userId: nat): (r: seq<LocationView>)
    ensures forall v :: v in r ==>
      && v.location in locations && v.location.userId == userId
      && v.affectedUserLocations == ActiveAssociations(rows, zones, v.location.id)
    ensures forall l :: l in locations && l.userId == userId ==> exists v :: v in r && v.location == l
  {
    if locations == [] then []
    else
      var l := locations[|locations| - 1];
      LocationViews(locations[..|locations| - 1], rows, zones, userId)
        + (if l.userId == userId then [LocationView(l, ActiveAssociations(rows, zones, l.id))] else [])
  }

  // ===========================================================================
  // The database invariant, and the actions that keep it

  /**
   * What every table state reachable through the actions satisfies: ids are
   * distinct and below the autoincrement counters, every location has an
   * owner, and no two association rows share a (zoneId, userLocationId) pair.
   */
  ghost predicate Consistent(zones: seq<Zone>, users: map<nat, User>, locations: seq<UserLocation>,
                             rows: seq<Affected>, nextZoneId: nat, nextLocationId: nat)
  {
    && DistinctZoneIds(zones)
    && (forall z :: z in zones ==> z.id < nextZoneId)
    && (forall i, j :: 0 <= i < j < |locations| ==> locations[i].id != locations[j].id)
    && (forall l :: l in locations ==> l.id < nextLocationId && l.userId in users)
    && (forall r :: r in rows ==> r.zoneId < nextZoneId && r.userLocationId < nextLocationId)
    && UniquePairs(rows)
  }

  lemma OwnersDistinct(locations: seq<UserLocation>, users: map<nat, User>)
    requires forall l :: l in locations ==> l.userId in users
    requires forall i, j :: 0 <= i < j < |locations| ==> locations[i].id != locations[j].id
    ensures DistinctLocationIds(WithOwners(locations, users))
  {
    var cands := WithOwners(locations, users);
    forall i, j | 0 <= i < j < |cands| ensures cands[i].location.id != cands[j].location.id {
      assert cands[i].location == locations[i] && cands[j].location == locations[j];
    }
  }

  lemma ContainedBelow(zoneId: nat, geometry: Geometry, locations: seq<UserLocation>, users: map<nat, User>,
                       contains: Containment, nl: nat)
    requires forall l :: l in locations ==> l.id < nl && l.userId in users
    ensures forall x :: x in ContainedLocations(zoneId, geometry, WithOwners(locations, users), contains) ==>
      x.userLocationId < nl && exists l :: l in locations && l.id == x.userLocationId
  {
    var cands := WithOwners(locations, users);
    forall x | x in ContainedLocations(zoneId, geometry, cands, contains)
      ensures x.userLocationId < nl && exists l :: l in locations && l.id == x.userLocationId
    {
      var c :| c in cands && c.location.id == x.userLocationId && Inside(geometry, c, contains);
      var k :| 0 <= k < |cands| && cands[k] == c;
      assert locations[k] in locations && locations[k].id == x.userLocationId;
    }
  }

  lemma CreateZoneConsistent(zones: seq<Zone>, users: map<nat, User>, locations: seq<UserLocation>,
                             rows: seq<Affected>, nz: nat, nl: nat, zone: Zone, contains: Containment,
                             notifiedIds: seq<nat>)
    requires Consistent(zones, users, locations, rows, nz, nl) && zone.id == nz
    ensures Consistent(zones + [zone], users, locations,
                       MarkNotified(rows + ContainedLocations(nz, zone.geometry, WithOwners(locations, users), contains),
                                    nz, notifiedIds),
                       nz + 1, nl)
  {
    var cands := WithOwners(locations, users);
    var found := ContainedLocations(nz, zone.geometry, cands, contains);
    OwnersDistinct(locations, users);
    CreatedZoneUnique(rows, nz, cands, zone.geometry, contains, notifiedIds);
    ContainedBelow(nz, zone.geometry, locations, users, contains, nl);
    MarkNotifiedKeys(rows + found, nz, notifiedIds);
  }

  lemma ZoneEditConsistent(zones: seq<Zone>, users: map<nat, User>, locations: seq<UserLocation>,
                           rows: seq<Affected>, nz: nat, nl: nat, i: nat, zone: Zone)
    requires Consistent(zones, users, locations, rows, nz, nl)
    requires i < |zones| && zone.id == zones[i].id
    ensures Consistent(zones[i := zone], users, locations, rows, nz, nl)
  {
    var edited := zones[i := zone];
    forall z | z in edited ensures z.id < nz {
      var k :| 0 <= k < |edited| && edited[k] == z;
      assert zones[k] in zones;
    }
  }

  lemma CreateLocationConsistent(zones: seq<Zone>, users: map<nat, User>, locations: seq<UserLocation>,
                                 rows: seq<Affected>, nz: nat, nl: nat, loc: UserLocation, contains: Containment)
    requires Consistent(zones, users, locations, rows, nz, nl)
    requires loc.id == nl && loc.userId in users
    ensures Consistent(zones, users, locations + [loc], rows + LocationRows(zones, PointOf(loc), nl, contains), nz, nl + 1)
  {
    var active := ActiveZones(zones);
    var found := LocationRows(zones, PointOf(loc), nl, contains);
    forall x | x in found ensures x.zoneId < nz && x.userLocationId == nl {
      var z :| z in active && z.id == x.zoneId && contains(z.geometry, PointOf(loc));
    }
    ActiveZonesDistinct(zones);
    ContainingZonesUnique(active, PointOf(loc), nl, contains);
    UniqueAppend(rows, found);
  }

  lemma UpdateLocationConsistent(zones: seq<Zone>, users: map<nat, User>, locations: seq<UserLocation>,
                                 rows: seq<Affected>, nz: nat, nl: nat, i: nat, loc: UserLocation, contains: Containment)
    requires Consistent(zones, users, locations, rows, nz, nl)
    requires i < |locations| && loc.id == locations[i].id && loc.userId == locations[i].userId
    ensures Consistent(zones, users, locations[i := loc],
                       Relocated(rows, loc.id, LocationRows(zones, PointOf(loc), loc.id, contains)), nz, nl)
  {
    var edited := locations[i := loc];
    forall l | l in edited ensures l.id < nl && l.userId in users {
      var k :| 0 <= k < |edited| && edited[k] == l;
      assert locations[k] in locations;
    }
    var active := ActiveZones(zones);
    forall x | x in LocationRows(zones, PointOf(loc), loc.id, contains) ensures x.zoneId < nz {
      var z :| z in active && z.id == x.zoneId && contains(z.geometry, PointOf(loc));
    }
    assert locations[i] in locations;
    RelocatedUnique(rows, zones, PointOf(loc), loc.id, contains);
  }

  /**
   * createZone after the zone is stored: scan the locations, text the reachable
   * owners, then insert the rows (when there are any) and mark notified those
   * whose SMS call returned (when there are any).
   */
  method NotifyZone(zone: Zone, rows: seq<Affected>, userLocations: seq<Candidate>, contains: Containment)
    returns (newRows: seq<Affected>, sent: seq<SmsAttempt>)
    ensures Requests(sent) == SmsRequests(zone, userLocations, contains)
    ensures newRows == MarkNotified(rows + ContainedLocations(zone.id, zone.geometry, userLocations, contains),
                                    zone.id, ReturnedIds(sent))
  {
    var found, notifiedIds, attempts := ScanForZone(zone, userLocations, contains);
    newRows := rows;
    if |found| > 0 {
      newRows := newRows + found;
    } else {
      assert newRows == rows + found;
    }
    if |notifiedIds| > 0 {
      newRows := MarkNotified(newRows, zone.id, notifiedIds);
    } else {
      MarkNotifiedNone(newRows, zone.id);
    }
    sent := attempts;
  }

  /**
   * createLocation after the location is stored: match it against the ACTIVE
   * zones and insert the rows found, when there are any.
   */
  method MatchRows(rows: seq<Affected>, zones: seq<Zone>, location: UserLocation, contains: Containment)
    returns (newRows: seq<Affected>)
    ensures newRows == rows + LocationRows(zones, PointOf(location), location.id, contains)
  {
    var activeZones := ActiveZones(zones);
    var affectedZones := MatchZones(activeZones, PointOf(location), location.id, contains);
    newRows := rows;
    if |affectedZones| > 0 {
      newRows := newRows + affectedZones;
    } else {
      assert newRows == rows + affectedZones;
    }
  }

  /**
   * updateLocation after the fields are written: delete every row of the
   * location, whatever its zone, then insert the rows of the ACTIVE zones
   * containing the new position, when there are any.
   */
  method RematchRows(rows: seq<Affected>, zones: seq<Zone>, location: UserLocation, contains: Containment)
    returns (newRows: seq<Affected>)
    ensures newRows == Relocated(rows, location.id, LocationRows(zones, PointOf(location), location.id, contains))
  {
    newRows := Detach(rows, location.id);
    var activeZones := ActiveZones(zones);
    var affectedZones := MatchZones(activeZones, PointOf(location), location.id, contains);
    if |affectedZones| > 0 {
      newRows := newRows + affectedZones;
    } else {
      assert newRows == Detach(rows, location.id) + affectedZones;
    }
  }

  class Database {
    /** The point-in-polygon test the actions use. */
    const contains: Containment
    var zones: seq<Zone>
    var users: map<nat, User>
    var locations: seq<UserLocation>
    var affected: seq<Affected>
    /** The next autoincrement ids; ids are never reused. */
    var nextZoneId: nat
    var nextLocationId: nat

    ghost predicate Valid()
      reads this
    {
      Consistent(zones, users, locations, affected, nextZoneId, nextLocationId)
    }

    constructor (contains: Containment, users: map<nat, User>)
      ensures Valid()
      ensures this.contains == contains && this.users == users
      ensures zones == [] && locations == [] && affected == []
    {
      this.contains := contains;
      this.users := users;
      zones, locations, affected := [], [], [];
      nextZoneId, nextLocationId := 0, 0;
    }

    /**
     * createZone: store the zone, scan every location against its geometry
     * (whatever its status), text the reachable owners, insert one row per
     * contained location and mark notified the rows whose SMS call returned.
     */
    method CreateZone(name: string, description: string, status: string, geometry: Geometry,
                      disasterType: string, dangerLevel: string)
      returns (result: Result<Zone>, sent: seq<SmsAttempt>)
      requires Valid()
      modifies this
      ensures Valid()
      ensures users == old(users) && locations == old(locations) && nextLocationId == old(nextLocationId)
      ensures result.Err? <==>
        ParseStatus(status).None? || ParseDisasterType(disasterType).None? || ParseDangerLevel(dangerLevel).None?
      ensures result.Err? ==>
        && result.error == FailedToCreateZone && sent == []
        && zones == old(zones) && affected == old(affected) && nextZoneId == old(nextZoneId)
      ensures result.Ok? ==>
        var zone := result.value;
        var userLocations := WithOwners(old(locations), old(users));
        && zone == Zone(old(nextZoneId), name, description, ParseStatus(status).value, geometry,
                        ParseDisasterType(disasterType).value, ParseDangerLevel(dangerLevel).value)
        && zones == old(zones) + [zone] && nextZoneId == old(nextZoneId) + 1
        && Requests(sent) == SmsRequests(zone, userLocations, contains)
        && affected == MarkNotified(old(affected) + ContainedLocations(zone.id, geometry, userLocations, contains),
                                    zone.id, ReturnedIds(sent))
    {
      var st, dt, dl := ParseStatus(status), ParseDisasterType(disasterType), ParseDangerLevel(dangerLevel);
      if st.None? || dt.None? || dl.None? {
        return Err(FailedToCreateZone), [];
      }
      var zone := Zone(nextZoneId, name, description, st.value, geometry, dt.value, dl.value);
      sent := StoreZoneAndNotify(zone);
      result := Ok(zone);
    }

    /** The body of createZone once the zone record is built: insert it, scan, notify, persist. */
    method StoreZoneAndNotify(zone: Zone) returns (sent: seq<SmsAttempt>)
      requires Valid() && zone.id == nextZoneId
      modifies this
      ensures Valid()
      ensures users == old(users) && locations == old(locations) && nextLocationId == old(nextLocationId)
      ensures zones == old(zones) + [zone] && nextZoneId == old(nextZoneId) + 1
      ensures Requests(sent) == SmsRequests(zone, WithOwners(locations, users), contains)
      ensures affected == MarkNotified(old(affected) + ContainedLocations(zone.id, zone.geometry, WithOwners(locations, users), contains),
                                       zone.id, ReturnedIds(sent))
    {
      var userLocations := WithOwners(locations, users);
      var rows;
      rows, sent := NotifyZone(zone, affected, userLocations, contains);
      CreateZoneConsistent(zones, users, locations, affected, zone.id, nextLocationId, zone, contains, ReturnedIds(sent));
      zones, nextZoneId, affected := zones + [zone], nextZoneId + 1, rows;
    }

    /** updateZone: only the zone's name and description change. */
    method UpdateZone(zoneId: nat, name: string, description: string) returns (result: Result<Zone>)
      requires Valid()
      modifies this
      ensures Valid()
      ensures affected == old(affected) && locations == old(locations) && users == old(users)
      ensures nextZoneId == old(nextZoneId) && nextLocationId == old(nextLocationId)
      ensures ZoneIndex(old(zones), zoneId).None? ==> result == Err(FailedToUpdateZone) && zones == old(zones)
      ensures ZoneIndex(old(zones), zoneId).Some? ==>
        var i := ZoneIndex(old(zones), zoneId).value;
        && result == Ok(old(zones)[i].(name := name, description := description))
        && zones == old(zones)[i := result.value]
    {
      var zi := ZoneIndex(zones, zoneId);
      if zi.None? {
        return Err(FailedToUpdateZone);
      }
      var updated := zones[zi.value].(name := name, description := description);
      ZoneEditConsistent(zones, users, locations, affected, nextZoneId, nextLocationId, zi.value, updated);
      zones := zones[zi.value := updated];
      result := Ok(updated);
    }

    /** changeZoneStatus: only the zone's status changes; no row is added, removed or re-matched. */
    method ChangeZoneStatus(zoneId: nat, newStatus: string) returns (result: Result<Zone>)
      requires Valid()
      modifies this
      ensures Valid()
      ensures affected == old(affected) && locations == old(locations) && users == old(users)
      ensures nextZoneId == old(nextZoneId) && nextLocationId == old(nextLocationId)
      ensures ZoneIndex(old(zones), zoneId).None? || ParseStatus(newStatus).None? ==>
        result == Err(FailedToChangeZoneStatus) && zones == old(zones)
      ensures ZoneIndex(old(zones), zoneId).Some? && ParseStatus(newStatus).Some? ==>
        var i := ZoneIndex(old(zones), zoneId).value;
        && result == Ok(old(zones)[i].(status := ParseStatus(newStatus).value))
        && zones == old(zones)[i := result.value]
    {
      var zi, st := ZoneIndex(zones, zoneId), ParseStatus(newStatus);
      if zi.None? || st.None? {
        return Err(FailedToChangeZoneStatus);
      }
      var updated := zones[zi.value].(status := st.value);
      ZoneEditConsistent(zones, users, locations, affected, nextZoneId, nextLocationId, zi.value, updated);
      zones := zones[zi.value := updated];
      result := Ok(updated);
    }

    /**
     * createLocation: store the location, then insert one row, not notified,
     * per ACTIVE zone containing it. No SMS is sent.
     */
    method CreateLocation(name: string, description: string, latitude: real, longitude: real, userId: nat)
      returns (result: Result<UserLocation>)
      requires Valid()
      modifies this
      ensures Valid()
      ensures zones == old(zones) && users == old(users) && nextZoneId == old(nextZoneId)
      ensures userId !in old(users) ==>
        && result == Err(FailedToCreateLocation)
        && locations == old(locations) && affected == old(affected) && nextLocationId == old(nextLocationId)
      ensures userId in old(users) ==>
        var loc := UserLocation(old(nextLocationId), userId, name, description, latitude, longitude);
        && result == Ok(loc)
        && locations == old(locations) + [loc] && nextLocationId == old(nextLocationId) + 1
        && affected == old(affected) + LocationRows(zones, PointOf(loc), loc.id, contains)
    {
      if userId !in users {
        return Err(FailedToCreateLocation);
      }
      var location := UserLocation(nextLocationId, userId, name, description, latitude, longitude);
      CreateLocationConsistent(zones, users, locations, affected, nextZoneId, nextLocationId, location, contains);
      var rows := MatchRows(affected, zones, location, contains);
      locations, nextLocationId, affected := locations + [location], nextLocationId + 1, rows;
      result := Ok(location);
    }

    /**
     * updateLocation: overwrite the location's fields, delete every row of
     * that location unconditionally, then insert the rows of the ACTIVE
     * zones containing its new position.
     */
    method UpdateLocation(id: nat, name: string, description: string, latitude: real, longitude: real)
      returns (result: Result<UserLocation>)
      requires Valid()
      modifies this
      ensures Valid()
      ensures zones == old(zones) && users == old(users)
      ensures nextZoneId == old(nextZoneId) && nextLocationId == old(nextLocationId)
      ensures LocationIndex(old(locations), id).None? ==>
        result == Err(FailedToUpdateLocation) && locations == old(locations) && affected == old(affected)
      ensures LocationIndex(old(locations), id).Some? ==>
        var i := LocationIndex(old(locations), id).value;
        var loc := old(locations)[i].(name := name, description := description,
                                      latitude := latitude, longitude := longitude);
        && result == Ok(loc)
        && locations == old(locations)[i := loc]
        && affected == Relocated(old(affected), id, LocationRows(zones, PointOf(loc), id, contains))
    {
      var li := LocationIndex(locations, id);
      if li.None? {
        return Err(FailedToUpdateLocation);
      }
      var location := locations[li.value].(name := name, description := description,
                                           latitude := latitude, longitude := longitude);
      UpdateLocationConsistent(zones, users, locations, affected, nextZoneId, nextLocationId, li.value, location, contains);
      var rows := RematchRows(affected, zones, location, contains);
      locations, affected := locations[li.value := location], rows;
      result := Ok(location);
    }

    /** getUserLocations: the user's locations, each shown only with associations to ACTIVE zones. */
    function GetUserLocations(userId: nat): (r: seq<LocationView>)
      reads this
      ensures forall v :: v in r ==> v.location in locations && v.location.userId == userId
      ensures forall l :: l in locations && l.userId == userId ==> exists v :: v in r && v.location == l
      ensures forall v, e :: v in r && e in v.affectedUserLocations ==>
        && e.row in affected && e.row.userLocationId == v.location.id
        && e.zone in zones && e.zone.id == e.row.zoneId && e.zone.status == Active
    {
      LocationViews(locations, affected, zones, userId)
    }
  }

  /**
   * Two identical updateLocation calls in a row, with the zone table left
   * alone in between, leave the same association table as one.
   */
  method UpdateLocationTwice(db: Database, id: nat, name: string, description: string, latitude: real, longitude: real)
    returns (once: seq<Affected>, twice: seq<Affected>)
    requires db.Valid()
    modifies db
    ensures db.Valid()
    ensures once == twice && db.affected == twice
  {
    ghost var locs0 := db.locations;
    var r1 := db.UpdateLocation(id, name, description, latitude, longitude);
    once := db.affected;
    ghost var locs1 := db.locations;
    var r2 := db.UpdateLocation(id, name, description, latitude, longitude);
    twice := db.affected;
    if r1.Ok? {
      var i := LocationIndex(locs0, id).value;
      assert locs1[i].id == id;
      assert LocationIndex(locs1, id) == Some(i);
      RelocatedIdempotent(old(db.affected), id, LocationRows(db.zones, PointOf(r1.value), id, db.contains));
    }
  }
}
