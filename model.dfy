/**
 * The entities of the hazard-zone application: zones, user locations, users
 * and the affected-location association records, together with the enum
 * names the database stores and the text of the zone alert SMS.
 */
module Model {

  datatype Option<T> = None | Some(value: T)

  /** The generic error each server action rethrows when anything inside it fails. */
  datatype Failure =
    | FailedToCreateZone
    | FailedToUpdateZone
    | FailedToChangeZoneStatus
    | FailedToCreateLocation
    | FailedToUpdateLocation

  datatype Result<T> = Ok(value: T) | Err(error: Failure)

  datatype ZoneStatus = Active | Resolved
  datatype DisasterType = Flood | Fire | Earthquake | Landslide | Typhoon
  datatype DangerLevel = Low | Medium | High

  /** A zone's GeoJSON geometry, kept opaque as its JSON text: only the containment test looks inside it. */
  datatype Geometry = Geometry(geoJson: string)

  /** A GeoJSON point; its coordinates are a position, longitude first. */
  datatype Point = Point(coordinates: seq<real>)

  /** The point-in-polygon test of the geometry library, taken as given. */
  type Containment = (Geometry, Point) -> bool

  datatype Zone = Zone(
    id: nat,
    name: string,
    description: string,
    status: ZoneStatus,
    geometry: Geometry,
    disasterType: DisasterType,
    dangerLevel: DangerLevel)

  /** A user as the actions see one: keyed by id in the user table, only the phone number is read. */
  datatype User = User(phoneNumber: Option<string>)

  datatype UserLocation = UserLocation(
    id: nat,
    userId: nat,
    name: string,
    description: string,
    latitude: real,
    longitude: real)

  /** One row of the association table: location `userLocationId` lies in zone `zoneId`. */
  datatype Affected = Affected(zoneId: nat, userLocationId: nat, isNotified: bool)

  // ---------------------------------------------------------------------------
  // Enum names as the database spells them

  function StatusName(s: ZoneStatus): string {
    match s
    case Active => "ACTIVE"
    case Resolved => "RESOLVED"
  }

  function DisasterTypeName(t: DisasterType): string {
    match t
    case Flood => "FLOOD"
    case Fire => "FIRE"
    case Earthquake => "EARTHQUAKE"
    case Landslide => "LANDSLIDE"
    case Typhoon => "TYPHOON"
  }

  function DangerLevelName(l: DangerLevel): string {
    match l
    case Low => "LOW"
    case Medium => "MEDIUM"
    case High => "HIGH"
  }

  /** A form value cast to ZoneStatus: accepted only when it is one of the enum's names. */
  function ParseStatus(text: string): (r: Option<ZoneStatus>)
    ensures r.Some? ==> StatusName(r.value) == text
    ensures forall s :: StatusName(s) == text ==> r == Some(s)
  {
    if text == "ACTIVE" then Some(Active)
    else if text == "RESOLVED" then Some(Resolved)
    else None
  }

  function ParseDisasterType(text: string): (r: Option<DisasterType>)
    ensures r.Some? ==> DisasterTypeName(r.value) == text
    ensures forall t :: DisasterTypeName(t) == text ==> r == Some(t)
  {
    if text == "FLOOD" then Some(Flood)
    else if text == "FIRE" then Some(Fire)
    else if text == "EARTHQUAKE" then Some(Earthquake)
    else if text == "LANDSLIDE" then Some(Landslide)
    else if text == "TYPHOON" then Some(Typhoon)
    else None
  }

  function ParseDangerLevel(text: string): (r: Option<DangerLevel>)
    ensures r.Some? ==> DangerLevelName(r.value) == text
    ensures forall l :: DangerLevelName(l) == text ==> r == Some(l)
  {
    if text == "LOW" then Some(Low)
    else if text == "MEDIUM" then Some(Medium)
    else if text == "HIGH" then Some(High)
    else None
  }

  // ---------------------------------------------------------------------------
  // The alert text

  function LowerChar(c: char): char {
    if 'A' <= c <= 'Z' then (c as int - 'A' as int + 'a' as int) as char else c
  }

  /** toLowerCase, on the ASCII letters that enum names are made of. */
  function LowerCase(s: string): (r: string)
    ensures |r| == |s|
    ensures forall i :: 0 <= i < |s| ==> r[i] == LowerChar(s[i])
  {
    if s == [] then [] else [LowerChar(s[0])] + LowerCase(s[1..])
  }

  function DangerWord(l: DangerLevel): string {
    LowerCase(DangerLevelName(l))
  }

  function DisasterWord(t: DisasterType): string {
    LowerCase(DisasterTypeName(t))
  }

  const MessageTail := ". Stay cautious and follow local news."

  /** What follows the location's name in the alert: the risk, the hazard and the advice. */
  function AlertTail(level: DangerLevel, kind: DisasterType): string {
    " is a " + DangerWord(level) + " risk area for " + DisasterWord(kind) + MessageTail
  }

  /** The SMS sent to the owner of a location found inside a newly created zone. */
  function SmsMessage(locationName: string, level: DangerLevel, kind: DisasterType): string {
    "Update: " + locationName + AlertTail(level, kind)
  }

  lemma MiddleDetermined(prefix: string, x: string, y: string, suffix: string)
    requires prefix + x + suffix == prefix + y + suffix
    ensures x == y
  {
    var m := prefix + x + suffix;
    assert |x| == |y|;
    assert x == m[|prefix|..|prefix| + |x|];
    assert y == (prefix + y + suffix)[|prefix|..|prefix| + |y|];
  }

  /** For one danger level and disaster type, different location names give different alerts. */
  lemma SmsMessageNamesLocation(name1: string, name2: string, level: DangerLevel, kind: DisasterType)
    requires SmsMessage(name1, level, kind) == SmsMessage(name2, level, kind)
    ensures name1 == name2
  {
    MiddleDetermined("Update: ", name1, name2, AlertTail(level, kind));
  }
}
