/**
 * `CustomDirection`: the direction record built from the web layer's JSON,
 * and its path conversions. Unlike a polyline's, a direction's path keeps
 * every entry, reading a missing coordinate as 0.
 */
module CustomDirection {
  import opened Optional
  import opened Json
  import opened PathJson

  datatype Direction = Direction(
    mapId: string,
    directionId: string,
    origin: LatLng,
    destination: LatLng,
    waypoints: seq<string>,
    travelMode: string,
    alternatives: bool,
    avoid: string,
    units: string,
    region: string,
    language: string,
    departureTime: string,
    arrivalTime: string,
    optimizeWaypoints: bool)

  /** `preferences[key]?["latitude"] as? Double ?? 0`, and the same for longitude. */
  function PointOrZero(prefs: Object, key: string): (c: LatLng)
    ensures var o := AsObject(Field(prefs, key));
      && (o.None? ==> c == LatLng(0.0, 0.0))
      && (o.Some? ==> c.latitude == AsDouble(Field(o.value, "latitude")).GetOr(0.0)
                      && c.longitude == AsDouble(Field(o.value, "longitude")).GetOr(0.0))
  {
    var o := AsObject(Field(prefs, key)).GetOr(map[]);
    LatLng(AsDouble(Field(o, "latitude")).GetOr(0.0), AsDouble(Field(o, "longitude")).GetOr(0.0))
  }

  /**
   * `updateFromJSObject`: `None` is the trap of the forced cast when
   * `preferences` is not an object; otherwise every field is read with its
   * default.
   */
  function Update(data: Object): (r: Option<Direction>)
    ensures r.Some? <==> AsObject(Field(data, "preferences")).Some?
    ensures r.Some? ==> var prefs := AsObject(Field(data, "preferences")).value;
      && r.value.mapId == AsString(Field(data, "mapId")).GetOr("")
      && r.value.directionId == AsString(Field(data, "directionId")).GetOr("")
      && r.value.origin == PointOrZero(prefs, "origin")
      && r.value.destination == PointOrZero(prefs, "destination")
      && r.value.waypoints == AsStringArray(Field(prefs, "waypoints")).GetOr([])
      && r.value.travelMode == AsString(Field(prefs, "travelMode")).GetOr("DRIVING")
      && r.value.alternatives == AsBool(Field(prefs, "alternatives")).GetOr(false)
      && r.value.avoid == AsString(Field(prefs, "avoid")).GetOr("")
      && r.value.units == AsString(Field(prefs, "units")).GetOr("METRIC")
      && r.value.region == AsString(Field(prefs, "region")).GetOr("")
      && r.value.language == AsString(Field(prefs, "language")).GetOr("")
      && r.value.departureTime == AsString(Field(prefs, "departureTime")).GetOr("")
      && r.value.arrivalTime == AsString(Field(prefs, "arrivalTime")).GetOr("")
      && r.value.optimizeWaypoints == AsBool(Field(prefs, "optimizeWaypoints")).GetOr(false)
  {
    match AsObject(Field(data, "preferences"))
    case None => None
    case Some(prefs) =>
      Some(Direction(
        AsString(Field(data, "mapId")).GetOr(""),
        AsString(Field(data, "directionId")).GetOr(""),
        PointOrZero(prefs, "origin"),
        PointOrZero(prefs, "destination"),
        AsStringArray(Field(prefs, "waypoints")).GetOr([]),
        AsString(Field(prefs, "travelMode")).GetOr("DRIVING"),
        AsBool(Field(prefs, "alternatives")).GetOr(false),
        AsString(Field(prefs, "avoid")).GetOr(""),
        AsString(Field(prefs, "units")).GetOr("METRIC"),
        AsString(Field(prefs, "region")).GetOr(""),
        AsString(Field(prefs, "language")).GetOr(""),
        AsString(Field(prefs, "departureTime")).GetOr(""),
        AsString(Field(prefs, "arrivalTime")).GetOr(""),
        AsBool(Field(prefs, "optimizeWaypoints")).GetOr(false)))
  }

  /**
   * With an empty preferences object every field takes its default:
   * driving, metric units, no alternatives, no waypoint optimisation, both
   * ends at (0, 0) and empty text elsewhere.
   */
  lemma UpdateDefaults(data: Object)
    requires AsObject(Field(data, "preferences")) == Some(map[])
    requires "mapId" !in data && "directionId" !in data
    ensures Update(data) == Some(Direction("", "", LatLng(0.0, 0.0), LatLng(0.0, 0.0), [], "DRIVING",
                                           false, "", "METRIC", "", "", "", "", false))
  {
  }

  /** `pathFromJson`: one coordinate per entry, a missing or non-number coordinate read as 0. */
  function PathFromJson(points: seq<Object>): (path: seq<LatLng>)
    ensures |path| == |points|
    ensures forall i :: 0 <= i < |points| ==>
      path[i] == LatLng(AsDouble(Field(points[i], "latitude")).GetOr(0.0),
                        AsDouble(Field(points[i], "longitude")).GetOr(0.0))
  {
    seq(|points|, i requires 0 <= i < |points| =>
      LatLng(AsDouble(Field(points[i], "latitude")).GetOr(0.0), AsDouble(Field(points[i], "longitude")).GetOr(0.0)))
  }

  /** Reading back the JSON of a path gives the path. */
  lemma PathJsonRoundTrip(path: seq<LatLng>)
    ensures PathFromJson(JsonFromPath(Some(path))) == path
  {
    var back := PathFromJson(JsonFromPath(Some(path)));
    forall i | 0 <= i < |path|
      ensures back[i] == path[i]
    {
      CoordRoundTrip(path[i]);
    }
  }

  /** On entries that hold both numbers, the direction reading agrees with the polyline reading. */
  lemma AgreesOnWellFormedEntries(points: seq<Object>, i: int)
    requires 0 <= i < |points| && CoordOf(points[i]).Some?
    ensures Some(PathFromJson(points)[i]) == CoordOf(points[i])
  {
  }
}
