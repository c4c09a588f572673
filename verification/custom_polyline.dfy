/**
 * `CustomPolyline`: building a polyline from the JSON the web layer sends,
 * and the JSON result sent back.
 */
module CustomPolyline {
  import opened Optional
  import opened Json
  import opened PathJson

  /**
   * `pathFromJson`: the entries whose latitude and longitude are both
   * numbers, in order; every other entry is skipped.
   */
  function PathFromJson(points: seq<Object>): (path: seq<LatLng>)
    ensures |path| == |WellFormed(points)| <= |points|
    ensures forall i :: 0 <= i < |path| ==> Some(path[i]) == CoordOf(WellFormed(points)[i])
  {
    if points == [] then []
    else
      var c := CoordOf(points[0]);
      (if c.Some? then [c.value] else []) + PathFromJson(points[1..])
  }

  /** The entries `PathFromJson` keeps. */
  function WellFormed(points: seq<Object>): (kept: seq<Object>)
    ensures |kept| <= |points|
    ensures forall i :: 0 <= i < |kept| ==> CoordOf(kept[i]).Some? && kept[i] in points
    ensures forall i :: 0 <= i < |points| && CoordOf(points[i]).Some? ==> points[i] in kept
    ensures (forall i :: 0 <= i < |points| ==> CoordOf(points[i]).Some?) ==> kept == points
  {
    if points == [] then []
    else (if CoordOf(points[0]).Some? then [points[0]] else []) + WellFormed(points[1..])
  }

  /** A single entry is kept exactly when its coordinates are numbers. */
  lemma WellFormedSingle(p: Object)
    ensures WellFormed([p]) == if CoordOf(p).Some? then [p] else []
  {
    assert [p][1..] == [];
  }

  /** Filtering distributes over concatenation, so the kept entries keep their order and multiplicity. */
  lemma {:induction false} WellFormedAppend(a: seq<Object>, b: seq<Object>)
    ensures WellFormed(a + b) == WellFormed(a) + WellFormed(b)
    decreases |a|
  {
    if a != [] {
      assert (a + b)[0] == a[0];
      assert (a + b)[1..] == a[1..] + b;
      WellFormedAppend(a[1..], b);
    } else {
      assert a + b == b;
    }
  }

  /** Reading a path back from its own JSON gives the path. */
  lemma {:induction false} PathJsonRoundTrip(path: seq<LatLng>)
    ensures PathFromJson(JsonFromPath(Some(path))) == path
    decreases |path|
  {
    if path != [] {
      var js := JsonFromPath(Some(path));
      CoordRoundTrip(path[0]);
      assert js[1..] == JsonFromPath(Some(path[1..]));
      PathJsonRoundTrip(path[1..]);
    }
  }

  /**
   * Writing a read path back out gives one object per well-formed entry, in
   * order, each holding that entry's coordinates (and nothing else).
   */
  lemma JsonPathRoundTrip(points: seq<Object>)
    ensures var out := JsonFromPath(Some(PathFromJson(points)));
      var kept := WellFormed(points);
      |out| == |kept| && forall i :: 0 <= i < |out| ==> out[i] == JsonFromCoord(CoordOf(kept[i]).value)
  {
    var path := PathFromJson(points);
    var out := JsonFromPath(Some(path));
    forall i | 0 <= i < |out|
      ensures out[i] == JsonFromCoord(CoordOf(WellFormed(points)[i]).value)
    {
      assert Some(path[i]) == CoordOf(WellFormed(points)[i]);
    }
  }

  /**
   * The stroke colour: the SDK default until a colour string is given, then
   * `UIColor.capacitor.color(fromHex:) ?? .black` of that string (the hex
   * parser belongs to Capacitor and is not modelled).
   */
  datatype StrokeColour = DefaultStroke | HexOrBlack(text: string)

  datatype Polyline = Polyline(
    id: string,
    path: Option<seq<LatLng>>,
    strokeWidth: real,
    strokeColour: StrokeColour,
    title: Option<string>,
    zIndex: int,
    geodesic: bool,
    tappable: bool,
    userData: Object)

  const Int32Min := -0x8000_0000
  const Int32Max := 0x7FFF_FFFF

  function Preferences(data: Object): Object {
    AsObject(Field(data, "preferences")).GetOr(map[])
  }

  /** `Int32.init(_:)` traps outside the 32-bit range. */
  predicate ZIndexFits(data: Object) {
    var z := AsInt(Field(Preferences(data), "zIndex"));
    z.None? || Int32Min <= z.value <= Int32Max
  }

  /**
   * `updateFromJSObject`: every property is overwritten, with its default
   * when the key is missing or of the wrong type, except the colour, which
   * only a string changes; the id is kept and echoed in `userData`.
   */
  function Update(p: Polyline, data: Object): (r: Polyline)
    requires ZIndexFits(data)
    ensures r.id == p.id
    ensures r.path == Some(PathFromJson(AsObjectArray(Field(data, "path")).GetOr([])))
    ensures AsObjectArray(Field(data, "path")).None? ==> r.path == Some([])
    ensures r.strokeWidth == AsDouble(Field(Preferences(data), "width")).GetOr(10.0)
    ensures var c := AsString(Field(Preferences(data), "color"));
      r.strokeColour == (if c.Some? then HexOrBlack(c.value) else p.strokeColour)
    ensures r.title == Some(AsString(Field(Preferences(data), "title")).GetOr(""))
    ensures r.zIndex == AsInt(Field(Preferences(data), "zIndex")).GetOr(1)
    ensures Int32Min <= r.zIndex <= Int32Max
    ensures r.geodesic == AsBool(Field(Preferences(data), "isGeodesic")).GetOr(false)
    ensures r.tappable == AsBool(Field(Preferences(data), "isClickable")).GetOr(false)
    ensures r.userData == map["polylineId" := JString(p.id),
                              "metadata" := JObject(AsObject(Field(Preferences(data), "metadata")).GetOr(map[]))]
  {
    var prefs := Preferences(data);
    var colour := AsString(Field(prefs, "color"));
    Polyline(
      p.id,
      Some(PathFromJson(AsObjectArray(Field(data, "path")).GetOr([]))),
      AsDouble(Field(prefs, "width")).GetOr(10.0),
      if colour.Some? then HexOrBlack(colour.value) else p.strokeColour,
      Some(AsString(Field(prefs, "title")).GetOr("")),
      AsInt(Field(prefs, "zIndex")).GetOr(1),
      AsBool(Field(prefs, "isGeodesic")).GetOr(false),
      AsBool(Field(prefs, "isClickable")).GetOr(false),
      map["polylineId" := JString(p.id), "metadata" := JObject(AsObject(Field(prefs, "metadata")).GetOr(map[]))])
  }

  /** `getResultForPolyline`, without the colour (its hex rendering is floating point). */
  datatype PolylineResult = PolylineResult(
    mapId: string,
    polylineId: string,
    path: seq<Object>,
    title: string,
    width: real,
    zIndex: int,
    isGeodesic: bool,
    isClickable: bool,
    metadata: Json)

  function GetResult(p: Polyline, mapId: string): (r: PolylineResult)
    ensures r.mapId == mapId
    ensures r.polylineId == AsString(Field(p.userData, "polylineId")).GetOr("")
    ensures r.path == JsonFromPath(p.path)
    ensures r.metadata == (if "metadata" in p.userData then p.userData["metadata"] else JObject(map[]))
  {
    PolylineResult(
      mapId,
      AsString(Field(p.userData, "polylineId")).GetOr(""),
      JsonFromPath(p.path),
      p.title.GetOr(""),
      p.strokeWidth,
      p.zIndex,
      p.geodesic,
      p.tappable,
      if "metadata" in p.userData then p.userData["metadata"] else JObject(map[]))
  }

  /**
   * The result of an updated polyline echoes the map id asked for and the
   * polyline's own id, carries the metadata sent, and its path is the
   * well-formed entries of the path sent.
   */
  lemma ResultEchoesUpdate(p: Polyline, data: Object, mapId: string)
    requires ZIndexFits(data)
    ensures var r := GetResult(Update(p, data), mapId);
      && r.mapId == mapId
      && r.polylineId == p.id
      && r.metadata == JObject(AsObject(Field(Preferences(data), "metadata")).GetOr(map[]))
      && r.path == JsonFromPath(Some(PathFromJson(AsObjectArray(Field(data, "path")).GetOr([]))))
      && r.title == AsString(Field(Preferences(data), "title")).GetOr("")
  {
  }
}
