/**
 * Coordinates as the bridge carries them: `{latitude, longitude}` objects,
 * read back with `as? Double` casts.
 */
module PathJson {
  import opened Optional
  import opened Json

  /** `CLLocationCoordinate2D`, in degrees. */
  datatype LatLng = LatLng(latitude: real, longitude: real)

  /** `jsonFromCoord`: the two coordinates as numbers. */
  function JsonFromCoord(c: LatLng): (o: Object)
    ensures AsDouble(Field(o, "latitude")) == Some(c.latitude)
    ensures AsDouble(Field(o, "longitude")) == Some(c.longitude)
    ensures o.Keys == {"latitude", "longitude"}
  {
    map["latitude" := JNum(c.latitude), "longitude" := JNum(c.longitude)]
  }

  /** Both coordinates present as numbers: the entries a polyline path keeps. */
  function CoordOf(point: Object): (r: Option<LatLng>)
    ensures r.Some? <==> AsDouble(Field(point, "latitude")).Some? && AsDouble(Field(point, "longitude")).Some?
  {
    var lat := AsDouble(Field(point, "latitude"));
    var lng := AsDouble(Field(point, "longitude"));
    if lat.Some? && lng.Some? then Some(LatLng(lat.value, lng.value)) else None
  }

  /**
   * `jsonFromPath`: one object per coordinate, in order; a missing path
   * (`nil`) gives the empty list.
   */
  function JsonFromPath(path: Option<seq<LatLng>>): (r: seq<Object>)
    ensures path.None? ==> r == []
    ensures path.Some? ==> |r| == |path.value|
    ensures path.Some? ==> forall i :: 0 <= i < |r| ==> CoordOf(r[i]) == Some(path.value[i])
  {
    if path.None? then []
    else seq(|path.value|, i requires 0 <= i < |path.value| => JsonFromCoord(path.value[i]))
  }

  /** The coordinate objects written out are exactly the ones read back. */
  lemma CoordRoundTrip(c: LatLng)
    ensures CoordOf(JsonFromCoord(c)) == Some(c)
  {
  }
}
