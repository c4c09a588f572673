/**
 * Types shared by the Directions and Places clients: the status codes of
 * Google's web services, and places as the request parameters spell them.
 */
module SharedTypes {
  import opened Optional
  import opened Text

  /** The `status` field of a Directions or Places response. */
  datatype StatusCode =
    | Ok
    | NotFound
    | ZeroResults
    | MaxWaypointsExceeded
    | InvalidRequest
    | OverQueryLimit
    | RequestDenied
    | UnknownError

  function StatusRawValue(c: StatusCode): string {
    match c
    case Ok => "OK"
    case NotFound => "NOT_FOUND"
    case ZeroResults => "ZERO_RESULTS"
    case MaxWaypointsExceeded => "MAX_WAYPOINTS_EXCEEDED"
    case InvalidRequest => "INVALID_REQUEST"
    case OverQueryLimit => "OVER_QUERY_LIMIT"
    case RequestDenied => "REQUEST_DENIED"
    case UnknownError => "UNKNOWN_ERROR"
  }

  /**
   * `StatusCode(rawValue:)`: the case with that raw value, if any. Raw
   * values are pairwise distinct, so it is exactly the inverse of
   * `StatusRawValue`.
   */
  function StatusFromRawValue(s: string): (r: Option<StatusCode>)
    ensures forall c :: r == Some(c) <==> StatusRawValue(c) == s
  {
    if s == "OK" then Some(Ok)
    else if s == "NOT_FOUND" then Some(NotFound)
    else if s == "ZERO_RESULTS" then Some(ZeroResults)
    else if s == "MAX_WAYPOINTS_EXCEEDED" then Some(MaxWaypointsExceeded)
    else if s == "INVALID_REQUEST" then Some(InvalidRequest)
    else if s == "OVER_QUERY_LIMIT" then Some(OverQueryLimit)
    else if s == "REQUEST_DENIED" then Some(RequestDenied)
    else if s == "UNKNOWN_ERROR" then Some(UnknownError)
    else None
  }

  /** `LocationCoordinate2D`: degrees as Swift `Double`s, kept exact here. */
  datatype Coordinate = Coordinate(latitude: real, longitude: real)

  /** A place as the Directions API accepts it. */
  datatype Place =
    | StringDescription(address: string)
    | CoordinatePlace(coordinate: Coordinate)
    | PlaceId(id: string)

  /**
   * Swift's rendering of a `Double` is outside this model: it is passed in as
   * `fmt`. Swift never writes a comma in a number.
   */
  ghost predicate CommaFree(fmt: real -> string) {
    forall x :: ',' !in fmt(x)
  }

  /** `"\(latitude),\(longitude)"`. */
  function CoordinateText(c: Coordinate, fmt: real -> string): string {
    fmt(c.latitude) + "," + fmt(c.longitude)
  }

  /** `Place.toString()`. */
  function PlaceToString(p: Place, fmt: real -> string): string {
    match p
    case StringDescription(address) => address
    case CoordinatePlace(c) => CoordinateText(c, fmt)
    case PlaceId(id) => "place_id:" + id
  }

  /**
   * What each kind of place turns into: an address is passed through
   * unchanged, a place id follows the `place_id:` prefix, and a coordinate
   * is the two numbers around exactly one comma, so it splits back apart.
   */
  lemma PlaceTextRecoversPlace(p: Place, fmt: real -> string)
    requires CommaFree(fmt)
    ensures p.StringDescription? ==> PlaceToString(p, fmt) == p.address
    ensures p.PlaceId? ==>
      StartsWith(PlaceToString(p, fmt), "place_id:") && PlaceToString(p, fmt)[9..] == p.id
    ensures p.CoordinatePlace? ==>
      Split(PlaceToString(p, fmt), ',') == [fmt(p.coordinate.latitude), fmt(p.coordinate.longitude)]
  {
    match p
    case StringDescription(_) =>
    case PlaceId(id) =>
      assert PlaceToString(p, fmt)[..9] == "place_id:";
    case CoordinatePlace(c) =>
      var parts := [fmt(c.latitude), fmt(c.longitude)];
      assert Join(parts, [',']) == CoordinateText(c, fmt);
      SplitJoin(parts, ',');
  }
}
