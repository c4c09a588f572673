/**
 * The Directions web-service client: building the request parameters from
 * the optional arguments, and turning the HTTP outcome and the response's
 * status into the `(response, error)` pair handed to the completion block.
 */
module DirectionsApi {
  import opened Optional
  import opened Text
  import opened SharedTypes
  import opened Service

  const BaseUrl := "https://maps.googleapis.com/maps/api/directions/json"
  const ErrorDomain := "GoogleMapsDirectionsError"

  datatype TravelMode = Driving | Walking | Bicycling | Transit

  function TravelModeRawValue(m: TravelMode): string {
    match m
    case Driving => "DRIVING"
    case Walking => "WALKING"
    case Bicycling => "BICYCLING"
    case Transit => "TRANSIT"
  }

  /** `TravelMode(rawValue:)`. */
  function TravelModeFromRawValue(s: string): (r: Option<TravelMode>)
    ensures r.Some? ==> TravelModeRawValue(r.value) == s
  {
    if s == "DRIVING" then Some(Driving)
    else if s == "WALKING" then Some(Walking)
    else if s == "BICYCLING" then Some(Bicycling)
    else if s == "TRANSIT" then Some(Transit)
    else None
  }

  lemma TravelModeRoundTrip(m: TravelMode)
    ensures TravelModeFromRawValue(TravelModeRawValue(m)) == Some(m)
  {
  }

  /**
   * The optional arguments of `direction(fromOrigin:toDestination:...)`.
   * Enumerations other than the travel mode are carried as their raw values;
   * dates are carried as the whole seconds since 1970 that `Int(...)` keeps.
   */
  datatype DirectionOptions = DirectionOptions(
    travelMode: TravelMode,
    wayPoints: Option<seq<Place>>,
    alternatives: Option<bool>,
    avoid: Option<seq<string>>,
    language: Option<string>,
    units: Option<string>,
    region: Option<string>,
    arrivalTime: Option<int>,
    departureTime: Option<int>,
    trafficModel: Option<string>,
    transitMode: Option<string>,
    transitRoutingPreference: Option<string>)

  /** The defaults of every optional argument. */
  const DefaultOptions := DirectionOptions(Driving, None, None, None, None, None, None, None, None, None, None, None)

  /** The request as sent: URL, parameters, and whether the two-times warning is logged. */
  datatype DirectionsRequest = DirectionsRequest(url: string, params: Params, warnsAboutTimes: bool)

  function PlaceTexts(places: seq<Place>, fmt: real -> string): (r: seq<string>)
    ensures |r| == |places|
    ensures forall i :: 0 <= i < |places| ==> r[i] == PlaceToString(places[i], fmt)
  {
    seq(|places|, i requires 0 <= i < |places| => PlaceToString(places[i], fmt))
  }

  function StrParam(v: Option<string>): Option<Param> {
    if v.Some? then Some(PStr(v.value)) else None
  }

  function WaypointsParam(wayPoints: Option<seq<Place>>, fmt: real -> string): Option<Param> {
    if wayPoints.Some? then Some(PStr(Join(PlaceTexts(wayPoints.value, fmt), "|"))) else None
  }

  function AlternativesParam(alternatives: Option<bool>): Option<Param> {
    if alternatives.Some? then Some(PStr(if alternatives.value then "true" else "false")) else None
  }

  function AvoidParam(avoid: Option<seq<string>>): Option<Param> {
    if avoid.Some? then Some(PStr(Join(avoid.value, "|"))) else None
  }

  /** A time is only sent for transit and driving directions. */
  function TimeParam(t: Option<int>, mode: TravelMode): Option<Param> {
    if t.Some? && (mode == Transit || mode == Driving) then Some(PInt(t.value)) else None
  }

  /** The parameters every request carries. */
  function FixedParameters(origin: Place, destination: Place, mode: TravelMode, fmt: real -> string): Params {
    map[
      "origin" := PStr(PlaceToString(origin, fmt)),
      "destination" := PStr(PlaceToString(destination, fmt)),
      "mode" := PStr(Lowercase(TravelModeRawValue(mode))),
      "optimize" := PBool(true)]
  }

  /** The optional parameters, in the order the request sets them. */
  function OptionalParameters(o: DirectionOptions, fmt: real -> string): (entries: seq<Entry>)
    ensures DistinctKeys(entries)
    ensures KeysOf(entries) !! {"origin", "destination", "mode", "optimize"}
  {
    [ Entry("waypoints", WaypointsParam(o.wayPoints, fmt)),
      Entry("alternatives", AlternativesParam(o.alternatives)),
      Entry("avoid", AvoidParam(o.avoid)),
      Entry("language", StrParam(o.language)),
      Entry("units", StrParam(o.units)),
      Entry("region", StrParam(o.region)),
      Entry("arrival_time", TimeParam(o.arrivalTime, o.travelMode)),
      Entry("departure_time", TimeParam(o.departureTime, o.travelMode)),
      Entry("traffic_model", StrParam(o.trafficModel)),
      Entry("transit_mode", StrParam(o.transitMode)),
      Entry("transit_routing_preference", StrParam(o.transitRoutingPreference)) ]
  }

  /**
   * The parameter map built by `direction(fromOrigin:toDestination:...)`:
   * the four fixed parameters always, each optional one exactly when its
   * argument is given, and the base parameters under every other key.
   */
  function RequestParameters(base: Params, origin: Place, destination: Place,
                             o: DirectionOptions, fmt: real -> string): (p: Params)
    ensures "origin" in p && p["origin"] == PStr(PlaceToString(origin, fmt))
    ensures "destination" in p && p["destination"] == PStr(PlaceToString(destination, fmt))
    ensures "mode" in p && p["mode"] == PStr(Lowercase(TravelModeRawValue(o.travelMode)))
    ensures "optimize" in p && p["optimize"] == PBool(true)
    ensures var entries := OptionalParameters(o, fmt);
      forall i :: 0 <= i < |entries| ==> SetOnlyIfGiven(base, p, entries[i].key, entries[i].value)
    ensures forall k :: k in p ==>
      k in base || k in FixedParameters(origin, destination, o.travelMode, fmt) || k in KeysOf(OptionalParameters(o, fmt))
    ensures forall k :: (k in base && k !in FixedParameters(origin, destination, o.travelMode, fmt)
                         && k !in KeysOf(OptionalParameters(o, fmt))) ==> k in p && p[k] == base[k]
  {
    var fixed := FixedParameters(origin, destination, o.travelMode, fmt);
    var entries := OptionalParameters(o, fmt);
    var p := BuildParameters(base, fixed, entries);
    assert "origin" in fixed && "destination" in fixed && "mode" in fixed && "optimize" in fixed;
    p
  }

  /** The optional parameters, one by one: each is sent exactly when given or already in `base`. */
  lemma OptionalParametersByKey(base: Params, origin: Place, destination: Place,
                                o: DirectionOptions, fmt: real -> string)
    ensures var p := RequestParameters(base, origin, destination, o, fmt);
      && SetOnlyIfGiven(base, p, "waypoints", WaypointsParam(o.wayPoints, fmt))
      && SetOnlyIfGiven(base, p, "alternatives", AlternativesParam(o.alternatives))
      && SetOnlyIfGiven(base, p, "avoid", AvoidParam(o.avoid))
      && SetOnlyIfGiven(base, p, "arrival_time", TimeParam(o.arrivalTime, o.travelMode))
      && SetOnlyIfGiven(base, p, "departure_time", TimeParam(o.departureTime, o.travelMode))
  {
    var entries := OptionalParameters(o, fmt);
    assert entries[0] == Entry("waypoints", WaypointsParam(o.wayPoints, fmt));
    assert entries[1] == Entry("alternatives", AlternativesParam(o.alternatives));
    assert entries[2] == Entry("avoid", AvoidParam(o.avoid));
    assert entries[6] == Entry("arrival_time", TimeParam(o.arrivalTime, o.travelMode));
    assert entries[7] == Entry("departure_time", TimeParam(o.departureTime, o.travelMode));
  }

  /** `direction(fromOrigin:toDestination:...)` up to the HTTP call. */
  function Direction(base: Params, origin: Place, destination: Place,
                     o: DirectionOptions, fmt: real -> string): (r: DirectionsRequest)
    ensures r.url == BaseUrl
    ensures r.params == RequestParameters(base, origin, destination, o, fmt)
    ensures r.warnsAboutTimes <==> o.arrivalTime.Some? && o.departureTime.Some?
  {
    DirectionsRequest(BaseUrl, RequestParameters(base, origin, destination, o, fmt),
                      o.arrivalTime.Some? && o.departureTime.Some?)
  }

  /** `direction(fromOriginAddress:toDestinationAddress:...)`. */
  function DirectionFromAddresses(base: Params, originAddress: string, destinationAddress: string,
                                  o: DirectionOptions, fmt: real -> string): (r: DirectionsRequest)
    ensures r == Direction(base, StringDescription(originAddress), StringDescription(destinationAddress), o, fmt)
    ensures r.params["origin"] == PStr(originAddress) && r.params["destination"] == PStr(destinationAddress)
  {
    Direction(base, StringDescription(originAddress), StringDescription(destinationAddress), o, fmt)
  }

  /** `direction(fromOriginCoordinate:toDestinationCoordinate:...)`. */
  function DirectionFromCoordinates(base: Params, originCoordinate: Coordinate, destinationCoordinate: Coordinate,
                                    o: DirectionOptions, fmt: real -> string): (r: DirectionsRequest)
    ensures r == Direction(base, CoordinatePlace(originCoordinate), CoordinatePlace(destinationCoordinate), o, fmt)
    ensures r.params["origin"] == PStr(CoordinateText(originCoordinate, fmt))
    ensures r.params["destination"] == PStr(CoordinateText(destinationCoordinate, fmt))
  {
    Direction(base, CoordinatePlace(originCoordinate), CoordinatePlace(destinationCoordinate), o, fmt)
  }

  /**
   * The `waypoints` text is the places' texts in order around `|`, so as long
   * as no place text contains `|`, splitting it recovers every waypoint; an
   * empty list is sent as the empty text.
   */
  lemma WaypointsSplitBack(base: Params, origin: Place, destination: Place,
                           o: DirectionOptions, fmt: real -> string)
    requires o.wayPoints.Some?
    requires forall i :: 0 <= i < |o.wayPoints.value| ==> '|' !in PlaceToString(o.wayPoints.value[i], fmt)
    ensures var p := RequestParameters(base, origin, destination, o, fmt);
      && "waypoints" in p && p["waypoints"].PStr?
      && (o.wayPoints.value == [] ==> p["waypoints"].s == "")
      && (o.wayPoints.value != [] ==> Split(p["waypoints"].s, '|') == PlaceTexts(o.wayPoints.value, fmt))
  {
    var p := RequestParameters(base, origin, destination, o, fmt);
    var entries := OptionalParameters(o, fmt);
    assert SetOnlyIfGiven(base, p, entries[0].key, entries[0].value);
    var texts := PlaceTexts(o.wayPoints.value, fmt);
    assert p["waypoints"] == PStr(Join(texts, "|"));
    if texts != [] {
      SplitJoin(texts, '|');
    }
  }

  /**
   * Arrival and departure times reach the request only for transit and
   * driving directions, and then both may be sent together (the request
   * only logs a warning).
   */
  lemma TimesFollowTravelMode(base: Params, origin: Place, destination: Place,
                              o: DirectionOptions, fmt: real -> string)
    requires "arrival_time" !in base && "departure_time" !in base
    ensures var p := RequestParameters(base, origin, destination, o, fmt);
      && ("arrival_time" in p <==> o.arrivalTime.Some? && (o.travelMode == Transit || o.travelMode == Driving))
      && ("departure_time" in p <==> o.departureTime.Some? && (o.travelMode == Transit || o.travelMode == Driving))
      && ("arrival_time" in p ==> p["arrival_time"] == PInt(o.arrivalTime.value))
      && ("departure_time" in p ==> p["departure_time"] == PInt(o.departureTime.value))
  {
    var p := RequestParameters(base, origin, destination, o, fmt);
    var entries := OptionalParameters(o, fmt);
    assert SetOnlyIfGiven(base, p, entries[6].key, entries[6].value);
    assert SetOnlyIfGiven(base, p, entries[7].key, entries[7].value);
  }

  /** The error code reported for each status other than `OK`. */
  function StatusErrorCode(s: StatusCode): int {
    match s
    case Ok => 0
    case NotFound => -5
    case ZeroResults => -6
    case MaxWaypointsExceeded => -7
    case InvalidRequest => -8
    case OverQueryLimit => -9
    case RequestDenied => -10
    case UnknownError => -11
  }

  function StatusDescription(s: StatusCode): string {
    match s
    case Ok => ""
    case NotFound => "At least one of the locations could not be geocoded."
    case ZeroResults => "No route could be found."
    case MaxWaypointsExceeded => "Too many waypoints provided."
    case InvalidRequest => "Provided request was invalid."
    case OverQueryLimit => "Service has received too many requests."
    case RequestDenied => "Service denied by your application."
    case UnknownError => "Request could not be processed due to server error."
  }

  /** The error for a mapped response: none for `OK`, code -4 without a status, -5 to -11 otherwise. */
  function StatusError(r: ServiceResponse): (e: Option<NSError>)
    ensures e.None? <==> r.status == Some(Ok)
    ensures e.Some? ==> e.value.domain == ErrorDomain
    ensures r.status.None? ==>
      e == Some(NSError(ErrorDomain, -4, Some("Status Code not found"), Some("Status Code not found")))
    ensures r.status.Some? && r.status.value != Ok ==>
      -11 <= e.value.code <= -5 && e.value.failureReason == Some(r.errorMessage.GetOr(""))
  {
    match r.status
    case None =>
      Some(NSError(ErrorDomain, -4, Some("Status Code not found"), Some("Status Code not found")))
    case Some(s) =>
      if s == Ok then None
      else Some(NSError(ErrorDomain, StatusErrorCode(s), Some(StatusDescription(s)), Some(r.errorMessage.GetOr(""))))
  }

  /** Distinct failing statuses (including a missing one) get distinct error codes. */
  lemma StatusErrorCodesDistinct(a: ServiceResponse, b: ServiceResponse)
    requires StatusError(a).Some? && StatusError(b).Some?
    requires StatusError(a).value.code == StatusError(b).value.code
    ensures a.status == b.status
  {
  }

  /** The completion-block arguments for each outcome of the HTTP request. */
  function DirectionsCompletion(o: HttpOutcome): (c: Completion)
    ensures o.TransportFailure? ==> c == Completion(None, Some(NSError(ErrorDomain, -1, None, None)))
    ensures o.NullBody? ==> c == Completion(Some(ServiceResponse(None, None)), None)
    ensures o.NonDictionaryBody? ==> c == Completion(None, Some(NSError(ErrorDomain, -2, None, None)))
    ensures o.UnmappableBody? ==> c == Completion(None, Some(NSError(ErrorDomain, -3, None, None)))
    ensures o.Mapped? ==> c.response == Some(o.response) && c.error == StatusError(o.response)
  {
    match o
    case TransportFailure => Completion(None, Some(NSError(ErrorDomain, -1, None, None)))
    case NullBody => Completion(Some(ServiceResponse(None, None)), None)
    case NonDictionaryBody => Completion(None, Some(NSError(ErrorDomain, -2, None, None)))
    case UnmappableBody => Completion(None, Some(NSError(ErrorDomain, -3, None, None)))
    case Mapped(r) => Completion(Some(r), StatusError(r))
  }

  /**
   * The completion's shape tells the outcomes apart: no response means a
   * failure of the request itself, identified by its code; a response
   * without an error is either an `OK` response or the empty response of a
   * JSON `null` body.
   */
  lemma CompletionClassifiesOutcome(o: HttpOutcome)
    ensures var c := DirectionsCompletion(o);
      && (c.response.None? <==> o.TransportFailure? || o.NonDictionaryBody? || o.UnmappableBody?)
      && (c.response.None? ==> c.error.Some? && -3 <= c.error.value.code <= -1)
      && (c.response.Some? && c.error.None? <==> o.NullBody? || (o.Mapped? && o.response.status == Some(Ok)))
      && (c.error.Some? && c.error.value.code == -1 ==> o.TransportFailure?)
      && (c.error.Some? && c.error.value.code == -2 ==> o.NonDictionaryBody?)
      && (c.error.Some? && c.error.value.code == -3 ==> o.UnmappableBody?)
  {
  }
}
