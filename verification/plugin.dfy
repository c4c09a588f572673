/**
 * The plugin object (`CapacitorGoogleMaps`): the marker, polygon and
 * polyline registries keyed by id, the icon grouping of `addMarkers`, the
 * argument parsing of `getDirections`, and the calls that forward to a map
 * view. A call's outcome is recorded as a `Reply` rather than sent over the
 * bridge.
 */
module Plugin {
  import opened Optional
  import opened Json
  import opened Text
  import opened SharedTypes
  import Service
  import DirectionsApi
  import MapView
  import CustomPolyline
  import ImageCache

  /** How a plugin call ends: resolved with data, rejected with a message, or kept open. */
  datatype Reply = Resolved(data: Object) | Rejected(message: string) | Unanswered

  /** `call.getString(key, default)`. */
  function StringArg(call: Object, key: string, default: string): string {
    AsString(Field(call, key)).GetOr(default)
  }

  /** `call.getBool(key, default)`. */
  function BoolArg(call: Object, key: string, default: bool): bool {
    AsBool(Field(call, key)).GetOr(default)
  }

  // ---------------------------------------------------------------- registries

  datatype PluginState = PluginState(
    maps: map<string, MapView.ViewState>,            // `customWebView.customMapViews`
    markers: map<string, MapView.Marker>,             // `customMarkers`
    polygons: map<string, Object>,                    // `customPolygons`, by the data they were built from
    polylines: map<string, CustomPolyline.Polyline>)  // `customPolylines`

  datatype Removal<T> = Removal(registry: map<string, T>, reply: Reply)

  /**
   * The shared shape of `removeMarker`, `removePolygon` and
   * `removePolyline`: a present id is removed and the call resolved; an
   * absent one is rejected with "<kind> not found" and nothing changes.
   */
  function Remove<T>(registry: map<string, T>, id: string, kind: string): (r: Removal<T>)
    ensures id in registry ==> r.reply == Resolved(map[]) && id !in r.registry
    ensures id !in registry ==> r.reply == Rejected(kind + " not found") && r.registry == registry
    ensures forall k :: k != id ==> (k in r.registry <==> k in registry)
    ensures forall k :: k != id && k in registry ==> r.registry[k] == registry[k]
  {
    if id in registry then Removal(registry - {id}, Resolved(map[]))
    else Removal(registry, Rejected(kind + " not found"))
  }

  datatype Step = Step(state: PluginState, reply: Reply)

  /** `removeMarker`: the id defaults to "" when not given; only the marker registry changes. */
  function RemoveMarker(st: PluginState, call: Object): (r: Step)
    ensures var id := StringArg(call, "markerId", "");
      && (r.reply.Resolved? <==> id in st.markers)
      && (!r.reply.Resolved? ==> r == Step(st, Rejected("marker not found")))
      && r.state.markers == st.markers - {id}
      && r.state == st.(markers := r.state.markers)
  {
    var rm := Remove(st.markers, StringArg(call, "markerId", ""), "marker");
    Step(st.(markers := rm.registry), rm.reply)
  }

  /** `removePolygon`. */
  function RemovePolygon(st: PluginState, call: Object): (r: Step)
    ensures var id := StringArg(call, "polygonId", "");
      && (r.reply.Resolved? <==> id in st.polygons)
      && (!r.reply.Resolved? ==> r == Step(st, Rejected("polygon not found")))
      && r.state.polygons == st.polygons - {id}
      && r.state == st.(polygons := r.state.polygons)
  {
    var rm := Remove(st.polygons, StringArg(call, "polygonId", ""), "polygon");
    Step(st.(polygons := rm.registry), rm.reply)
  }

  /** `removePolyline`. */
  function RemovePolyline(st: PluginState, call: Object): (r: Step)
    ensures var id := StringArg(call, "polylineId", "");
      && (r.reply.Resolved? <==> id in st.polylines)
      && (!r.reply.Resolved? ==> r == Step(st, Rejected("polyline not found")))
      && r.state.polylines == st.polylines - {id}
      && r.state == st.(polylines := r.state.polylines)
  {
    var rm := Remove(st.polylines, StringArg(call, "polylineId", ""), "polyline");
    Step(st.(polylines := rm.registry), rm.reply)
  }

  /**
   * The private `addPolyline(_:customMapView:completion:)`: a new polyline
   * (its generated id is the argument's) is updated from the data and
   * registered under its id. The data's `zIndex` must fit in 32 bits, or
   * the update traps.
   */
  function AddPolyline(st: PluginState, blank: CustomPolyline.Polyline, data: Object): (r: PluginState)
    requires CustomPolyline.ZIndexFits(data)
    ensures blank.id in r.polylines && r.polylines[blank.id] == CustomPolyline.Update(blank, data)
    ensures r.polylines[blank.id].id == blank.id
    ensures forall k :: k != blank.id ==> (k in r.polylines <==> k in st.polylines)
    ensures forall k :: k != blank.id && k in st.polylines ==> r.polylines[k] == st.polylines[k]
    ensures r == st.(polylines := r.polylines)
  {
    st.(polylines := st.polylines[blank.id := CustomPolyline.Update(blank, data)])
  }

  /** Removing a polyline that was just added under a fresh id restores the registry; removing it again is rejected. */
  lemma RemoveUndoesAdd(st: PluginState, blank: CustomPolyline.Polyline, data: Object)
    requires CustomPolyline.ZIndexFits(data)
    requires blank.id !in st.polylines
    ensures var call := map["polylineId" := JString(blank.id)];
      var removed := RemovePolyline(AddPolyline(st, blank, data), call);
      && removed == Step(st, Resolved(map[]))
      && RemovePolyline(removed.state, call) == Step(st, Rejected("polyline not found"))
  {
    var call := map["polylineId" := JString(blank.id)];
    assert StringArg(call, "polylineId", "") == blank.id;
    var added := AddPolyline(st, blank, data);
    assert added.polylines - {blank.id} == st.polylines;
  }

  // ---------------------------------------------------------------- marker icons

  /** A marker's icon: the image to load and the size to scale it to. */
  datatype IconRequest = IconRequest(url: string, width: int, height: int)

  /** The icon size `addMarker` and `addMarkers` fall back to. */
  const AddIconSize := 30
  /** The icon size `updateMarker` falls back to. */
  const UpdateIconSize := 130

  /** `marker?["preferences"] as? JSObject ?? JSObject()`. */
  function PreferencesOf(marker: Option<Object>): Object {
    if marker.None? then map[] else AsObject(Field(marker.value, "preferences")).GetOr(map[])
  }

  /**
   * The icon of a marker's preferences: present when `icon` is an object
   * with a string `url`; each side of `size` is its `Int` or the fallback.
   */
  function IconOf(prefs: Object, fallbackSize: int): (r: Option<IconRequest>)
    ensures var icon := AsObject(Field(prefs, "icon"));
      r.Some? <==> icon.Some? && AsString(Field(icon.value, "url")).Some?
    ensures r.Some? ==>
      var icon := AsObject(Field(prefs, "icon")).value;
      var size := AsObject(Field(icon, "size")).GetOr(map[]);
      && r.value.url == AsString(Field(icon, "url")).value
      && r.value.width == AsInt(Field(size, "width")).GetOr(fallbackSize)
      && r.value.height == AsInt(Field(size, "height")).GetOr(fallbackSize)
  {
    match AsObject(Field(prefs, "icon"))
    case None => None
    case Some(icon) =>
      match AsString(Field(icon, "url"))
      case None => None
      case Some(url) =>
        var size := AsObject(Field(icon, "size")).GetOr(map[]);
        Some(IconRequest(url, AsInt(Field(size, "width")).GetOr(fallbackSize),
                              AsInt(Field(size, "height")).GetOr(fallbackSize)))
  }

  /** An icon given without a size is loaded at 30x30 when added and at 130x130 when updated. */
  lemma UnsizedIconDefaults(url: string)
    ensures var prefs := map["icon" := JObject(map["url" := JString(url)])];
      && IconOf(prefs, AddIconSize) == Some(IconRequest(url, 30, 30))
      && IconOf(prefs, UpdateIconSize) == Some(IconRequest(url, 130, 130))
  {
    var icon := map["url" := JString(url)];
    assert Field(icon, "size") == None;
  }

  /**
   * The `addMarkers` grouping key: the icon's URL followed by its width and
   * height, or "" for a marker without an icon URL. It is exactly the key
   * `ImageCache.ImageAt` downloads under, so a group's first load fills the
   * cache for the rest.
   */
  function GroupKey(marker: Option<Object>): (k: string)
    ensures k == "" <==> IconOf(PreferencesOf(marker), AddIconSize).None?
    ensures var icon := IconOf(PreferencesOf(marker), AddIconSize);
      icon.Some? ==> k == ImageCache.CacheKeyAsWritten(icon.value.url, icon.value.width, icon.value.height)
  {
    match IconOf(PreferencesOf(marker), AddIconSize)
    case None => ""
    case Some(icon) => icon.url + IntToDecimal(icon.width) + IntToDecimal(icon.height)
  }

  /** The markers of `markers` whose key is `k`, in their order: one group of `Dictionary(grouping:by:)`. */
  function Members(markers: seq<Option<Object>>, k: string): (g: seq<Option<Object>>)
    ensures |g| <= |markers|
  {
    if |markers| == 0 then []
    else
      var last := markers[|markers| - 1];
      Members(markers[..|markers| - 1], k) + (if GroupKey(last) == k then [last] else [])
  }

  lemma {:induction false} MembersHaveKey(markers: seq<Option<Object>>, k: string)
    ensures forall x :: x in Members(markers, k) ==> GroupKey(x) == k
  {
    if |markers| > 0 {
      MembersHaveKey(markers[..|markers| - 1], k);
    }
  }

  lemma {:induction false} MemberOfOwnGroup(markers: seq<Option<Object>>, i: nat)
    requires i < |markers|
    ensures markers[i] in Members(markers, GroupKey(markers[i]))
    decreases |markers|
  {
    if i < |markers| - 1 {
      var init := markers[..|markers| - 1];
      assert init[i] == markers[i];
      MemberOfOwnGroup(init, i);
    }
  }

  /**
   * Grouping partitions the markers: every marker is in the group of its
   * own key, and a group holds only markers with that key, so no marker is
   * in two groups.
   */
  lemma GroupsPartition(markers: seq<Option<Object>>)
    ensures forall i :: 0 <= i < |markers| ==> markers[i] in Members(markers, GroupKey(markers[i]))
    ensures forall k, x :: x in Members(markers, k) ==> GroupKey(x) == k
  {
    forall i | 0 <= i < |markers|
      ensures markers[i] in Members(markers, GroupKey(markers[i]))
    {
      MemberOfOwnGroup(markers, i);
    }
    forall k
      ensures forall x :: x in Members(markers, k) ==> GroupKey(x) == k
    {
      MembersHaveKey(markers, k);
    }
  }

  lemma {:induction false} NoMembers(markers: seq<Option<Object>>, k: string)
    requires forall j :: 0 <= j < |markers| ==> GroupKey(markers[j]) != k
    ensures Members(markers, k) == []
  {
    if |markers| > 0 {
      NoMembers(markers[..|markers| - 1], k);
    }
  }

  /** `groups` is the grouping of `markers`: one entry per occurring key, each holding that key's members. */
  ghost predicate GroupsOf(groups: map<string, seq<Option<Object>>>, markers: seq<Option<Object>>) {
    && groups.Keys == (set j | 0 <= j < |markers| :: GroupKey(markers[j]))
    && forall k :: k in groups ==> groups[k] == Members(markers, k) && |groups[k]| > 0
  }

  /** Files one more marker under its key. */
  function AddToGroup(groups: map<string, seq<Option<Object>>>, m: Option<Object>): (r: map<string, seq<Option<Object>>>)
    ensures r.Keys == groups.Keys + {GroupKey(m)}
  {
    var key := GroupKey(m);
    if key in groups then groups[key := groups[key] + [m]] else groups[key := [m]]
  }

  lemma MembersSnoc(markers: seq<Option<Object>>, m: Option<Object>, k: string)
    ensures Members(markers + [m], k) == Members(markers, k) + (if GroupKey(m) == k then [m] else [])
  {
    assert (markers + [m])[..|markers|] == markers;
  }

  /** The keys occurring in `markers + [m]`: those of `markers` and that of `m`. */
  lemma KeysSnoc(markers: seq<Option<Object>>, m: Option<Object>)
    ensures (set j | 0 <= j < |markers + [m]| :: GroupKey((markers + [m])[j]))
         == (set j | 0 <= j < |markers| :: GroupKey(markers[j])) + {GroupKey(m)}
  {
    var s := markers + [m];
    assert forall j :: 0 <= j < |markers| ==> s[j] == markers[j];
    assert s[|markers|] == m;
  }

  /** A key new to `groups` has no members among the markers already grouped. */
  lemma NewKeyHasNoMembers(groups: map<string, seq<Option<Object>>>, markers: seq<Option<Object>>, key: string)
    requires GroupsOf(groups, markers) && key !in groups
    ensures Members(markers, key) == []
  {
    forall j | 0 <= j < |markers|
      ensures GroupKey(markers[j]) != key
    {
      assert GroupKey(markers[j]) in groups.Keys;
    }
    NoMembers(markers, key);
  }

  lemma GroupStep(groups: map<string, seq<Option<Object>>>, markers: seq<Option<Object>>, m: Option<Object>)
    requires GroupsOf(groups, markers)
    ensures GroupsOf(AddToGroup(groups, m), markers + [m])
  {
    var r := AddToGroup(groups, m);
    KeysSnoc(markers, m);
    forall k | k in r
      ensures r[k] == Members(markers + [m], k) && |r[k]| > 0
    {
      GroupEntryStep(groups, markers, m, k);
    }
  }

  /** One key's entry after filing `m`: still exactly that key's members. */
  lemma GroupEntryStep(groups: map<string, seq<Option<Object>>>, markers: seq<Option<Object>>, m: Option<Object>, k: string)
    requires GroupsOf(groups, markers) && k in AddToGroup(groups, m)
    ensures AddToGroup(groups, m)[k] == Members(markers + [m], k) && |AddToGroup(groups, m)[k]| > 0
  {
    MembersSnoc(markers, m, k);
    if k == GroupKey(m) && k !in groups {
      NewKeyHasNoMembers(groups, markers, k);
    }
  }

  /**
   * `Dictionary(grouping: markers) { ... }` in `addMarkers`: one entry per
   * key that occurs, holding the markers with that key in their order.
   */
  method GroupByIcon(markers: seq<Option<Object>>) returns (groups: map<string, seq<Option<Object>>>)
    ensures groups.Keys == set i | 0 <= i < |markers| :: GroupKey(markers[i])
    ensures forall k :: k in groups ==> groups[k] == Members(markers, k) && |groups[k]| > 0
  {
    groups := map[];
    var i := 0;
    while i < |markers|
      invariant i <= |markers|
      invariant GroupsOf(groups, markers[..i])
    {
      assert markers[..i + 1] == markers[..i] + [markers[i]];
      GroupStep(groups, markers[..i], markers[i]);
      groups := AddToGroup(groups, markers[i]);
      i := i + 1;
    }
    assert markers[..i] == markers;
  }

  // ---------------------------------------------------------------- getDirections

  /**
   * One entry of the `waypoints` array: a coordinate when both latitude
   * and longitude are numbers, else an address when `address` is a
   * string, else nothing.
   */
  function WaypointOf(w: Json): (r: Option<Place>)
    ensures !w.JObject? ==> r.None?
    ensures w.JObject? ==>
      var lat := AsDouble(Field(w.fields, "latitude"));
      var lng := AsDouble(Field(w.fields, "longitude"));
      var address := AsString(Field(w.fields, "address"));
      && (lat.Some? && lng.Some? ==> r == Some(CoordinatePlace(Coordinate(lat.value, lng.value))))
      && (!(lat.Some? && lng.Some?) ==> r == (if address.Some? then Some(StringDescription(address.value)) else None))
  {
    if !w.JObject? then None
    else
      var lat := AsDouble(Field(w.fields, "latitude"));
      var lng := AsDouble(Field(w.fields, "longitude"));
      if lat.Some? && lng.Some? then Some(CoordinatePlace(Coordinate(lat.value, lng.value)))
      else
        match AsString(Field(w.fields, "address"))
        case None => None
        case Some(a) => Some(StringDescription(a))
  }

  /** The waypoint loop: classified entries in order, the rest dropped. */
  function ParseWaypoints(ws: seq<Json>): (r: seq<Place>)
    ensures |r| <= |ws|
    ensures (forall i :: 0 <= i < |ws| ==> WaypointOf(ws[i]).Some?) ==>
      |r| == |ws| && forall i :: 0 <= i < |ws| ==> r[i] == WaypointOf(ws[i]).value
    ensures (forall i :: 0 <= i < |ws| ==> WaypointOf(ws[i]).None?) ==> r == []
  {
    if |ws| == 0 then []
    else
      var rest := ParseWaypoints(ws[1..]);
      assert forall i :: 1 <= i < |ws| ==> ws[1..][i - 1] == ws[i];
      match WaypointOf(ws[0])
      case None => rest
      case Some(p) => [p] + rest
  }

  /** Parsing runs entry by entry: parsing a concatenation concatenates the parses, so order is kept. */
  lemma {:induction false} ParseWaypointsAppend(a: seq<Json>, b: seq<Json>)
    ensures ParseWaypoints(a + b) == ParseWaypoints(a) + ParseWaypoints(b)
    decreases |a|
  {
    if |a| > 0 {
      assert (a + b)[0] == a[0];
      assert (a + b)[1..] == a[1..] + b;
      ParseWaypointsAppend(a[1..], b);
    } else {
      assert a + b == b;
    }
  }

  /** `call.getArray("waypoints")`, parsed; no array gives no waypoints. */
  function WaypointsArg(call: Object): seq<Place> {
    match AsArray(Field(call, "waypoints"))
    case None => []
    case Some(ws) => ParseWaypoints(ws)
  }

  /** `travelMode.travelMode` as a raw value, `.driving` when missing or unknown. */
  function TravelModeArg(call: Object): (m: DirectionsApi.TravelMode)
    ensures var raw := AsString(Field(AsObject(Field(call, "travelMode")).GetOr(map[]), "travelMode"));
      m == DirectionsApi.Driving || (raw.Some? && DirectionsApi.TravelModeRawValue(m) == raw.value)
  {
    var raw := AsString(Field(AsObject(Field(call, "travelMode")).GetOr(map[]), "travelMode"));
    if raw.None? then DirectionsApi.Driving
    else DirectionsApi.TravelModeFromRawValue(raw.value).GetOr(DirectionsApi.Driving)
  }

  /** Each travel mode passed by its raw value is the one requested. */
  lemma TravelModeArgRoundTrip(call: Object, m: DirectionsApi.TravelMode)
    ensures TravelModeArg(call["travelMode" := JObject(map["travelMode" := JString(DirectionsApi.TravelModeRawValue(m))])]) == m
  {
    DirectionsApi.TravelModeRoundTrip(m);
  }

  /** Origin or destination: always a coordinate, each missing or non-number side read as 0. */
  function EndpointArg(call: Object, key: string): (p: Place)
    ensures p.CoordinatePlace?
    ensures var o := AsObject(Field(call, key)).GetOr(map[]);
      && p.coordinate.latitude == AsDouble(Field(o, "latitude")).GetOr(0.0)
      && p.coordinate.longitude == AsDouble(Field(o, "longitude")).GetOr(0.0)
  {
    var o := AsObject(Field(call, key)).GetOr(map[]);
    CoordinatePlace(Coordinate(AsDouble(Field(o, "latitude")).GetOr(0.0), AsDouble(Field(o, "longitude")).GetOr(0.0)))
  }

  /**
   * The request `getDirections` sends. The call also reads alternatives,
   * times, avoid, language, region, transit and traffic settings and units,
   * but passes only origin, destination, travel mode and waypoints on.
   */
  function GetDirectionsRequest(base: Service.Params, call: Object, fmt: real -> string): (r: DirectionsApi.DirectionsRequest)
    ensures r.url == DirectionsApi.BaseUrl
    ensures !r.warnsAboutTimes
    ensures "origin" in r.params && r.params["origin"] == Service.PStr(PlaceToString(EndpointArg(call, "origin"), fmt))
    ensures "mode" in r.params && r.params["mode"] == Service.PStr(Lowercase(DirectionsApi.TravelModeRawValue(TravelModeArg(call))))
  {
    DirectionsApi.Direction(base, EndpointArg(call, "origin"), EndpointArg(call, "destination"),
                            DirectionsOptionsOf(call), fmt)
  }

  function DirectionsOptionsOf(call: Object): (o: DirectionsApi.DirectionOptions)
    ensures o == DirectionsApi.DefaultOptions.(travelMode := o.travelMode, wayPoints := o.wayPoints)
    ensures o.wayPoints == Some(WaypointsArg(call))
  {
    DirectionsApi.DefaultOptions.(travelMode := TravelModeArg(call), wayPoints := Some(WaypointsArg(call)))
  }

  /**
   * Only the four forwarded arguments matter: changing any other argument
   * of the call leaves the request as it was.
   */
  lemma IgnoredArgumentsDontMatter(base: Service.Params, call: Object, key: string, v: Json, fmt: real -> string)
    requires key !in {"origin", "destination", "travelMode", "waypoints"}
    ensures GetDirectionsRequest(base, call[key := v], fmt) == GetDirectionsRequest(base, call, fmt)
  {
    var call' := call[key := v];
    assert Field(call', "origin") == Field(call, "origin");
    assert Field(call', "destination") == Field(call, "destination");
    assert Field(call', "travelMode") == Field(call, "travelMode");
    assert Field(call', "waypoints") == Field(call, "waypoints");
  }

  /**
   * The waypoints parameter is always sent, even for no waypoints, and the
   * optional settings `getDirections` reads are never sent unless the base
   * parameters carry them.
   */
  lemma DirectionsRequestShape(base: Service.Params, call: Object, fmt: real -> string)
    ensures var p := GetDirectionsRequest(base, call, fmt).params;
      && "waypoints" in p
      && p["waypoints"] == Service.PStr(Join(DirectionsApi.PlaceTexts(WaypointsArg(call), fmt), "|"))
      && ("alternatives" in p <==> "alternatives" in base)
      && ("avoid" in p <==> "avoid" in base)
      && ("arrival_time" in p <==> "arrival_time" in base)
      && ("departure_time" in p <==> "departure_time" in base)
  {
    var o := DirectionsOptionsOf(call);
    DirectionsApi.OptionalParametersByKey(base, EndpointArg(call, "origin"), EndpointArg(call, "destination"), o, fmt);
  }

  /** What becomes of a `getDirections` call once the directions completion runs. */
  datatype DirectionsReply = RouteResolved(response: Service.ServiceResponse) | RouteRejected(message: string) | Silent

  /**
   * The completion of `getDirections`: only an `OK` status resolves the
   * call; every other outcome (an error, no response, another status)
   * leaves it unanswered. The "Response is nil" rejection sits behind the
   * status guard and is never reached.
   */
  function DirectionsReplyOf(c: Service.Completion): (r: DirectionsReply)
    ensures r.RouteResolved? <==> c.response.Some? && c.response.value.status == Some(Ok)
    ensures r.RouteResolved? ==> r.response == c.response.value
    ensures !r.RouteRejected?
  {
    match c.response
    case None => Silent
    case Some(resp) => if resp.status == Some(Ok) then RouteResolved(resp) else Silent
  }

  /**
   * Composed with the directions completion: a transport, body or mapping
   * failure never answers the call, and a mapped response answers it
   * exactly when its status is `OK`.
   */
  lemma DirectionsFailuresStaySilent(o: Service.HttpOutcome)
    ensures !o.Mapped? ==> DirectionsReplyOf(DirectionsApi.DirectionsCompletion(o)) == Silent
    ensures o.Mapped? ==>
      (DirectionsReplyOf(DirectionsApi.DirectionsCompletion(o)).RouteResolved? <==> o.response.status == Some(Ok))
  {
    DirectionsApi.CompletionClassifiesOutcome(o);
  }

  // ---------------------------------------------------------------- map-view calls

  /**
   * `triggerInfoWindow`: both ids must be strings, the map and then the
   * marker must exist; the map view then handles the click. A rejection
   * changes nothing.
   */
  function TriggerInfoWindow(st: PluginState, call: Object): (r: Step)
    ensures var mapId := AsString(Field(call, "mapId"));
      var markerId := AsString(Field(call, "markerId"));
      && (mapId.None? || markerId.None? ==> r == Step(st, Rejected("Missing mapId or markerId")))
      && (mapId.Some? && markerId.Some? && mapId.value !in st.maps ==> r == Step(st, Rejected("Map not found")))
      && (mapId.Some? && markerId.Some? && mapId.value in st.maps && markerId.value !in st.markers ==>
            r == Step(st, Rejected("Marker not found")))
      && (r.reply.Resolved? <==>
            mapId.Some? && markerId.Some? && mapId.value in st.maps && markerId.value in st.markers)
      && (r.reply.Resolved? ==>
            r.state == st.(maps := st.maps[mapId.value :=
              MapView.TriggerInfoWindowClick(st.maps[mapId.value], st.markers[markerId.value])]))
  {
    var mapId := AsString(Field(call, "mapId"));
    var markerId := AsString(Field(call, "markerId"));
    if mapId.None? || markerId.None? then Step(st, Rejected("Missing mapId or markerId"))
    else if mapId.value !in st.maps then Step(st, Rejected("Map not found"))
    else if markerId.value !in st.markers then Step(st, Rejected("Marker not found"))
    else
      var view := MapView.TriggerInfoWindowClick(st.maps[mapId.value], st.markers[markerId.value]);
      Step(st.(maps := st.maps[mapId.value := view]), Resolved(map[]))
  }

  /**
   * `enableCustomInfoWindows`: `enabled` defaults to true; the map view's
   * flag is set and the call resolves with `{enabled}`.
   */
  function EnableCustomInfoWindows(st: PluginState, call: Object): (r: Step)
    ensures var mapId := StringArg(call, "mapId", "");
      var enabled := BoolArg(call, "enabled", true);
      && (mapId !in st.maps ==> r == Step(st, Rejected("map not found")))
      && (mapId in st.maps ==>
            && r.reply == Resolved(map["enabled" := JBool(enabled)])
            && r.state == st.(maps := st.maps[mapId := MapView.EnableCustomInfoWindows(st.maps[mapId], enabled)]))
  {
    var mapId := StringArg(call, "mapId", "");
    var enabled := BoolArg(call, "enabled", true);
    if mapId !in st.maps then Step(st, Rejected("map not found"))
    else
      Step(st.(maps := st.maps[mapId := MapView.EnableCustomInfoWindows(st.maps[mapId], enabled)]),
           Resolved(map["enabled" := JBool(enabled)]))
  }

  /** Without `enabled`, the call turns custom info windows on. */
  lemma EnableDefaultsToOn(st: PluginState, mapId: string)
    requires mapId in st.maps
    ensures var r := EnableCustomInfoWindows(st, map["mapId" := JString(mapId)]);
      r.reply == Resolved(map["enabled" := JBool(true)]) && r.state.maps[mapId].customInfoWindowEnabled
  {
    var call := map["mapId" := JString(mapId)];
    assert StringArg(call, "mapId", "") == mapId;
    assert Field(call, "enabled") == None;
  }

  /**
   * The plugin's `setCallbackIdForEvent(call:eventName:)`: the call is
   * kept open and its id saved on the map view with `preventDefault`
   * (false when not given).
   */
  function SetCallbackIdForEvent(st: PluginState, call: Object, callbackId: string, eventName: string): (r: Step)
    ensures var mapId := StringArg(call, "mapId", "");
      && (mapId !in st.maps ==> r == Step(st, Rejected("map not found")))
      && (mapId in st.maps ==>
            && r.reply == Unanswered
            && r.state == st.(maps := st.maps[mapId := MapView.SetCallbackIdForEvent(st.maps[mapId], Some(callbackId),
                                Some(eventName), Some(BoolArg(call, "preventDefault", false)))]))
  {
    var mapId := StringArg(call, "mapId", "");
    if mapId !in st.maps then Step(st, Rejected("map not found"))
    else
      var view := MapView.SetCallbackIdForEvent(st.maps[mapId], Some(callbackId), Some(eventName),
                                                Some(BoolArg(call, "preventDefault", false)));
      Step(st.(maps := st.maps[mapId := view]), Unanswered)
  }

  /**
   * Every event method (`didTapInfoWindow` ... `didTapCustomInfoWindowAction`)
   * passes a name the map view knows, so each registers its own event.
   */
  lemma EventMethodsRegister(st: PluginState, call: Object, callbackId: string, e: MapView.Event)
    requires StringArg(call, "mapId", "") in st.maps
    ensures var mapId := StringArg(call, "mapId", "");
      var r := SetCallbackIdForEvent(st, call, callbackId, MapView.EventName(e));
      r.state.maps[mapId] == MapView.Register(st.maps[mapId], e, callbackId, Some(BoolArg(call, "preventDefault", false)))
  {
  }
}
