/**
 * `CustomMapView`: the saved callback id of each event, the two
 * `preventDefault` flags, and the custom info-window state (the window, the
 * marker it belongs to, the enabled flag) with the delegate decisions that
 * read them. Each delegate returns the callback it notifies, if any.
 */
module MapView {
  import opened Optional
  import opened Json
  import opened InfoWindow

  datatype Event =
    | DidTapInfoWindow
    | DidCloseInfoWindow
    | DidTapMap
    | DidLongPressMap
    | DidTapMarker
    | DidBeginDraggingMarker
    | DidDragMarker
    | DidEndDraggingMarker
    | DidTapMyLocationButton
    | DidTapMyLocationDot
    | DidTapPoi
    | DidBeginMovingCamera
    | DidMoveCamera
    | DidEndMovingCamera
    | DidTapCustomInfoWindowAction

  /** The `EVENT_...` names the web layer registers under. */
  function EventName(e: Event): string {
    match e
    case DidTapInfoWindow => "didTapInfoWindow"
    case DidCloseInfoWindow => "didCloseInfoWindow"
    case DidTapMap => "didTapMap"
    case DidLongPressMap => "didLongPressMap"
    case DidTapMarker => "didTapMarker"
    case DidBeginDraggingMarker => "didBeginDraggingMarker"
    case DidDragMarker => "didDragMarker"
    case DidEndDraggingMarker => "didEndDraggingMarker"
    case DidTapMyLocationButton => "didTapMyLocationButton"
    case DidTapMyLocationDot => "didTapMyLocationDot"
    case DidTapPoi => "didTapPoi"
    case DidBeginMovingCamera => "didBeginMovingCamera"
    case DidMoveCamera => "didMoveCamera"
    case DidEndMovingCamera => "didEndMovingCamera"
    case DidTapCustomInfoWindowAction => "didTapCustomInfoWindowAction"
  }

  /**
   * The `if eventName == ... else if ...` chain: the event a name selects,
   * if any. The fifteen names are distinct, so it is exactly the inverse of
   * `EventName`.
   */
  function EventNamed(name: string): (r: Option<Event>)
    ensures forall e :: r == Some(e) <==> EventName(e) == name
  {
    if name == "didTapInfoWindow" then Some(DidTapInfoWindow)
    else if name == "didCloseInfoWindow" then Some(DidCloseInfoWindow)
    else if name == "didTapMap" then Some(DidTapMap)
    else if name == "didLongPressMap" then Some(DidLongPressMap)
    else if name == "didTapMarker" then Some(DidTapMarker)
    else if name == "didBeginDraggingMarker" then Some(DidBeginDraggingMarker)
    else if name == "didDragMarker" then Some(DidDragMarker)
    else if name == "didEndDraggingMarker" then Some(DidEndDraggingMarker)
    else if name == "didTapMyLocationButton" then Some(DidTapMyLocationButton)
    else if name == "didTapMyLocationDot" then Some(DidTapMyLocationDot)
    else if name == "didTapPoi" then Some(DidTapPoi)
    else if name == "didBeginMovingCamera" then Some(DidBeginMovingCamera)
    else if name == "didMoveCamera" then Some(DidMoveCamera)
    else if name == "didEndMovingCamera" then Some(DidEndMovingCamera)
    else if name == "didTapCustomInfoWindowAction" then Some(DidTapCustomInfoWindowAction)
    else None
  }

  /** A marker as the view sees it: an identity and what the info window reads. */
  datatype Marker = Marker(id: string, info: MarkerInfo)

  datatype ViewState = ViewState(
    loaded: bool,                          // `GMapView != nil`
    mapId: string,
    callbacks: map<Event, string>,         // the `savedCallbackIdFor...` slots that are set
    preventDefaultForDidTapMarker: bool,
    preventDefaultForDidTapMyLocationButton: bool,
    customInfoWindow: Option<InfoWindowView>,
    currentSelectedMarker: Option<Marker>,
    customInfoWindowEnabled: bool,
    sdkSelectedMarker: Option<Marker>)     // `GMapView.selectedMarker`: the SDK's own window

  function NewView(mapId: string): ViewState {
    ViewState(false, mapId, map[], false, false, None, None, true, None)
  }

  /**
   * Saving `id` for event `e`: that event's slot is written, and for the
   * two events that have one, its `preventDefault` flag (`nil` read as
   * false); nothing else changes.
   */
  function Register(st: ViewState, e: Event, id: string, preventDefault: Option<bool>): (r: ViewState)
    ensures e in r.callbacks && r.callbacks[e] == id
    ensures forall e' :: e' != e ==> (e' in r.callbacks <==> e' in st.callbacks)
    ensures forall e' :: e' != e && e' in st.callbacks ==> r.callbacks[e'] == st.callbacks[e']
    ensures r.preventDefaultForDidTapMarker ==
      (if e == DidTapMarker then preventDefault.GetOr(false) else st.preventDefaultForDidTapMarker)
    ensures r.preventDefaultForDidTapMyLocationButton ==
      (if e == DidTapMyLocationButton then preventDefault.GetOr(false) else st.preventDefaultForDidTapMyLocationButton)
    ensures r.loaded == st.loaded && r.mapId == st.mapId && r.customInfoWindow == st.customInfoWindow
    ensures r.currentSelectedMarker == st.currentSelectedMarker
    ensures r.customInfoWindowEnabled == st.customInfoWindowEnabled && r.sdkSelectedMarker == st.sdkSelectedMarker
  {
    var st := st.(callbacks := st.callbacks[e := id]);
    if e == DidTapMarker then st.(preventDefaultForDidTapMarker := preventDefault.GetOr(false))
    else if e == DidTapMyLocationButton then st.(preventDefaultForDidTapMyLocationButton := preventDefault.GetOr(false))
    else st
  }

  /** A later registration for an event replaces an earlier one. */
  lemma RegisterLastWins(st: ViewState, e: Event, id1: string, id2: string, p1: Option<bool>, p2: Option<bool>)
    ensures Register(Register(st, e, id1, p1), e, id2, p2) == Register(st, e, id2, p2)
  {
    var once := Register(st, e, id2, p2);
    var twice := Register(Register(st, e, id1, p1), e, id2, p2);
    assert twice.callbacks == once.callbacks;
  }

  /** Registering the same callback twice is the same as once. */
  lemma RegisterIdempotent(st: ViewState, e: Event, id: string, p: Option<bool>)
    ensures Register(Register(st, e, id, p), e, id, p) == Register(st, e, id, p)
  {
    RegisterLastWins(st, e, id, id, p, p);
  }

  /** Registrations for different events commute. */
  lemma RegisterCommutes(st: ViewState, e1: Event, e2: Event, id1: string, id2: string, p1: Option<bool>, p2: Option<bool>)
    requires e1 != e2
    ensures Register(Register(st, e1, id1, p1), e2, id2, p2) == Register(Register(st, e2, id2, p2), e1, id1, p1)
  {
    var a := Register(Register(st, e1, id1, p1), e2, id2, p2);
    var b := Register(Register(st, e2, id2, p2), e1, id1, p1);
    assert a.callbacks == b.callbacks by {
      UpdatesCommute(st.callbacks, e1, e2, id1, id2);
    }
    assert a.preventDefaultForDidTapMarker == b.preventDefaultForDidTapMarker;
    assert a.preventDefaultForDidTapMyLocationButton == b.preventDefaultForDidTapMyLocationButton;
  }

  lemma UpdatesCommute<K, V>(m: map<K, V>, k1: K, k2: K, v1: V, v2: V)
    requires k1 != k2
    ensures m[k1 := v1][k2 := v2] == m[k2 := v2][k1 := v1]
  {
  }

  /**
   * `setCallbackIdForEvent(callbackId:eventName:preventDefault:)`: with a
   * callback id and one of the fifteen event names, that event is
   * registered; a missing argument or an unknown name changes nothing.
   */
  function SetCallbackIdForEvent(st: ViewState, callbackId: Option<string>, eventName: Option<string>,
                                 preventDefault: Option<bool>): (r: ViewState)
    ensures callbackId.None? || eventName.None? || EventNamed(eventName.value).None? ==> r == st
    ensures forall e :: callbackId.Some? && eventName == Some(EventName(e)) ==>
      r == Register(st, e, callbackId.value, preventDefault)
  {
    if callbackId.None? || eventName.None? then st
    else
      match EventNamed(eventName.value)
      case None => st
      case Some(e) => Register(st, e, callbackId.value, preventDefault)
  }

  /** The callback a delegate for `e` notifies: the saved one, if any. */
  function Notified(st: ViewState, e: Event): (r: Option<string>)
    ensures r.Some? <==> e in st.callbacks
    ensures r.Some? ==> r.value == st.callbacks[e]
  {
    if e in st.callbacks then Some(st.callbacks[e]) else None
  }

  /** `hasCustomInfoWindow(marker:)`. */
  predicate HasCustomInfoWindow(m: Marker) {
    InfoWindowData(m.info).Some?
  }

  /** `hideCustomInfoWindow()`: no window, no selected marker. */
  function Hide(st: ViewState): (r: ViewState)
    ensures r.customInfoWindow.None? && r.currentSelectedMarker.None?
    ensures r == st.(customInfoWindow := None, currentSelectedMarker := None)
  {
    st.(customInfoWindow := None, currentSelectedMarker := None)
  }

  lemma HideIdempotent(st: ViewState)
    ensures Hide(Hide(st)) == Hide(st)
  {
  }

  /**
   * `showCustomInfoWindow(for:)`: the previous window goes, a new one is
   * configured from the marker with the custom-action callback, and the
   * marker becomes the selected one.
   */
  function Show(st: ViewState, m: Marker): (r: ViewState)
    ensures r.currentSelectedMarker == Some(m)
    ensures r.customInfoWindow == Some(Configure(m.info, st.mapId, Notified(st, DidTapCustomInfoWindowAction)))
    ensures r.callbacks == st.callbacks && r.customInfoWindowEnabled == st.customInfoWindowEnabled
  {
    var hidden := Hide(st);
    hidden.(customInfoWindow := Some(Configure(m.info, st.mapId, Notified(st, DidTapCustomInfoWindowAction))),
            currentSelectedMarker := Some(m))
  }

  /** `mapView(_:markerInfoWindow:)`: true when the default window is suppressed. */
  function SuppressesDefaultInfoWindow(st: ViewState, m: Marker): (r: bool)
    ensures r <==> st.customInfoWindowEnabled && HasCustomInfoWindow(m)
  {
    st.customInfoWindowEnabled && HasCustomInfoWindow(m)
  }

  datatype Handled = Handled(state: ViewState, notify: Option<string>, consumed: bool)

  /**
   * `mapView(_:didTap:)`: a marker with custom info-window data becomes
   * selected while custom windows are enabled; otherwise the window is
   * hidden. The tap callback is notified, and the result tells the SDK
   * whether the tap was consumed.
   */
  function DidTapMarkerHandler(st: ViewState, m: Marker): (r: Handled)
    ensures st.customInfoWindowEnabled && HasCustomInfoWindow(m) ==>
      r.state.currentSelectedMarker == Some(m) && r.state.customInfoWindow.Some?
    ensures !(st.customInfoWindowEnabled && HasCustomInfoWindow(m)) ==> r.state == Hide(st)
    ensures r.notify == Notified(st, DidTapMarker)
    ensures r.consumed == st.preventDefaultForDidTapMarker
    ensures r.state.callbacks == st.callbacks
  {
    var next := if st.customInfoWindowEnabled && HasCustomInfoWindow(m) then Show(st, m) else Hide(st);
    Handled(next, Notified(st, DidTapMarker), st.preventDefaultForDidTapMarker)
  }

  /**
   * The custom window only ever shows for a marker that has window data,
   * while custom windows are enabled and the default window is suppressed
   * for it: tapping a marker keeps the two windows from both appearing.
   */
  lemma TapShowsAtMostOneWindow(st: ViewState, m: Marker)
    ensures var r := DidTapMarkerHandler(st, m);
      r.state.currentSelectedMarker == Some(m) <==> SuppressesDefaultInfoWindow(st, m)
  {
  }

  /** `mapView(_:didTapAt:)`: the custom window always closes; the map-tap callback is notified. */
  function DidTapAtHandler(st: ViewState): (r: Handled)
    ensures r.state == Hide(st)
    ensures r.notify == Notified(st, DidTapMap)
    ensures !r.consumed
  {
    Handled(Hide(st), Notified(st, DidTapMap), false)
  }

  /** `didTapMyLocationButton(for:)`: notifies and returns the flag registered with it. */
  function DidTapMyLocationButtonHandler(st: ViewState): (r: Handled)
    ensures r.state == st
    ensures r.notify == Notified(st, DidTapMyLocationButton)
    ensures r.consumed == st.preventDefaultForDidTapMyLocationButton
  {
    Handled(st, Notified(st, DidTapMyLocationButton), st.preventDefaultForDidTapMyLocationButton)
  }

  /** Registering with `preventDefault` is what makes the next tap be consumed. */
  lemma PreventDefaultReachesTap(st: ViewState, id: string, prevent: Option<bool>, m: Marker)
    ensures DidTapMarkerHandler(SetCallbackIdForEvent(st, Some(id), Some("didTapMarker"), prevent), m).consumed
            == prevent.GetOr(false)
    ensures DidTapMyLocationButtonHandler(SetCallbackIdForEvent(st, Some(id), Some("didTapMyLocationButton"), prevent)).consumed
            == prevent.GetOr(false)
    ensures DidTapMarkerHandler(SetCallbackIdForEvent(st, Some(id), Some("didTapMarker"), prevent), m).notify == Some(id)
  {
    assert "didTapMarker" == EventName(DidTapMarker);
    assert "didTapMyLocationButton" == EventName(DidTapMyLocationButton);
  }

  /** `mapView(_:willMove:)`: the reason sent is 1 for a gesture, 2 otherwise, when a callback is saved. */
  function WillMoveReason(st: ViewState, gesture: bool): (r: Option<(string, int)>)
    ensures r.Some? <==> DidBeginMovingCamera in st.callbacks
    ensures r.Some? ==> r.value.0 == st.callbacks[DidBeginMovingCamera]
    ensures r.Some? ==> (r.value.1 == 1 <==> gesture) && (r.value.1 == 2 <==> !gesture)
  {
    if DidBeginMovingCamera in st.callbacks then
      Some((st.callbacks[DidBeginMovingCamera], if gesture then 1 else 2))
    else None
  }

  /** `clearMap()`: with a loaded map, the custom window is hidden too. */
  function ClearMap(st: ViewState): (r: ViewState)
    ensures st.loaded ==> r == Hide(st)
    ensures !st.loaded ==> r == st
  {
    if st.loaded then Hide(st) else st
  }

  /**
   * `triggerInfoWindowClick(for:)`: the custom window when enabled and the
   * marker has data for it, the SDK's own window otherwise.
   */
  function TriggerInfoWindowClick(st: ViewState, m: Marker): (r: ViewState)
    ensures SuppressesDefaultInfoWindow(st, m) ==> r == Show(st, m)
    ensures !SuppressesDefaultInfoWindow(st, m) ==> r == st.(sdkSelectedMarker := Some(m))
  {
    if st.customInfoWindowEnabled && HasCustomInfoWindow(m) then Show(st, m)
    else st.(sdkSelectedMarker := Some(m))
  }

  /**
   * `enableCustomInfoWindows`: sets the flag; turning custom windows off
   * also hides the one showing.
   */
  function EnableCustomInfoWindows(st: ViewState, enabled: bool): (r: ViewState)
    ensures r.customInfoWindowEnabled == enabled
    ensures !enabled ==> r.customInfoWindow.None? && r.currentSelectedMarker.None?
    ensures enabled ==> r == st.(customInfoWindowEnabled := true)
  {
    var st := st.(customInfoWindowEnabled := enabled);
    if !enabled then Hide(st) else st
  }

  /** The view shows a custom window only for a selected marker that has data for one. */
  ghost predicate Consistent(st: ViewState) {
    && (st.customInfoWindow.Some? <==> st.currentSelectedMarker.Some?)
    && (st.currentSelectedMarker.Some? ==> HasCustomInfoWindow(st.currentSelectedMarker.value))
  }

  /** Taps and triggered clicks keep the window and the selected marker together. */
  lemma ConsistentAfterTaps(st: ViewState, m: Marker)
    requires Consistent(st)
    ensures Consistent(DidTapMarkerHandler(st, m).state)
    ensures Consistent(DidTapAtHandler(st).state)
    ensures Consistent(TriggerInfoWindowClick(st, m))
  {
  }

  /**
   * Clearing, toggling and registering keep the window and the selected
   * marker together; after `EnableCustomInfoWindows(false)` no custom
   * window is showing.
   */
  lemma ConsistentAfterSettings(st: ViewState, enabled: bool, id: Option<string>, name: Option<string>,
                                prevent: Option<bool>)
    requires Consistent(st)
    ensures Consistent(ClearMap(st))
    ensures Consistent(EnableCustomInfoWindows(st, enabled))
    ensures Consistent(SetCallbackIdForEvent(st, id, name, prevent))
    ensures !enabled ==> EnableCustomInfoWindows(st, enabled).customInfoWindow.None?
  {
    if id.Some? && name.Some? && EventNamed(name.value).Some? {
      assert name == Some(EventName(EventNamed(name.value).value));
    }
  }
}
