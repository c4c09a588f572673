# capacitor-google-maps (iOS plugin): a Dafny model of its core logic

This project models the parts of the iOS plugin that are self-contained
logic rather than calls into Google Maps or UIKit. Every operation is a
pure function, or a method with loop invariants, over immutable
datatypes. Plugin calls end in a recorded `Reply`: resolved, rejected or
kept open.

- **Encoded-polyline decoder** (`decodePolyline`, module `PolylineCodec`).
  It works in integer 1e-5-degree units. The model has:
  - a functional decoder and the imperative loop mirroring the Swift code;
  - the chunk and zig-zag rules and the prefix-sum property;
  - a reference encoder with the decode/encode round trip.
- **Directions and Places request building** (`DirectionsApi`,
  `PlacesApi`, `Service`, `SharedTypes`). This covers:
  - parameter maps built from optional arguments;
  - `Place.toString`;
  - the status and HTTP outcome to `NSError` mapping;
  - the Places pending-request slot.
- **Map view** (`MapView`): the saved callback id per event, the
  `preventDefault` flags, and the custom info-window state and the
  delegate decisions that read it.
- **Info window** (`InfoWindow`): `safeColorFromHex` and the fallbacks in
  `configure`.
- **Path and object conversions** (`PathJson`, `CustomPolyline`,
  `CustomDirection`).
- **Image cache** (`ImageCache`): routing, cache keys and the hit/miss/store
  discipline, with the network, base64 and SVG rendering as parameters.
- **Plugin object** (`Plugin`):
  - the marker, polygon and polyline registries;
  - `addMarkers` icon grouping;
  - `getDirections` argument parsing and reply;
  - `triggerInfoWindow`, `enableCustomInfoWindows` and event registration.

JSON arguments are the `Json` datatype, with Swift's `as?` casts as
partial accessors. A `Double` is a `real`. Number formatting is a
parameter `fmt: real -> string`, and several lemmas ask only that it
never produces a comma. `baseRequestParameters + [...]` is taken to be a
right-biased dictionary merge (`Service.Merge`), with the base
parameters as an argument.

## Model

| member | source | states |
|---|---|---|
| PolylineCodec.ReadChunk | ios/Plugin/Plugin.swift:17-28 | A chunk read from non-empty text consumes at least one character, so decoding terminates |
| PolylineCodec.ChunkShape | ios/Plugin/Plugin.swift:21-28 | A chunk's value is the 5-bit payloads weighted by powers of 32; it ends at the first character without the 0x20 continuation bit, or at the end of the text |
| PolylineCodec.SignedDelta | ios/Plugin/Plugin.swift:30 | An odd chunk value decodes to a negative delta, an even one to a non-negative delta |
| PolylineCodec.SignedDeltaOfZigZag | ios/Plugin/Plugin.swift:30 | The sign folding is undone by zig-zag encoding: every integer delta survives the round trip |
| PolylineCodec.ZigZagOfSignedDelta | ios/Plugin/Plugin.swift:47 | Every chunk value is the zig-zag code of the delta it decodes to |
| PolylineCodec.Decode | ios/Plugin/Plugin.swift:7-57 | Empty text decodes to no points; decoding never yields more points than characters |
| PolylineCodec.DecodeIsPrefixSums | ios/Plugin/Plugin.swift:31-54 | The k-th decoded point is the running sum of the first k latitude and longitude deltas |
| PolylineCodec.TruncatedPairKeepsLongitude | ios/Plugin/Plugin.swift:36-54 | When the text ends after a latitude chunk, a point is still appended with the longitude unchanged |
| PolylineCodec.EncodeFromDecodable | ios/Plugin/Plugin.swift:23-40 | The reference encoder only produces characters the decoder accepts |
| PolylineCodec.DecodeEncode | ios/Plugin/Plugin.swift:7-57 | Decoding the standard encoding of any point list returns that list |
| PolylineCodec.ReadChunkAt | ios/Plugin/Plugin.swift:17-28 | The inner loop computes exactly the chunk value and the position after it |
| PolylineCodec.DecodePolyline | ios/Plugin/Plugin.swift:7-57 | The imperative decoder computes the same points as the functional decoder |
| SharedTypes.StatusFromRawValue | ios/Plugin/SharedTypes.swift:25-34 | A text parses as a status exactly when it is that status's raw value, so raw values are distinct and each status is recovered from its own |
| SharedTypes.PlaceTextRecoversPlace | ios/Plugin/SharedTypes.swift:62-71 | An address renders unchanged; a place id renders as "place_id:" followed by the id; a coordinate renders as two number texts around a single comma |
| Service.SetAllGiven | ios/Plugin/DirectionsAPI/GoogleMapsDirections.swift:62-108 | Each optional parameter is present exactly when given (or already present) and has the given value; keys no step names keep their values |
| Service.BuildParameters | ios/Plugin/DirectionsAPI/GoogleMapsDirections.swift:55-108 | Fixed parameters always present with their values; optional ones only when given; base parameters kept under every other key |
| DirectionsApi.TravelModeRoundTrip | src/interfaces/models/GoogleMap/Direction/Direction.ts:30-35 | Every travel mode is recovered from its raw value |
| DirectionsApi.RequestParameters | ios/Plugin/DirectionsAPI/GoogleMapsDirections.swift:55-108 | origin, destination, lower-cased mode and optimize=true always present; each optional parameter present exactly when its argument is given |
| DirectionsApi.Direction | ios/Plugin/DirectionsAPI/GoogleMapsDirections.swift:55-108 | The request goes to the directions URL; the two-times warning is logged exactly when both times are given |
| DirectionsApi.WaypointsSplitBack | ios/Plugin/DirectionsAPI/GoogleMapsDirections.swift:62-64 | The waypoints text is present whenever the argument is; no waypoints gives ""; otherwise splitting at '\|' recovers each place text in order |
| DirectionsApi.TimesFollowTravelMode | ios/Plugin/DirectionsAPI/GoogleMapsDirections.swift:86-96 | Arrival and departure times are sent exactly when given and the mode is transit or driving; both may be sent together |
| DirectionsApi.DirectionFromAddresses | ios/Plugin/DirectionsAPI/GoogleMapsDirections.swift:219-250 | The address overload is the main call with string-description places, so origin and destination are the addresses verbatim |
| DirectionsApi.DirectionFromCoordinates | ios/Plugin/DirectionsAPI/GoogleMapsDirections.swift:272-303 | The coordinate overload is the main call with coordinate places |
| DirectionsApi.StatusError | ios/Plugin/DirectionsAPI/GoogleMapsDirections.swift:136-190 | No error exactly for OK; a missing status gives -4 "Status Code not found"; other statuses give codes -5 to -11 with the error message as the failure reason |
| DirectionsApi.StatusErrorCodesDistinct | ios/Plugin/DirectionsAPI/GoogleMapsDirections.swift:136-190 | Two responses with the same error code have the same status |
| DirectionsApi.CompletionClassifiesOutcome | ios/Plugin/DirectionsAPI/GoogleMapsDirections.swift:110-193 | Transport failure gives -1 and no response; a non-dictionary body gives -2; a mapping failure gives -3; an NSNull body gives an empty response and no error; a mapped response carries its status error |
| PlacesApi.AutocompleteParameters | ios/Plugin/PlacesAPI/GooglePlaces.swift:21-47 | "input" always present; offset, location, radius, language, types and components each present exactly when given; base parameters kept otherwise |
| PlacesApi.AutocompleteLocationSplits | ios/Plugin/PlacesAPI/GooglePlaces.swift:29-31 | The location text splits at its comma into the two coordinate texts |
| PlacesApi.DetailsParameters | ios/Plugin/PlacesAPI/GooglePlaces.swift:116-126 | "placeid" always present; extensions and language exactly when given |
| PlacesApi.StatusError | ios/Plugin/PlacesAPI/GooglePlaces.swift:80-98 | No error exactly for OK; every other case gives code -1, described as "Status Code not found" or by the status's raw value |
| PlacesApi.StatusErrorDescriptionIdentifiesStatus | ios/Plugin/PlacesAPI/GooglePlaces.swift:80-98 | Two errors with the same description come from the same status |
| PlacesApi.PlacesCompletionClassifiesOutcome | ios/Plugin/PlacesAPI/GooglePlaces.swift:128-170 | Codes -1, -2 and -3 for transport, non-dictionary and mapping failures, with no response; otherwise the response and its status error |
| PlacesApi.StartAutocomplete | ios/Plugin/PlacesAPI/GooglePlaces.swift:49-54 | A pending request is cancelled only when one exists and automatic cancelling is on; the new request becomes the pending one |
| PlacesApi.OnAutocompleteResponse | ios/Plugin/PlacesAPI/GooglePlaces.swift:55-104 | A cancelled request never completes; only a response that reaches status handling clears the pending slot; error paths leave it |
| PlacesApi.ValidPreserved | ios/Plugin/PlacesAPI/GooglePlaces.swift:49-104 | Request ids stay below the issue counter and the pending request is never a cancelled one |
| PlacesApi.CancelledStaysSilent | ios/Plugin/PlacesAPI/GooglePlaces.swift:56-58 | Once cancelled, a request stays cancelled and its answer never reaches the completion |
| PlacesApi.StartCancelsPrevious | ios/Plugin/PlacesAPI/GooglePlaces.swift:49-52 | Starting with automatic cancelling cancels the previously pending request |
| PlacesApi.AnyAnswerClearsSlot | ios/Plugin/PlacesAPI/GooglePlaces.swift:100-104 | A mapped answer to an older, uncancelled request clears the slot even when a newer request is pending |
| MapView.EventNamed | ios/Plugin/CustomMapView.swift:48-62 | A name selects an event exactly when it is that event's name: the fifteen names are distinct and each selects its own event |
| MapView.Register | ios/Plugin/CustomMapView.swift:162-194 | Only the event's own slot is written; the preventDefault flag changes only for the two events that have one, with nil read as false |
| MapView.RegisterLastWins | ios/Plugin/CustomMapView.swift:162-194 | A later registration for an event replaces an earlier one |
| MapView.RegisterIdempotent | ios/Plugin/CustomMapView.swift:162-194 | Registering the same callback twice is the same as once |
| MapView.RegisterCommutes | ios/Plugin/CustomMapView.swift:162-194 | Registrations for different events commute |
| MapView.SetCallbackIdForEvent | ios/Plugin/CustomMapView.swift:160-196 | A nil callback id, nil name or unknown name changes nothing; a known name registers exactly its event |
| MapView.HideIdempotent | ios/Plugin/CustomMapView.swift:213-217 | Hiding leaves no window and no selected marker, and hiding twice is hiding once |
| MapView.Show | ios/Plugin/CustomMapView.swift:200-211 | The marker becomes selected with a window configured for it and the custom-action callback |
| MapView.SuppressesDefaultInfoWindow | ios/Plugin/CustomMapView.swift:253-270 | The default window is suppressed exactly when custom windows are enabled and the marker has info-window data |
| MapView.DidTapMarkerHandler | ios/Plugin/CustomMapView.swift:303-316 | The marker is shown when enabled and it has data, else the window is hidden; the tap callback is notified; the result is the registered preventDefault flag |
| MapView.TapShowsAtMostOneWindow | ios/Plugin/CustomMapView.swift:265-316 | After a tap, the marker is selected for a custom window exactly when the default window is suppressed for it |
| MapView.DidTapAtHandler | ios/Plugin/CustomMapView.swift:286-294 | Tapping the map always hides the custom window |
| MapView.PreventDefaultReachesTap | ios/Plugin/CustomMapView.swift:170-172 | A tap after registering with preventDefault is consumed exactly when the flag was true |
| MapView.WillMoveReason | ios/Plugin/CustomMapView.swift:369-382 | With a saved callback, the reason is 1 for a gesture and 2 otherwise |
| MapView.ClearMap | ios/Plugin/CustomMapView.swift:128-133 | Clearing a loaded map hides the custom window; without a map nothing changes |
| MapView.TriggerInfoWindowClick | ios/Plugin/CustomMapView.swift:427-436 | The custom window when enabled and the marker has data; otherwise the SDK's own selection |
| MapView.EnableCustomInfoWindows | ios/Plugin/Plugin.swift:644-649 | The flag is set; disabling also hides the window |
| MapView.ConsistentAfterTaps | ios/Plugin/CustomMapView.swift:200-316 | Taps keep the window and the selected marker together, and only a marker with data is selected |
| MapView.ConsistentAfterSettings | ios/Plugin/CustomMapView.swift:128-217 | Clearing, toggling and registering keep that invariant; after disabling, no custom window shows |
| InfoWindow.ScanDigits | ios/Plugin/CustomInfoWindow.swift:268-271 | After the skipped white space, the scan succeeds exactly when the text starts with a hex digit ("0x" needs a digit after it); on all-hex text it yields the text's value |
| InfoWindow.ScanHex | ios/Plugin/CustomInfoWindow.swift:268-271 | The hex scan succeeds exactly when the first non-blank character is a hex digit; on all-hex text it yields the text's value |
| InfoWindow.SafeColorFromHexAsWritten | ios/Plugin/CustomInfoWindow.swift:254-279 | As written: a colour exactly when six characters remain after trimming and dropping one '#' and the scan finds a leading hex digit; it agrees with the corrected parser on all-hex text |
| InfoWindow.AsWrittenAcceptsPartialHex | ios/Plugin/CustomInfoWindow.swift:263-271 | "#12zzzz" is accepted as written (as blue 0x12) but rejected by the corrected parser |
| InfoWindow.SafeColorFromHex | ios/Plugin/CustomInfoWindow.swift:254-279 | A colour exactly when six hex digits remain; red, green and blue are the three digit pairs, each 0..255 |
| InfoWindow.IdeographicSpaceTrimmed | ios/Plugin/CustomInfoWindow.swift:254-258 | Trimming drops every Unicode space separator, so "\u{3000}#123456" parses to (0x12, 0x34, 0x56) with either parser |
| InfoWindow.ComponentsOfPacked | ios/Plugin/CustomInfoWindow.swift:274-276 | Bits 16-23, 8-15 and 0-7 of a packed 24-bit value are the channels it was packed from |
| InfoWindow.HexColourRoundTrip | ios/Plugin/CustomInfoWindow.swift:254-279 | Every colour written as "#RRGGBB" parses back to itself |
| InfoWindow.Configure | ios/Plugin/CustomInfoWindow.swift:98-174 | Title and snippet use the info window's, then the marker's, then "No Title"/"No Description"; sizes, offsets and isSnippetHTML change only when given with the right type; a colour changes only when given as a string that the parser as written accepts |
| InfoWindow.EmptyInfoWindowChangesNothing | ios/Plugin/CustomInfoWindow.swift:20-56 | An empty info-window object keeps every default: black, gray and white colours, sizes 16 and 14, offsets (0, -10) |
| InfoWindow.RejectedColourKeepsDefault | ios/Plugin/CustomInfoWindow.swift:134-144 | A title colour string the parser as written rejects leaves the black default |
| InfoWindow.ConfigureCorrected | ios/Plugin/CustomInfoWindow.swift:134-144 | With the corrected parser the window differs from the as-written one in the three colours only, each taken from the corrected parse or left at its default |
| InfoWindow.ConfigureAgreesWithoutPartialHex | ios/Plugin/CustomInfoWindow.swift:134-144 | Unless a colour string is six characters that are not all hex digits, the as-written and corrected windows are equal |
| InfoWindow.ConfigurePartialHexTitle | ios/Plugin/CustomInfoWindow.swift:134-144 | Title colour "#12zzzz" shows blue 0x12 as written and keeps black when corrected |
| PathJson.JsonFromPath | ios/Plugin/CustomPolyline.swift:71-86 | One object per coordinate in order; no path gives [] |
| PathJson.CoordRoundTrip | ios/Plugin/CustomPolyline.swift:84-98 | A coordinate's JSON object reads back as that coordinate |
| CustomPolyline.WellFormed | ios/Plugin/CustomPolyline.swift:88-98 | Every kept entry has numeric latitude and longitude, and every such entry is kept |
| CustomPolyline.WellFormedSingle | ios/Plugin/CustomPolyline.swift:88-98 | One entry is kept exactly when its latitude and longitude are numbers |
| CustomPolyline.WellFormedAppend | ios/Plugin/CustomPolyline.swift:88-98 | Filtering a concatenation concatenates the filtered parts, so kept entries stay in order with their multiplicity |
| CustomPolyline.PathFromJson | ios/Plugin/CustomPolyline.swift:88-98 | One coordinate per well-formed entry, in order |
| CustomPolyline.PathJsonRoundTrip | ios/Plugin/CustomPolyline.swift:71-98 | Reading a path's JSON gives the path back |
| CustomPolyline.JsonPathRoundTrip | ios/Plugin/CustomPolyline.swift:71-98 | Writing the read path gives the well-formed entries back |
| CustomPolyline.Update | ios/Plugin/CustomPolyline.swift:12-35 | Defaults: path [], width 10, title "", zIndex 1, not geodesic, not tappable; the colour changes only on a string; userData holds the id and the metadata |
| CustomPolyline.ResultEchoesUpdate | ios/Plugin/CustomPolyline.swift:37-61 | The result echoes the map id argument and the polyline id stored by the update |
| CustomDirection.Update | ios/Plugin/CustomDirection.swift:8-31 | Defined exactly when "preferences" is an object (the forced cast traps otherwise); every field falls back to its default |
| CustomDirection.UpdateDefaults | ios/Plugin/CustomDirection.swift:8-31 | Empty preferences give DRIVING, METRIC, no alternatives, no optimisation, zero endpoints and empty texts |
| CustomDirection.PathFromJson | ios/Plugin/CustomDirection.swift:125-133 | One coordinate per entry, a missing or non-number side read as 0; no entry is dropped |
| CustomDirection.PathJsonRoundTrip | ios/Plugin/CustomDirection.swift:109-133 | Reading a path's JSON gives the path back |
| CustomDirection.AgreesOnWellFormedEntries | ios/Plugin/CustomDirection.swift:125-133 | On a well-formed entry it agrees with the polyline conversion |
| ImageCache.DownloadWithKey | ios/Plugin/ImageCache/NativeImageCache.swift:37-59 | A hit returns the cached image with no download; a miss returns the download's result, storing it only on success |
| ImageCache.AsWrittenKeysCollide | ios/Plugin/ImageCache/NativeImageCache.swift:40 | As written, sizes 30x130 and 301x30 of one URL share a key |
| ImageCache.AsWrittenServesWrongSize | ios/Plugin/ImageCache/NativeImageCache.swift:37-59 | As written, loading 301x30 after 30x130 returns the 30x130 image |
| ImageCache.CacheKeyInjective | ios/Plugin/ImageCache/NativeImageCache.swift:40 | With the delimited key, distinct requests have distinct keys |
| ImageCache.DownloadTransparent | ios/Plugin/ImageCache/NativeImageCache.swift:37-59 | With the delimited key, a load returns exactly what downloading would, and the cache stays transparent |
| ImageCache.SecondDownloadHits | ios/Plugin/ImageCache/NativeImageCache.swift:42-44 | A successful download is served from the cache the next time |
| ImageCache.ImageAt | ios/Plugin/ImageCache/NativeImageCache.swift:14-35 | http:/https: text is downloaded under the key as written when it is a URL, else no image; other text is base64-decoded to SVG, else no image |
| ImageCache.ImageAtCorrected | ios/Plugin/ImageCache/NativeImageCache.swift:14-35 | With the delimited key, http:/https: URLs download through it; every other text is handled exactly as as written |
| ImageCache.ImageAtServesWrongSize | ios/Plugin/ImageCache/NativeImageCache.swift:14-59 | As written, loading a URL at 301x30 after 30x130 returns the 30x130 image; with the delimited key it returns the 301x30 image |
| ImageCache.ImageAtCorrectedTransparent | ios/Plugin/ImageCache/NativeImageCache.swift:14-59 | With the delimited key, a loaded URL image is what fetching it gives, and the cache stays transparent |
| ImageCache.ProcessSvg | ios/Plugin/ImageCache/NativeImageCache.swift:61-83 | The SVG path never writes the cache |
| ImageCache.SvgNeverCached | ios/Plugin/ImageCache/NativeImageCache.swift:61-83 | Since only downloads store, the SVG lookup never hits and every SVG image is rendered afresh |
| ImageCache.ClearForcesFetch | ios/Plugin/ImageCache/NativeImageCache.swift:85-88 | After clearing, the next download fetches afresh |
| Plugin.Remove | ios/Plugin/Plugin.swift:382-396 | A present id is removed and the call resolved; an absent one is rejected "<kind> not found"; other ids are untouched |
| Plugin.RemoveMarker | ios/Plugin/Plugin.swift:382-396 | Resolved exactly when the marker exists, else rejected "marker not found"; only the marker registry changes |
| Plugin.RemovePolygon | ios/Plugin/Plugin.swift:441-454 | Resolved exactly when the polygon exists, else rejected "polygon not found"; only the polygon registry changes |
| Plugin.RemovePolyline | ios/Plugin/Plugin.swift:478-491 | Resolved exactly when the polyline exists, else rejected "polyline not found"; only the polyline registry changes |
| Plugin.AddPolyline | ios/Plugin/Plugin.swift:770-783 | The updated polyline is registered under its own id; other ids are untouched |
| Plugin.RemoveUndoesAdd | ios/Plugin/Plugin.swift:478-491 | Removing a polyline just added under a fresh id restores the state; removing it again is rejected |
| Plugin.UnsizedIconDefaults | ios/Plugin/Plugin.swift:703-739 | An icon without a size loads at 30x30 when added and 130x130 when updated |
| Plugin.GroupKey | ios/Plugin/Plugin.swift:310-328 | The key is "" exactly for markers without an icon URL; otherwise it is the image cache's download key for that icon |
| Plugin.GroupsPartition | ios/Plugin/Plugin.swift:310-328 | Every marker is in its own key's group and each group holds only that key's markers |
| Plugin.GroupByIcon | ios/Plugin/Plugin.swift:310-328 | One group per occurring key, holding that key's markers in order |
| Plugin.WaypointOf | ios/Plugin/Plugin.swift:515-527 | A coordinate when both sides are numbers, else an address when it is a string, else dropped |
| Plugin.ParseWaypoints | ios/Plugin/Plugin.swift:513-529 | All classified entries are kept one for one in order; if none is classified, the result is empty |
| Plugin.ParseWaypointsAppend | ios/Plugin/Plugin.swift:513-529 | Parsing a concatenation concatenates the parses, so order is kept |
| Plugin.TravelModeArg | ios/Plugin/Plugin.swift:499-500 | Driving unless a known raw value is given, and then that mode |
| Plugin.TravelModeArgRoundTrip | ios/Plugin/Plugin.swift:499-500 | Each mode passed by its raw value is the mode requested |
| Plugin.EndpointArg | ios/Plugin/Plugin.swift:496-497 | Origin and destination are coordinates with each missing side read as 0 |
| Plugin.IgnoredArgumentsDontMatter | ios/Plugin/Plugin.swift:502-537 | Changing any argument other than origin, destination, travelMode or waypoints leaves the request unchanged |
| Plugin.DirectionsRequestShape | ios/Plugin/Plugin.swift:533-537 | The waypoints parameter is always sent; alternatives, avoid and the times only when the base parameters carry them |
| Plugin.DirectionsReplyOf | ios/Plugin/Plugin.swift:538-550 | The call resolves exactly on an OK status and is never rejected |
| Plugin.DirectionsFailuresStaySilent | ios/Plugin/Plugin.swift:538-550 | Transport, body and mapping failures leave the call unanswered |
| Plugin.TriggerInfoWindow | ios/Plugin/Plugin.swift:554-576 | "Missing mapId or markerId", then "Map not found", then "Marker not found"; resolved exactly when all exist, with the map view handling the click; rejections change nothing |
| Plugin.EnableDefaultsToOn | ios/Plugin/Plugin.swift:634-655 | Without "enabled", the call turns custom windows on and resolves with enabled=true |
| Plugin.EnableCustomInfoWindows | ios/Plugin/Plugin.swift:634-655 | An unknown map is rejected "map not found"; otherwise the flag is set and the call resolves with it |
| Plugin.SetCallbackIdForEvent | ios/Plugin/Plugin.swift:661-674 | An unknown map is rejected; otherwise the call stays open and its id is saved with preventDefault (false when absent) |
| Plugin.EventMethodsRegister | ios/Plugin/Plugin.swift:578-659 | Every event method registers its own event on the map view |
| Text.SplitJoin | ios/Plugin/DirectionsAPI/GoogleMapsDirections.swift:62-72 | Splitting a '\|'-joined list of '\|'-free texts recovers the list |
| Text.IntToDecimalInjective | ios/Plugin/ImageCache/NativeImageCache.swift:40 | Distinct integers render to distinct decimal texts |
| Json.ObjectsOf | ios/Plugin/CustomPolyline.swift:88-89 | The array cast succeeds exactly when every element is an object, keeping them in order |

## Left out

- PolylineCodec.Decode: requires every character to be in 63..318, because outside that range the Swift code traps on an out-of-range `UInt8` conversion. Swift's 64-bit `Int` is not modelled either: the shift wraps to 0 after 13 chunk characters, and the running sums trap on overflow. The model uses unbounded integers.
- The decoder's division by 1e5 and the `/255` colour scaling are floating point and are not modelled. Coordinates stay in 1e-5 units and channels in 0..255.
- Number-to-text formatting of coordinates is a parameter, not a definition.
- NSNumber bridging is simplified: a number always casts to `Double`, and to `Int` exactly when integral; booleans and numbers never cast to each other.
- InfoWindow.ScanHex: `Scanner.scanHexInt32` is a Foundation call. It is modelled as skipping leading whitespace, then an optional `0x`/`0X` before a hex digit, then the longest run of hex digits.
- InfoWindow.SafeColorFromHexAsWritten: `hex.count == 6` counts Swift `Character`s, which are grapheme clusters; the model counts Unicode scalars. The two differ on multi-scalar clusters such as "\r\n" or a letter with a combining mark: "12\r\n456" is six Characters in Swift but seven scalars here. Grapheme segmentation is a Unicode table outside the model.
- The HTTP layer is outside the model: Alamofire, ObjectMapper's response mapping and the JSON decoding. Each outcome is one value of `Service.HttpOutcome`.
- The image-loading libraries are outside the model: SDWebImage downloads and resizing, SVGKit rendering and `Data(base64Encoded:)`. They are the functions in `ImageCache.Env`, with a successful download taken to depend only on URL and size.
- ImageCache: `URL.absoluteString` is taken to equal the text the URL was parsed from.
- ImageCache: `NSCache` eviction is not modelled; an entry stays until `clear`.
- ImageCache.Clear: the completion callback is not modelled; clearing is its result map.
- Dispatch-queue hops are concurrency and are not modelled. Each call runs to completion in one step.
- Capacitor's saved and kept-alive calls are not modelled; a reply is recorded as `Plugin.Reply`.
- The Places response race is simplified: a cancelled request is taken always to report cancellation. An answer that arrives after a cancellation is otherwise handled normally.
- `addMarkers`' per-group preload and `addMarker`/`updateMarker` are not modelled. Building a marker from its data is `CustomMarker.updateFromJSObject`, which is not part of this model, and the icon images go through the image cache. The grouping key and the icon sizes are modelled.
- `addPolygon` is not modelled. Polygons are kept only as the data they were built from, because `CustomPolygon` is not part of this model.
- `CustomDirection.getResultForDirection` is not modelled: it is unfinished and built on a type that is not part of this model. `getDirections` resolves with the response itself.
- Camera movement, map creation and layout are not modelled. That includes `updateCustomInfoWindowPosition`, HTML snippets and `getResultForMarker`.
- Location services are not modelled.
- The TypeScript sources contain no behaviour. The web implementation only throws, and the rest are declarations; only the travel-mode raw values are taken from them.
- CustomPolyline.Update: requires the `zIndex` to fit in 32 bits, because `Int32(...)` traps otherwise.
- CustomPolyline.GetResult: the colour's hex rendering is floating point and is omitted from the result.
- InfoWindow.Configure: font objects, `UIColor` values and layout are abstracted. The model keeps sizes, offsets and colours as values.

## Findings

| source | as written | input that shows it | evidently intended | confidence | as-written member | corrected member |
|---|---|---|---|---|---|---|
| ios/Plugin/CustomInfoWindow.swift:263-271 | The length check counts six characters, but `scanHexInt32` succeeds on any leading hex digits, so a partly non-hex string parses | "#12zzzz" gives blue 0x12 instead of the black, gray or white fallback | Accept only six hex digits | medium, not executed | InfoWindow.ConfigurePartialHexTitle | InfoWindow.ConfigureCorrected |
| ios/Plugin/ImageCache/NativeImageCache.swift:40 | The download key runs URL, width and height together with no separator | The same URL at 30x130 and at 301x30 gives key "…30130" both times, so the second load returns the first image | One cache entry per URL and size | high, not executed | ImageCache.ImageAtServesWrongSize | ImageCache.ImageAtCorrectedTransparent |

The operations the plugin calls model the code as written. Each corrected behaviour sits next to them:
- `InfoWindow.Configure` parses colours with `InfoWindow.SafeColorFromHexAsWritten`. `InfoWindow.ConfigureCorrected` uses `InfoWindow.SafeColorFromHex` instead. `InfoWindow.ConfigurePartialHexTitle` shows where the two differ, and `InfoWindow.ConfigureAgreesWithoutPartialHex` shows they agree everywhere else.
- `ImageCache.ImageAt` downloads under `ImageCache.CacheKeyAsWritten`. `ImageCache.ImageAtCorrected` downloads through `ImageCache.Download`, keyed by `ImageCache.CacheKey` (URL, '@', width, 'x', height), and `ImageCache.CacheKeyInjective` proves that key one-to-one. `ImageCache.ImageAtServesWrongSize` shows the two on the colliding sizes.
