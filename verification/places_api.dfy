/**
 * The Places web-service client: autocomplete and place-details parameter
 * maps, the status-to-error mapping, and the single pending-request slot that
 * lets a new autocomplete request cancel the previous one.
 */
module PlacesApi {
  import opened Optional
  import opened Text
  import opened SharedTypes
  import opened Service

  const AutocompleteUrl := "https://maps.googleapis.com/maps/api/place/autocomplete/json"
  const DetailsUrl := "https://maps.googleapis.com/maps/api/place/details/json"
  const ErrorDomain := "GooglePlacesError"

  /** The optional arguments of `placeAutocomplete(forInput:...)`; place types as raw values. */
  datatype AutocompleteOptions = AutocompleteOptions(
    offset: Option<int>,
    location: Option<Coordinate>,
    radius: Option<int>,
    language: Option<string>,
    types: Option<seq<string>>,
    components: Option<string>)

  function IntParam(v: Option<int>): Option<Param> {
    if v.Some? then Some(PInt(v.value)) else None
  }

  function StrParam(v: Option<string>): Option<Param> {
    if v.Some? then Some(PStr(v.value)) else None
  }

  function AutocompleteEntries(o: AutocompleteOptions, fmt: real -> string): (entries: seq<Entry>)
    ensures DistinctKeys(entries)
    ensures "input" !in KeysOf(entries)
  {
    [ Entry("offset", IntParam(o.offset)),
      Entry("location", if o.location.Some? then Some(PStr(CoordinateText(o.location.value, fmt))) else None),
      Entry("radius", IntParam(o.radius)),
      Entry("language", StrParam(o.language)),
      Entry("types", if o.types.Some? then Some(PStr(Join(o.types.value, "|"))) else None),
      Entry("components", StrParam(o.components)) ]
  }

  /**
   * The autocomplete parameters: `input` always, each optional argument
   * exactly when given (the location as `latitude,longitude`, the types
   * joined by `|`), and the base parameters under every other key.
   */
  function AutocompleteParameters(base: Params, input: string, o: AutocompleteOptions, fmt: real -> string): (p: Params)
    ensures "input" in p && p["input"] == PStr(input)
    ensures var entries := AutocompleteEntries(o, fmt);
      forall i :: 0 <= i < |entries| ==> SetOnlyIfGiven(base, p, entries[i].key, entries[i].value)
    ensures forall k :: k in p ==> k in base || k == "input" || k in KeysOf(AutocompleteEntries(o, fmt))
    ensures forall k :: (k in base && k != "input" && k !in KeysOf(AutocompleteEntries(o, fmt))) ==>
      k in p && p[k] == base[k]
  {
    BuildParameters(base, map["input" := PStr(input)], AutocompleteEntries(o, fmt))
  }

  /** The location parameter splits back into the two coordinates. */
  lemma AutocompleteLocationSplits(base: Params, input: string, o: AutocompleteOptions, fmt: real -> string)
    requires o.location.Some? && CommaFree(fmt)
    ensures var p := AutocompleteParameters(base, input, o, fmt);
      && "location" in p && p["location"].PStr?
      && Split(p["location"].s, ',') == [fmt(o.location.value.latitude), fmt(o.location.value.longitude)]
  {
    var p := AutocompleteParameters(base, input, o, fmt);
    var entries := AutocompleteEntries(o, fmt);
    assert SetOnlyIfGiven(base, p, entries[1].key, entries[1].value);
    PlaceTextRecoversPlace(CoordinatePlace(o.location.value), fmt);
  }

  function DetailsEntries(extensions: Option<string>, language: Option<string>): (entries: seq<Entry>)
    ensures DistinctKeys(entries)
    ensures "placeid" !in KeysOf(entries)
  {
    [ Entry("extensions", StrParam(extensions)), Entry("language", StrParam(language)) ]
  }

  /** The place-details parameters: `placeid` always, extensions and language exactly when given. */
  function DetailsParameters(base: Params, placeId: string, extensions: Option<string>, language: Option<string>): (p: Params)
    ensures "placeid" in p && p["placeid"] == PStr(placeId)
    ensures SetOnlyIfGiven(base, p, "extensions", StrParam(extensions))
    ensures SetOnlyIfGiven(base, p, "language", StrParam(language))
    ensures forall k :: k in p ==> k in base || k in {"placeid", "extensions", "language"}
  {
    var entries := DetailsEntries(extensions, language);
    var p := BuildParameters(base, map["placeid" := PStr(placeId)], entries);
    assert KeysOf(entries) == {"extensions", "language"} by {
      assert entries[0].key == "extensions" && entries[1].key == "language";
    }
    assert SetOnlyIfGiven(base, p, entries[0].key, entries[0].value);
    assert SetOnlyIfGiven(base, p, entries[1].key, entries[1].value);
    p
  }

  /**
   * The error for a mapped response: none for `OK`; otherwise always code -1,
   * described as "Status Code not found" without a status and by the status's
   * raw value with one. Localisation lookups return their default value.
   */
  function StatusError(r: ServiceResponse): (e: Option<NSError>)
    ensures e.None? <==> r.status == Some(Ok)
    ensures e.Some? ==> e.value.domain == ErrorDomain && e.value.code == -1
    ensures r.status.None? ==> e.value.description == Some("Status Code not found")
                               && e.value.failureReason == Some("Status Code not found")
    ensures r.status.Some? && r.status.value != Ok ==>
      e.value.description == Some(StatusRawValue(r.status.value))
      && e.value.failureReason == Some(r.errorMessage.GetOr(""))
  {
    match r.status
    case None => Some(NSError(ErrorDomain, -1, Some("Status Code not found"), Some("Status Code not found")))
    case Some(s) =>
      if s == Ok then None
      else Some(NSError(ErrorDomain, -1, Some(StatusRawValue(s)), Some(r.errorMessage.GetOr(""))))
  }

  /** The code is always -1, but the description still tells the failing statuses apart. */
  lemma StatusErrorDescriptionIdentifiesStatus(a: ServiceResponse, b: ServiceResponse)
    requires StatusError(a).Some? && StatusError(b).Some?
    requires StatusError(a).value.description == StatusError(b).value.description
    ensures a.status == b.status
  {
  }

  /**
   * The completion for an answered (not cancelled) request, shared by
   * autocomplete and details: a JSON `null` body is not a dictionary here.
   */
  function PlacesCompletion(o: HttpOutcome): (c: Completion)
    ensures o.TransportFailure? ==> c == Completion(None, Some(NSError(ErrorDomain, -1, None, None)))
    ensures o.NullBody? || o.NonDictionaryBody? ==> c == Completion(None, Some(NSError(ErrorDomain, -2, None, None)))
    ensures o.UnmappableBody? ==> c == Completion(None, Some(NSError(ErrorDomain, -3, None, None)))
    ensures o.Mapped? ==> c.response == Some(o.response) && c.error == StatusError(o.response)
  {
    match o
    case TransportFailure => Completion(None, Some(NSError(ErrorDomain, -1, None, None)))
    case NullBody => Completion(None, Some(NSError(ErrorDomain, -2, None, None)))
    case NonDictionaryBody => Completion(None, Some(NSError(ErrorDomain, -2, None, None)))
    case UnmappableBody => Completion(None, Some(NSError(ErrorDomain, -3, None, None)))
    case Mapped(r) => Completion(Some(r), StatusError(r))
  }

  /** A completion carries a response exactly when the body was mapped, and then no error iff `OK`. */
  lemma PlacesCompletionClassifiesOutcome(o: HttpOutcome)
    ensures var c := PlacesCompletion(o);
      && (c.response.Some? <==> o.Mapped?)
      && (c.error.None? <==> o.Mapped? && o.response.status == Some(Ok))
      && (c.response.None? ==> c.error.value.code in {-1, -2, -3})
  {
  }

  /**
   * The static `pendingRequest` slot. Requests are numbered in the order they
   * are issued; `cancelled` holds those whose `cancel()` was called.
   */
  datatype PlacesState = PlacesState(pending: Option<nat>, cancelled: set<nat>, issued: nat)

  const Initial := PlacesState(None, {}, 0)

  /** Requests only name issued ids, and the pending one has not been cancelled. */
  ghost predicate Valid(st: PlacesState) {
    && (st.pending.Some? ==> st.pending.value < st.issued && st.pending.value !in st.cancelled)
    && (forall id :: id in st.cancelled ==> id < st.issued)
  }

  datatype Started = Started(state: PlacesState, request: nat)

  /**
   * `placeAutocomplete(...)` issuing its request: the previous pending
   * request is cancelled only when there is one and automatic cancellation
   * is on; either way the new request becomes the pending one.
   */
  function StartAutocomplete(st: PlacesState, cancelPendingRequestsAutomatically: bool): (r: Started)
    ensures r.request == st.issued && r.state.issued == st.issued + 1
    ensures r.state.pending == Some(r.request)
    ensures st.pending.Some? && cancelPendingRequestsAutomatically ==>
      r.state.cancelled == st.cancelled + {st.pending.value}
    ensures !(st.pending.Some? && cancelPendingRequestsAutomatically) ==> r.state.cancelled == st.cancelled
  {
    var cancelled := if st.pending.Some? && cancelPendingRequestsAutomatically
                     then st.cancelled + {st.pending.value} else st.cancelled;
    Started(PlacesState(Some(st.issued), cancelled, st.issued + 1), st.issued)
  }

  datatype Answered = Answered(state: PlacesState, completion: Option<Completion>)

  /**
   * The response handler of request `id`: a cancelled request ends silently;
   * the error paths report without touching the slot; a mapped response
   * clears the slot, then reports.
   */
  function OnAutocompleteResponse(st: PlacesState, id: nat, o: HttpOutcome): (r: Answered)
    ensures id in st.cancelled ==> r == Answered(st, None)
    ensures id !in st.cancelled ==> r.completion == Some(PlacesCompletion(o))
    ensures id !in st.cancelled && o.Mapped? ==> r.state == st.(pending := None)
    ensures !o.Mapped? ==> r.state == st
  {
    if id in st.cancelled then Answered(st, None)
    else if o.Mapped? then Answered(st.(pending := None), Some(PlacesCompletion(o)))
    else Answered(st, Some(PlacesCompletion(o)))
  }

  /** Both transitions keep the slot consistent. */
  lemma ValidPreserved(st: PlacesState, cancelPendingRequestsAutomatically: bool, id: nat, o: HttpOutcome)
    requires Valid(st)
    ensures Valid(StartAutocomplete(st, cancelPendingRequestsAutomatically).state)
    ensures Valid(OnAutocompleteResponse(st, id, o).state)
  {
  }

  /**
   * Once a request has been cancelled its completion is never called, and
   * nothing (not another start, not another response) takes the
   * cancellation back.
   */
  lemma CancelledStaysSilent(st: PlacesState, id: nat, cancel: bool, other: nat, o: HttpOutcome, o2: HttpOutcome)
    requires id in st.cancelled
    ensures OnAutocompleteResponse(st, id, o).completion.None?
    ensures id in StartAutocomplete(st, cancel).state.cancelled
    ensures id in OnAutocompleteResponse(st, other, o2).state.cancelled
  {
  }

  /**
   * With automatic cancellation on, starting a request leaves at most one
   * request live: every earlier request is cancelled or already answered.
   */
  lemma StartCancelsPrevious(st: PlacesState)
    requires Valid(st) && st.pending.Some?
    ensures var r := StartAutocomplete(st, true);
      st.pending.value in r.state.cancelled && r.state.pending == Some(r.request) && r.request !in r.state.cancelled
  {
  }

  /**
   * The slot is cleared by whichever request is answered, not only by the
   * pending one: after starting a second request without automatic
   * cancellation, the first one's answer empties the slot, so a later
   * automatic cancellation no longer reaches the second request.
   */
  lemma AnyAnswerClearsSlot(r: ServiceResponse)
    ensures var s1 := StartAutocomplete(Initial, true);
      var s2 := StartAutocomplete(s1.state, false);
      var a := OnAutocompleteResponse(s2.state, s1.request, Mapped(r));
      var s3 := StartAutocomplete(a.state, true);
      && s2.state.pending == Some(s2.request)
      && a.state.pending.None?
      && s2.request !in s3.state.cancelled
  {
  }
}
