/**
 * What the Directions and Places clients share: the request parameter map,
 * the errors they report and the outcomes of an HTTP round trip. The
 * `GoogleMapsService` base class that holds `baseRequestParameters` is not
 * part of this model; its parameters are passed in as a map.
 */
module Service {
  import opened Optional
  import opened SharedTypes

  /** A request parameter value: Alamofire receives strings, booleans and integers. */
  datatype Param = PStr(s: string) | PBool(b: bool) | PInt(i: int)

  type Params = map<string, Param>

  /**
   * `baseRequestParameters + [...]`: the operator is defined outside this
   * model and is taken to be a merge in which the right-hand side wins.
   */
  function Merge(base: Params, fixed: Params): (r: Params)
    ensures r.Keys == base.Keys + fixed.Keys
    ensures forall k :: k in fixed ==> r[k] == fixed[k]
    ensures forall k :: k in base && k !in fixed ==> r[k] == base[k]
  {
    base + fixed
  }

  /** `if let v = v { parameters[key] = v }`. */
  function SetIfGiven(m: Params, key: string, v: Option<Param>): (r: Params)
    ensures key in r <==> key in m || v.Some?
    ensures v.Some? ==> r[key] == v.value
    ensures v.None? ==> r == m
    ensures forall k :: k in m && k != key ==> k in r && r[k] == m[k]
    ensures r.Keys <= m.Keys + {key}
  {
    if v.Some? then m[key := v.value] else m
  }

  /**
   * After building `p` on top of `base`, the optional parameter `key` is
   * present exactly when its argument was given (or `base` already had it),
   * and then holds the argument's value.
   */
  ghost predicate SetOnlyIfGiven(base: Params, p: Params, key: string, v: Option<Param>) {
    && (key in p <==> key in base || v.Some?)
    && (v.Some? ==> p[key] == v.value)
    && (v.None? && key in base ==> p[key] == base[key])
  }

  /** One `if let v = v { parameters[key] = v }` step, by key. */
  datatype Entry = Entry(key: string, value: Option<Param>)

  ghost predicate DistinctKeys(entries: seq<Entry>) {
    forall i, j :: 0 <= i < j < |entries| ==> entries[i].key != entries[j].key
  }

  function KeysOf(entries: seq<Entry>): set<string> {
    set i | 0 <= i < |entries| :: entries[i].key
  }

  /**
   * The optional parameters applied in order: each key is present exactly
   * when its argument was given or `m` already had it, and every key of `m`
   * that no entry names keeps its value.
   */
  function SetAllGiven(m: Params, entries: seq<Entry>): (r: Params)
    requires DistinctKeys(entries)
    ensures forall i :: 0 <= i < |entries| ==> SetOnlyIfGiven(m, r, entries[i].key, entries[i].value)
    ensures forall k :: k in r ==> k in m || k in KeysOf(entries)
    ensures forall k :: k in m && k !in KeysOf(entries) ==> k in r && r[k] == m[k]
    decreases |entries|
  {
    if entries == [] then m
    else
      var m' := SetIfGiven(m, entries[0].key, entries[0].value);
      var r := SetAllGiven(m', entries[1..]);
      assert forall i :: 1 <= i < |entries| ==> entries[i] == entries[1..][i - 1];
      assert KeysOf(entries) == {entries[0].key} + KeysOf(entries[1..]);
      r
  }

  /**
   * `var parameters = base + fixed` followed by the optional steps: the
   * fixed parameters always, each optional one exactly when given, and the
   * base parameters under every other key.
   */
  function BuildParameters(base: Params, fixed: Params, entries: seq<Entry>): (p: Params)
    requires DistinctKeys(entries)
    requires KeysOf(entries) !! fixed.Keys
    ensures forall k :: k in fixed ==> k in p && p[k] == fixed[k]
    ensures forall i :: 0 <= i < |entries| ==> SetOnlyIfGiven(base, p, entries[i].key, entries[i].value)
    ensures forall k :: k in p ==> k in base || k in fixed || k in KeysOf(entries)
    ensures forall k :: k in base && k !in fixed && k !in KeysOf(entries) ==> k in p && p[k] == base[k]
  {
    var p0 := Merge(base, fixed);
    var p := SetAllGiven(p0, entries);
    assert forall i :: 0 <= i < |entries| ==> entries[i].key in KeysOf(entries) && entries[i].key !in fixed;
    p
  }

  /** `NSError(domain:code:userInfo:)` with the two user-info keys the clients set. */
  datatype NSError = NSError(domain: string, code: int, description: Option<string>, failureReason: Option<string>)

  /** The part of a mapped response the clients read: `status` and `error_message`. */
  datatype ServiceResponse = ServiceResponse(status: Option<StatusCode>, errorMessage: Option<string>)

  /** What Alamofire and ObjectMapper hand back for one request. */
  datatype HttpOutcome =
    | TransportFailure            // `response.error` is set
    | NullBody                    // the body is JSON `null`
    | NonDictionaryBody           // the body is JSON but not an object
    | UnmappableBody              // `Mapper().map(JSON:)` returns nil
    | Mapped(response: ServiceResponse)

  /** The two arguments a client passes to its `completion` block. */
  datatype Completion = Completion(response: Option<ServiceResponse>, error: Option<NSError>)
}
