/**
 * The JSON values the web layer hands to the plugin (Capacitor's `JSObject`,
 * `JSArray` and their members) and Swift's conditional casts on them
 * (`as? String`, `as? Double`, `as? Int`, `as? JSObject`, ...).
 *
 * Numbers carry an exact `real`. A number casts to `Double` (and `CGFloat`)
 * always and to `Int` exactly when it is integral; booleans and numbers are
 * kept apart.
 */
module Json {
  import opened Optional

  datatype Json =
    | JNull
    | JBool(b: bool)
    | JNum(n: real)
    | JString(s: string)
    | JArray(items: seq<Json>)
    | JObject(fields: map<string, Json>)

  type Object = map<string, Json>

  /** `object[key]`: absent keys read as `nil`. */
  function Field(o: Object, key: string): Option<Json> {
    if key in o then Some(o[key]) else None
  }

  function AsString(v: Option<Json>): Option<string> {
    if v.Some? && v.value.JString? then Some(v.value.s) else None
  }

  function AsBool(v: Option<Json>): Option<bool> {
    if v.Some? && v.value.JBool? then Some(v.value.b) else None
  }

  function AsDouble(v: Option<Json>): Option<real> {
    if v.Some? && v.value.JNum? then Some(v.value.n) else None
  }

  predicate IsIntegral(r: real) {
    r.Floor as real == r
  }

  function AsInt(v: Option<Json>): Option<int> {
    if v.Some? && v.value.JNum? && IsIntegral(v.value.n) then Some(v.value.n.Floor) else None
  }

  function AsObject(v: Option<Json>): Option<Object> {
    if v.Some? && v.value.JObject? then Some(v.value.fields) else None
  }

  function AsArray(v: Option<Json>): Option<seq<Json>> {
    if v.Some? && v.value.JArray? then Some(v.value.items) else None
  }

  /** `as? [JSObject]`: succeeds only when every element is an object. */
  function ObjectsOf(items: seq<Json>): (r: Option<seq<Object>>)
    ensures r.Some? <==> forall i :: 0 <= i < |items| ==> items[i].JObject?
    ensures r.Some? ==> |r.value| == |items| && forall i :: 0 <= i < |items| ==> r.value[i] == items[i].fields
  {
    if |items| == 0 then Some([])
    else if !items[0].JObject? then None
    else
      match ObjectsOf(items[1..])
      case None => None
      case Some(rest) => Some([items[0].fields] + rest)
  }

  function AsObjectArray(v: Option<Json>): Option<seq<Object>> {
    if v.Some? && v.value.JArray? then ObjectsOf(v.value.items) else None
  }

  /** `as? [String]`: succeeds only when every element is a string. */
  function StringsOf(items: seq<Json>): (r: Option<seq<string>>)
    ensures r.Some? <==> forall i :: 0 <= i < |items| ==> items[i].JString?
    ensures r.Some? ==> |r.value| == |items| && forall i :: 0 <= i < |items| ==> r.value[i] == items[i].s
  {
    if |items| == 0 then Some([])
    else if !items[0].JString? then None
    else
      match StringsOf(items[1..])
      case None => None
      case Some(rest) => Some([items[0].s] + rest)
  }

  function AsStringArray(v: Option<Json>): Option<seq<string>> {
    if v.Some? && v.value.JArray? then StringsOf(v.value.items) else None
  }

  /**
   * `replacingNullValues() as? [JSObject?]`: `null` entries become `nil`;
   * any other non-object entry makes the whole cast fail.
   */
  function OptionalObjectsOf(items: seq<Json>): (r: Option<seq<Option<Object>>>)
    ensures r.Some? <==> forall i :: 0 <= i < |items| ==> items[i].JObject? || items[i].JNull?
    ensures r.Some? ==> |r.value| == |items|
    ensures r.Some? ==> forall i :: 0 <= i < |items| ==>
      r.value[i] == (if items[i].JObject? then Some(items[i].fields) else None)
  {
    if |items| == 0 then Some([])
    else if !(items[0].JObject? || items[0].JNull?) then None
    else
      var head := if items[0].JObject? then Some(items[0].fields) else None;
      match OptionalObjectsOf(items[1..])
      case None => None
      case Some(rest) => Some([head] + rest)
  }
}
