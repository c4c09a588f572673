/**
 * Google's Encoded Polyline Algorithm Format, as decoded by the plugin's
 * `decodePolyline`.
 *
 * Each coordinate delta is zig-zag folded into a natural number, cut into
 * 5-bit groups least significant first, and every group is written as one
 * character: the group plus 0x20 when more groups follow, then plus 63.
 * Points alternate a latitude and a longitude delta; a point is the running
 * sum of the deltas so far. Coordinates stay integers in units of 1e-5
 * degrees (the division by 1e5 into a `Double` is not modelled).
 */
module PolylineCodec {

  /** A decoded coordinate, both components in units of 1e-5 degrees. */
  datatype LatLngE5 = LatLngE5(lat: int, lng: int)

  /** A chunk read from the front of a text: its value and the text after it. */
  datatype Chunk = Chunk(value: nat, rest: string)

  /**
   * Characters the decoder accepts. Below '?' the subtraction of 63 from an
   * unsigned scalar traps, above scalar 318 the conversion to `UInt8` traps.
   */
  predicate DecodableChar(c: char) {
    63 <= c as int <= 318
  }

  predicate Decodable(s: string) {
    forall i :: 0 <= i < |s| ==> DecodableChar(s[i])
  }

  /**
   * The byte a character stands for: its scalar minus 63. Outside the
   * decodable range the source traps; `Decode` excludes those characters,
   * so the 0 given there is never observed.
   */
  function ByteOf(c: char): (b: nat)
    ensures b < 256
    ensures DecodableChar(c) ==> b == c as int - 63
  {
    if DecodableChar(c) then c as int - 63 else 0
  }

  /** `byte & 0x1F`: the five payload bits of a byte. */
  function Payload(b: nat): nat {
    b % 32
  }

  /** `byte >= 0x20`: whether another chunk character follows. */
  predicate Continues(b: nat) {
    b >= 32
  }

  function Pow32(k: nat): (p: nat)
    ensures p >= 1
  {
    if k == 0 then 1 else 32 * Pow32(k - 1)
  }

  /**
   * Reads one variable-length value from the front of `s`. The chunk ends
   * after the first character without the continuation bit, or at the end
   * of the text; an empty text reads as 0.
   */
  function ReadChunk(s: string): (r: Chunk)
    ensures |r.rest| <= |s|
    ensures |s| > 0 ==> |r.rest| < |s|
    decreases |s|
  {
    if |s| == 0 then Chunk(0, s)
    else
      var b := ByteOf(s[0]);
      if Continues(b) then
        var tail := ReadChunk(s[1..]);
        Chunk(Payload(b) + 32 * tail.value, tail.rest)
      else
        Chunk(Payload(b), s[1..])
  }

  /** `(r & 1) != 0 ? ~(r >> 1) : (r >> 1)`: undoes the zig-zag folding. */
  function SignedDelta(r: nat): (d: int)
    ensures d < 0 <==> r % 2 == 1
  {
    if r % 2 == 1 then -(r / 2) - 1 else r / 2
  }

  /** The zig-zag folding an encoder applies: non-negative to even, negative to odd. */
  function ZigZag(d: int): (r: nat)
    ensures r % 2 == 1 <==> d < 0
  {
    if d < 0 then -2 * d - 1 else 2 * d
  }

  /** A pair of decoded deltas: what one outer iteration adds to the running sums. */
  datatype Delta = Delta(dlat: int, dlng: int)

  /** One outer iteration's reading: a latitude chunk, a longitude chunk, and the text after them. */
  datatype Pair = Pair(delta: Delta, rest: string)

  function ReadPair(s: string): (r: Pair)
    requires |s| > 0
    ensures |r.rest| < |s|
  {
    var latChunk := ReadChunk(s);
    var lngChunk := ReadChunk(latChunk.rest);
    Pair(Delta(SignedDelta(latChunk.value), SignedDelta(lngChunk.value)), lngChunk.rest)
  }

  /** The point one outer iteration appends, from the running sums `lat`, `lng`, and where the next one starts. */
  datatype Step = Step(point: LatLngE5, rest: string)

  function NextPoint(s: string, lat: int, lng: int): (r: Step)
    requires |s| > 0
    ensures |r.rest| < |s|
  {
    var pair := ReadPair(s);
    Step(LatLngE5(lat + pair.delta.dlat, lng + pair.delta.dlng), pair.rest)
  }

  /** Decoding from `s` with running sums `lat`, `lng`; every step consumes a latitude and a longitude chunk. */
  function DecodeFrom(s: string, lat: int, lng: int): (pts: seq<LatLngE5>)
    ensures |pts| <= |s|
    ensures |s| > 0 <==> |pts| > 0
    decreases |s|
  {
    if |s| == 0 then []
    else
      var step := NextPoint(s, lat, lng);
      [step.point] + DecodeFrom(step.rest, step.point.lat, step.point.lng)
  }

  /** `decodePolyline`, in integer units: empty for the empty text, otherwise 1 to |s| points. */
  function Decode(s: string): (pts: seq<LatLngE5>)
    requires Decodable(s)
    ensures |pts| <= |s|
    ensures s == [] <==> pts == []
  {
    DecodeFrom(s, 0, 0)
  }

  // ---------------------------------------------------------------------
  // The decoder as the source writes it: index-based loops.
  // ---------------------------------------------------------------------

  // ---------------------------------------------------------------------
  // What a chunk is.
  // ---------------------------------------------------------------------

  /**
   * The bits of a chunk: payload k shifted left by 5 k, OR-ed together.
   * The fields never overlap, so OR is addition.
   */
  function WeightedPayload(t: string): nat {
    if |t| == 0 then 0
    else WeightedPayload(t[..|t| - 1]) + Payload(ByteOf(t[|t| - 1])) * Pow32(|t| - 1)
  }

  lemma MulBy32(x: int, y: int)
    ensures x * (32 * y) == 32 * (x * y)
  {
  }

  lemma {:induction false} WeightedPayloadCons(c: char, t: string)
    ensures WeightedPayload([c] + t) == Payload(ByteOf(c)) + 32 * WeightedPayload(t)
    decreases |t|
  {
    if |t| > 0 {
      var u := [c] + t;
      var init := t[..|t| - 1];
      var x: int := Payload(ByteOf(t[|t| - 1]));
      var y: int := Pow32(|t| - 1);
      assert u[..|u| - 1] == [c] + init;
      assert u[|u| - 1] == t[|t| - 1];
      WeightedPayloadCons(c, init);
      assert WeightedPayload(u) == WeightedPayload([c] + init) + x * (32 * y);
      MulBy32(x, y);
      assert WeightedPayload(t) == WeightedPayload(init) + x * y;
    } else {
      assert [c] + t == [c];
      assert ([c] + t)[..0] == [];
    }
  }

  /** The text after a chunk is a proper suffix of a non-empty text. */
  lemma {:induction false} ChunkRest(s: string)
    ensures var n := |s| - |ReadChunk(s).rest|;
      && ReadChunk(s).rest == s[n..]
      && (|s| > 0 ==> n > 0)
    decreases |s|
  {
    if |s| > 0 && Continues(ByteOf(s[0])) {
      ChunkRest(s[1..]);
      var n := |s| - |ReadChunk(s).rest|;
      assert s[1..][n - 1..] == s[n..];
    }
  }

  /** Every character of a chunk but the last carries the continuation bit; the last does not, unless the text ended. */
  lemma {:induction false} ChunkStops(s: string)
    ensures var n := |s| - |ReadChunk(s).rest|;
      && (forall k :: 0 <= k < n - 1 ==> Continues(ByteOf(s[k])))
      && (0 < n < |s| ==> !Continues(ByteOf(s[n - 1])))
    decreases |s|
  {
    if |s| > 0 && Continues(ByteOf(s[0])) {
      var n := |s| - |ReadChunk(s).rest|;
      ChunkStops(s[1..]);
      assert forall k :: 1 <= k < n ==> s[1..][k - 1] == s[k];
    }
  }

  /** A chunk's value is the weighted payload of the characters it consumes. */
  lemma {:induction false} ChunkValue(s: string)
    ensures var n := |s| - |ReadChunk(s).rest|;
      ReadChunk(s).value == WeightedPayload(s[..n])
    decreases |s|
  {
    if |s| > 0 {
      var n := |s| - |ReadChunk(s).rest|;
      if Continues(ByteOf(s[0])) {
        ChunkValue(s[1..]);
        assert s[..n] == [s[0]] + s[1..][..n - 1];
        WeightedPayloadCons(s[0], s[1..][..n - 1]);
      } else {
        assert s[..n] == [s[0]] + [];
        WeightedPayloadCons(s[0], []);
      }
    }
  }

  /**
   * `ReadChunk` consumes a prefix of length n: every character but the last
   * carries the continuation bit, the last one does not unless the text
   * ended; the value is the weighted payload of exactly those characters.
   */
  lemma ChunkShape(s: string)
    ensures var n := |s| - |ReadChunk(s).rest|;
      && ReadChunk(s).rest == s[n..]
      && (|s| > 0 ==> n > 0)
      && (forall k :: 0 <= k < n - 1 ==> Continues(ByteOf(s[k])))
      && (0 < n < |s| ==> !Continues(ByteOf(s[n - 1])))
      && ReadChunk(s).value == WeightedPayload(s[..n])
  {
    ChunkRest(s);
    ChunkStops(s);
    ChunkValue(s);
  }

  // ---------------------------------------------------------------------
  // Signs and running sums.
  // ---------------------------------------------------------------------

  /** Unfolding the sign undoes the encoder's folding ... */
  lemma SignedDeltaOfZigZag(d: int)
    ensures SignedDelta(ZigZag(d)) == d
  {
  }

  /** ... and every chunk value is the folding of exactly one delta. */
  lemma ZigZagOfSignedDelta(r: nat)
    ensures ZigZag(SignedDelta(r)) == r
  {
  }

  function DeltasOf(s: string): (ds: seq<Delta>)
    decreases |s|
  {
    if |s| == 0 then []
    else
      var pair := ReadPair(s);
      [pair.delta] + DeltasOf(pair.rest)
  }

  function SumLat(ds: seq<Delta>): int {
    if |ds| == 0 then 0 else ds[0].dlat + SumLat(ds[1..])
  }

  function SumLng(ds: seq<Delta>): int {
    if |ds| == 0 then 0 else ds[0].dlng + SumLng(ds[1..])
  }

  /** Summing a prefix of `[d] + rest` counts `d` once, then a prefix of `rest`. */
  lemma SumsCons(d: Delta, rest: seq<Delta>, k: nat)
    requires k <= |rest|
    ensures SumLat(([d] + rest)[..k + 1]) == d.dlat + SumLat(rest[..k])
    ensures SumLng(([d] + rest)[..k + 1]) == d.dlng + SumLng(rest[..k])
  {
    assert ([d] + rest)[..k + 1] == [d] + rest[..k];
    assert ([d] + rest[..k])[1..] == rest[..k];
  }

  /** Prefix sums of `dsRest` from the point after `d` extend to prefix sums of `[d] + dsRest`. */
  lemma PrefixSumsCons(pts: seq<LatLngE5>, first: LatLngE5, tail: seq<LatLngE5>, d: Delta, dsRest: seq<Delta>, lat: int, lng: int)
    requires first == LatLngE5(lat + d.dlat, lng + d.dlng)
    requires pts == [first] + tail
    requires |tail| == |dsRest|
    requires forall k :: 0 <= k < |dsRest| ==>
      tail[k] == LatLngE5(first.lat + SumLat(dsRest[..k + 1]), first.lng + SumLng(dsRest[..k + 1]))
    ensures |pts| == |[d] + dsRest|
    ensures forall k :: 0 <= k < |pts| ==>
      pts[k] == LatLngE5(lat + SumLat(([d] + dsRest)[..k + 1]), lng + SumLng(([d] + dsRest)[..k + 1]))
  {
    forall k | 0 <= k < |pts|
      ensures pts[k] == LatLngE5(lat + SumLat(([d] + dsRest)[..k + 1]), lng + SumLng(([d] + dsRest)[..k + 1]))
    {
      SumsCons(d, dsRest, k);
      if k > 0 {
        assert pts[k] == tail[k - 1];
        assert dsRest[..k] == dsRest[..(k - 1) + 1];
      }
    }
  }

  /** The k-th point is the start plus the sum of the first k + 1 decoded deltas. */
  lemma {:induction false} DecodeFromIsPrefixSums(s: string, lat: int, lng: int)
    ensures |DecodeFrom(s, lat, lng)| == |DeltasOf(s)|
    ensures forall k :: 0 <= k < |DeltasOf(s)| ==>
      DecodeFrom(s, lat, lng)[k] == LatLngE5(lat + SumLat(DeltasOf(s)[..k + 1]), lng + SumLng(DeltasOf(s)[..k + 1]))
    decreases |s|
  {
    if |s| > 0 {
      var pair := ReadPair(s);
      var step := NextPoint(s, lat, lng);
      assert step == Step(LatLngE5(lat + pair.delta.dlat, lng + pair.delta.dlng), pair.rest);
      var tail := DecodeFrom(step.rest, step.point.lat, step.point.lng);
      DecodeFromIsPrefixSums(step.rest, step.point.lat, step.point.lng);
      PrefixSumsCons(DecodeFrom(s, lat, lng), step.point, tail, pair.delta, DeltasOf(step.rest), lat, lng);
    }
  }

  /** Points of `decodePolyline` are prefix sums of the deltas, starting from (0, 0). */
  lemma DecodeIsPrefixSums(s: string)
    requires Decodable(s)
    ensures |Decode(s)| == |DeltasOf(s)|
    ensures forall k :: 0 <= k < |Decode(s)| ==>
      Decode(s)[k] == LatLngE5(SumLat(DeltasOf(s)[..k + 1]), SumLng(DeltasOf(s)[..k + 1]))
  {
    DecodeFromIsPrefixSums(s, 0, 0);
  }

  /** A text that ends inside the latitude chunk still yields a point, with the longitude unchanged. */
  lemma TruncatedPairKeepsLongitude(s: string, lat: int, lng: int)
    requires |s| > 0 && ReadChunk(s).rest == []
    ensures DecodeFrom(s, lat, lng) == [LatLngE5(lat + SignedDelta(ReadChunk(s).value), lng)]
  {
  }

  // ---------------------------------------------------------------------
  // The standard encoder and the round trip.
  // ---------------------------------------------------------------------

  /** Five bits at a time, least significant first, 0x20 on every group but the last, plus 63. */
  function EncodeValue(v: nat): (t: string)
    ensures |t| >= 1
    ensures forall i :: 0 <= i < |t| ==> 63 <= t[i] as int <= 126
    decreases v
  {
    if v < 32 then [(v + 63) as char]
    else [(v % 32 + 32 + 63) as char] + EncodeValue(v / 32)
  }

  /** The encoding of `pts`, each point written as the deltas from the one before (from `lat`, `lng` for the first). */
  function EncodeFrom(pts: seq<LatLngE5>, lat: int, lng: int): (t: string)
    ensures |t| >= 2 * |pts|
  {
    if |pts| == 0 then ""
    else
      EncodeValue(ZigZag(pts[0].lat - lat)) + EncodeValue(ZigZag(pts[0].lng - lng))
      + EncodeFrom(pts[1..], pts[0].lat, pts[0].lng)
  }

  function Encode(pts: seq<LatLngE5>): (t: string)
    ensures |t| >= 2 * |pts|
  {
    EncodeFrom(pts, 0, 0)
  }

  /** The encoder only writes characters between '?' and '~', all of which the decoder accepts. */
  lemma {:induction false} EncodeFromDecodable(pts: seq<LatLngE5>, lat: int, lng: int)
    ensures Decodable(EncodeFrom(pts, lat, lng))
    decreases |pts|
  {
    if |pts| > 0 {
      var a := EncodeValue(ZigZag(pts[0].lat - lat));
      var b := EncodeValue(ZigZag(pts[0].lng - lng));
      var r := EncodeFrom(pts[1..], pts[0].lat, pts[0].lng);
      EncodeFromCons(pts, lat, lng);
      EncodeFromDecodable(pts[1..], pts[0].lat, pts[0].lng);
      assert Decodable(a) && Decodable(b);
      DecodableConcat(b, r);
      DecodableConcat(a, b + r);
    }
  }

  lemma DecodableConcat(x: string, y: string)
    requires Decodable(x) && Decodable(y)
    ensures Decodable(x + y)
  {
    forall i | 0 <= i < |x + y|
      ensures DecodableChar((x + y)[i])
    {
      if i >= |x| {
        assert (x + y)[i] == y[i - |x|];
      }
    }
  }

  lemma {:induction false} ReadEncodedValue(v: nat, t: string)
    ensures ReadChunk(EncodeValue(v) + t) == Chunk(v, t)
    decreases v
  {
    var s := EncodeValue(v) + t;
    if v < 32 {
      assert s[0] == (v + 63) as char;
      assert s[1..] == t;
    } else {
      assert s[0] == (v % 32 + 32 + 63) as char;
      assert s[1..] == EncodeValue(v / 32) + t;
      ReadEncodedValue(v / 32, t);
    }
  }

  /** Decoding a text that starts with two known chunks. */
  lemma DecodeTwoChunks(s: string, t: string, r: string, va: nat, vb: nat, lat: int, lng: int, lat': int, lng': int)
    requires |s| > 0
    requires ReadChunk(s) == Chunk(va, t)
    requires ReadChunk(t) == Chunk(vb, r)
    requires lat' == lat + SignedDelta(va) && lng' == lng + SignedDelta(vb)
    ensures DecodeFrom(s, lat, lng) == [LatLngE5(lat', lng')] + DecodeFrom(r, lat', lng')
  {
    var lat1 := lat + SignedDelta(ReadChunk(s).value);
    var lng1 := lng + SignedDelta(ReadChunk(ReadChunk(s).rest).value);
    assert lat1 == lat' && lng1 == lng';
    assert ReadChunk(ReadChunk(s).rest).rest == r;
    assert DecodeFrom(s, lat, lng) == [LatLngE5(lat1, lng1)] + DecodeFrom(r, lat1, lng1);
  }

  /** One encoded point in front of a text that decodes to `tail` decodes to that point, then `tail`. */
  lemma DecodeEncodedPoint(p: LatLngE5, lat: int, lng: int, r: string, tail: seq<LatLngE5>)
    requires DecodeFrom(r, p.lat, p.lng) == tail
    ensures DecodeFrom(EncodeValue(ZigZag(p.lat - lat)) + (EncodeValue(ZigZag(p.lng - lng)) + r), lat, lng) == [p] + tail
  {
    var a := EncodeValue(ZigZag(p.lat - lat));
    var b := EncodeValue(ZigZag(p.lng - lng));
    ReadEncodedValue(ZigZag(p.lat - lat), b + r);
    ReadEncodedValue(ZigZag(p.lng - lng), r);
    SignedDeltaOfZigZag(p.lat - lat);
    SignedDeltaOfZigZag(p.lng - lng);
    DecodeTwoChunks(a + (b + r), b + r, r, ZigZag(p.lat - lat), ZigZag(p.lng - lng), lat, lng, p.lat, p.lng);
    assert LatLngE5(p.lat, p.lng) == p;
  }

  lemma {:induction false} DecodeEncodeFrom(pts: seq<LatLngE5>, lat: int, lng: int)
    ensures DecodeFrom(EncodeFrom(pts, lat, lng), lat, lng) == pts
    decreases |pts|
  {
    if |pts| > 0 {
      var p := pts[0];
      var a := EncodeValue(ZigZag(p.lat - lat));
      var b := EncodeValue(ZigZag(p.lng - lng));
      var r := EncodeFrom(pts[1..], p.lat, p.lng);
      assert EncodeFrom(pts, lat, lng) == a + (b + r) by {
        EncodeFromCons(pts, lat, lng);
      }
      assert DecodeFrom(a + (b + r), lat, lng) == [p] + pts[1..] by {
        DecodeEncodeFrom(pts[1..], p.lat, p.lng);
        DecodeEncodedPoint(p, lat, lng, r, pts[1..]);
      }
      assert pts == [p] + pts[1..];
    }
  }

  lemma EncodeFromCons(pts: seq<LatLngE5>, lat: int, lng: int)
    requires |pts| > 0
    ensures EncodeFrom(pts, lat, lng) ==
      EncodeValue(ZigZag(pts[0].lat - lat)) + (EncodeValue(ZigZag(pts[0].lng - lng)) + EncodeFrom(pts[1..], pts[0].lat, pts[0].lng))
  {
    var a := EncodeValue(ZigZag(pts[0].lat - lat));
    var b := EncodeValue(ZigZag(pts[0].lng - lng));
    var r := EncodeFrom(pts[1..], pts[0].lat, pts[0].lng);
    assert a + b + r == a + (b + r);
  }

  /** Decoding the standard encoding of any list of points gives that list back. */
  lemma DecodeEncode(pts: seq<LatLngE5>)
    ensures Decodable(Encode(pts)) && Decode(Encode(pts)) == pts
  {
    EncodeFromDecodable(pts, 0, 0);
    DecodeEncodeFrom(pts, 0, 0);
  }

  lemma DecodableSuffix(s: string, k: nat)
    requires Decodable(s) && k <= |s|
    ensures Decodable(s[k..])
  {
    assert forall i :: 0 <= i < |s| - k ==> s[k..][i] == s[k + i];
  }

  /** One step of `ReadChunk` on the suffix of `s` that starts at `i`. */
  lemma ReadChunkStep(s: string, i: nat)
    requires i < |s|
    ensures ReadChunk(s[i..]) ==
      (if Continues(ByteOf(s[i]))
       then Chunk(Payload(ByteOf(s[i])) + 32 * ReadChunk(s[i + 1..]).value, ReadChunk(s[i + 1..]).rest)
       else Chunk(Payload(ByteOf(s[i])), s[i + 1..]))
  {
    assert s[i..][0] == s[i];
    assert s[i..][1..] == s[i + 1..];
  }

  lemma ShiftedOr(result: nat, weight: nat, p: nat, v: nat)
    ensures result + weight * (p + 32 * v) == (result + p * weight) + (weight * 32) * v
  {
  }

  // ---------------------------------------------------------------------
  // The decoder as the source writes it: index-based loops.
  // ---------------------------------------------------------------------

  /**
   * What the inner loop knows after reading `s[start..index]`: the bits
   * gathered so far, plus the weight the next character's payload gets.
   */
  ghost predicate ChunkLoopInv(s: string, start: nat, index: nat, result: nat, weight: nat, more: bool)
    requires start <= index <= |s|
  {
    if more then
      ReadChunk(s[start..]) == Chunk(result + weight * ReadChunk(s[index..]).value, ReadChunk(s[index..]).rest)
    else
      ReadChunk(s[start..]) == Chunk(result, s[index..])
  }

  lemma ChunkLoopStep(s: string, start: nat, index: nat, result: nat, weight: nat)
    requires start <= index < |s|
    requires ChunkLoopInv(s, start, index, result, weight, true)
    ensures ChunkLoopInv(s, start, index + 1, result + Payload(ByteOf(s[index])) * weight, weight * 32,
                         Continues(ByteOf(s[index])))
  {
    var b := ByteOf(s[index]);
    var p := Payload(b);
    var here := ReadChunk(s[index..]);
    ReadChunkStep(s, index);
    assert ReadChunk(s[start..]) == Chunk(result + weight * here.value, here.rest);
    if Continues(b) {
      var next := ReadChunk(s[index + 1..]);
      assert here == Chunk(p + 32 * next.value, next.rest);
      ShiftedOr(result, weight, p, next.value);
      assert result + weight * here.value == (result + p * weight) + (weight * 32) * next.value;
    } else {
      assert here == Chunk(p, s[index + 1..]);
      assert weight * p == p * weight;
    }
  }

  /**
   * The inner `repeat ... while byte >= 0x20` loop: ORs the payload of each
   * character in at bit `shift` (5 more per character) and stops after a
   * character without the continuation bit, or at the end of the text.
   */
  method ReadChunkAt(s: string, start: nat) returns (value: nat, next: nat)
    requires start <= |s|
    ensures start <= next <= |s|
    ensures ReadChunk(s[start..]) == Chunk(value, s[next..])
  {
    var index := start;
    var result: nat := 0;
    var weight: nat := 1;  // 1 << shift
    var more := true;
    while more && index < |s|
      invariant start <= index <= |s|
      invariant ChunkLoopInv(s, start, index, result, weight, more)
      decreases |s| - index, more
    {
      ChunkLoopStep(s, start, index, result, weight);
      var b := ByteOf(s[index]);
      index := index + 1;
      result := result + Payload(b) * weight;
      weight := weight * 32;
      more := Continues(b);
    }
    value, next := result, index;
  }

  /** What the outer loop knows: the points so far followed by the decoding of the unread suffix make up the whole decoding. */
  ghost predicate DecodeLoopInv(s: string, coordinates: seq<LatLngE5>, index: nat, lat: int, lng: int) {
    index <= |s| && coordinates + DecodeFrom(s[index..], lat, lng) == DecodeFrom(s, 0, 0)
  }

  /** One outer iteration: the two chunks read at `index` give the next point and the rest of the decoding. */
  lemma DecodeLoopStep(acc: seq<LatLngE5>, s: string, index: nat, afterLat: nat, afterLng: nat, dlat: nat, dlng: nat,
                       lat: int, lng: int, lat': int, lng': int)
    requires index < |s| && afterLat <= |s| && afterLng <= |s|
    requires ReadChunk(s[index..]) == Chunk(dlat, s[afterLat..])
    requires ReadChunk(s[afterLat..]) == Chunk(dlng, s[afterLng..])
    requires lat' == lat + SignedDelta(dlat) && lng' == lng + SignedDelta(dlng)
    requires DecodeLoopInv(s, acc, index, lat, lng)
    ensures index < afterLng
    ensures DecodeLoopInv(s, acc + [LatLngE5(lat', lng')], afterLng, lat', lng')
  {
    var tail := DecodeFrom(s[afterLng..], lat', lng');
    assert DecodeFrom(s[index..], lat, lng) == [LatLngE5(lat', lng')] + tail by {
      DecodeTwoChunks(s[index..], s[afterLat..], s[afterLng..], dlat, dlng, lat, lng, lat', lng');
    }
    AppendAssoc(acc, [LatLngE5(lat', lng')], tail);
  }

  lemma AppendAssoc<T>(a: seq<T>, b: seq<T>, c: seq<T>)
    ensures a + (b + c) == (a + b) + c
  {
  }

  /** `decodePolyline`: one point per outer iteration, appended in order. */
  method DecodePolyline(s: string) returns (coordinates: seq<LatLngE5>)
    requires Decodable(s)
    ensures coordinates == Decode(s)
  {
    coordinates := [];
    var index := 0;
    var lat := 0;
    var lng := 0;
    assert s[0..] == s;
    assert DecodeLoopInv(s, coordinates, index, lat, lng);
    while index < |s|
      invariant DecodeLoopInv(s, coordinates, index, lat, lng)
      decreases |s| - index
    {
      var dlat, afterLat := ReadChunkAt(s, index);
      var dlng, afterLng := ReadChunkAt(s, afterLat);
      var lat', lng' := lat + SignedDelta(dlat), lng + SignedDelta(dlng);
      DecodeLoopStep(coordinates, s, index, afterLat, afterLng, dlat, dlng, lat, lng, lat', lng');
      coordinates, lat, lng, index := coordinates + [LatLngE5(lat', lng')], lat', lng', afterLng;
    }
    assert s[|s|..] == [];
  }
}
