/**
 * `CustomInfoWindow`: the hex colour parser and the content `configure`
 * takes from a marker. Layout, fonts as UIKit objects and HTML rendering are
 * outside the model; a view is the record of what was configured.
 */
module InfoWindow {
  import opened Optional
  import opened Json
  import opened Text

  predicate IsHexDigit(c: char) {
    '0' <= c <= '9' || 'a' <= c <= 'f' || 'A' <= c <= 'F'
  }

  predicate AllHex(s: string) {
    forall i :: 0 <= i < |s| ==> IsHexDigit(s[i])
  }

  function HexDigitValue(c: char): (v: nat)
    requires IsHexDigit(c)
    ensures v < 16
  {
    if '0' <= c <= '9' then c as int - '0' as int
    else if 'a' <= c <= 'f' then c as int - 'a' as int + 10
    else c as int - 'A' as int + 10
  }

  /** The upper-case digit `%02X` writes. */
  function HexDigit(d: nat): (c: char)
    requires d < 16
    ensures IsHexDigit(c) && HexDigitValue(c) == d
  {
    if d < 10 then ('0' as int + d) as char else ('A' as int + d - 10) as char
  }

  /** The number a run of hex digits denotes, most significant first. */
  function HexValue(s: string): nat
    requires AllHex(s)
  {
    if |s| == 0 then 0 else HexValue(s[..|s| - 1]) * 16 + HexDigitValue(s[|s| - 1])
  }

  /** The last step of `HexValue`, spelled out. */
  lemma HexValueSnoc(s: string, c: char)
    requires AllHex(s) && IsHexDigit(c)
    ensures AllHex(s + [c]) && HexValue(s + [c]) == HexValue(s) * 16 + HexDigitValue(c)
  {
    assert (s + [c])[..|s + [c]| - 1] == s;
  }

  /** `HexValue` of a prefix, one digit shorter. */
  lemma HexValuePrefix(s: string, k: nat)
    requires AllHex(s) && 0 < k <= |s|
    ensures AllHex(s[..k - 1]) && AllHex(s[..k])
    ensures HexValue(s[..k]) == HexValue(s[..k - 1]) * 16 + HexDigitValue(s[k - 1])
  {
    assert s[..k][..k - 1] == s[..k - 1];
  }

  /** Six digits are three two-digit channels, most significant first. */
  lemma HexValueSix(s: string)
    requires |s| == 6 && AllHex(s)
    ensures HexValue(s) == HexValue(s[..2]) * 0x1_0000 + HexValue(s[2..4]) * 0x100 + HexValue(s[4..])
  {
    var d0, d1, d2 := HexDigitValue(s[0]), HexDigitValue(s[1]), HexDigitValue(s[2]);
    var d3, d4, d5 := HexDigitValue(s[3]), HexDigitValue(s[4]), HexDigitValue(s[5]);
    assert s[..0] == [];
    HexValuePrefix(s, 1);
    HexValuePrefix(s, 2);
    HexValuePrefix(s, 3);
    HexValuePrefix(s, 4);
    HexValuePrefix(s, 5);
    HexValuePrefix(s, 6);
    assert s[..6] == s;
    var v2 := HexValue(s[..2]);
    assert v2 == d0 * 16 + d1;
    var v6 := HexValue(s);
    assert v6 == v2 * 0x1_0000 + (d2 * 16 + d3) * 0x100 + d4 * 16 + d5;
    var mid, low := s[2..4], s[4..];
    assert mid[0] == s[2] && mid[1] == s[3] && low[0] == s[4] && low[1] == s[5];
    HexValueTwo(mid);
    HexValueTwo(low);
  }

  /** A colour's three 8-bit channels. */
  datatype Rgb = Rgb(red: nat, green: nat, blue: nat)

  predicate ValidRgb(c: Rgb) {
    c.red < 256 && c.green < 256 && c.blue < 256
  }

  /** `(v & 0xFF0000) >> 16`, `(v & 0x00FF00) >> 8` and `v & 0x0000FF`. */
  function Components(v: nat): (c: Rgb)
    ensures ValidRgb(c)
  {
    Rgb((v / 0x1_0000) % 0x100, (v / 0x100) % 0x100, v % 0x100)
  }

  lemma DivModUnique256(v: int, q: int, r: int)
    requires 0 <= r < 0x100 && v == q * 0x100 + r
    ensures v / 0x100 == q && v % 0x100 == r
  {
  }

  lemma DivModUnique65536(v: int, q: int, r: int)
    requires 0 <= r < 0x1_0000 && v == q * 0x1_0000 + r
    ensures v / 0x1_0000 == q && v % 0x1_0000 == r
  {
  }

  /** Packing three channels and taking them apart again is the identity. */
  lemma ComponentsOfPacked(c: Rgb)
    requires ValidRgb(c)
    ensures Components(c.red * 0x1_0000 + c.green * 0x100 + c.blue) == c
  {
    var v := c.red * 0x1_0000 + c.green * 0x100 + c.blue;
    DivModUnique65536(v, c.red, c.green * 0x100 + c.blue);
    DivModUnique256(c.red, 0, c.red);
    DivModUnique256(v, c.red * 0x100 + c.green, c.blue);
    DivModUnique256(c.red * 0x100 + c.green, c.red, c.green);
  }

  /** The scanned digits: surrounding white space and newlines trimmed, then one leading `#` dropped. */
  function HexBody(hexString: string): string {
    var hex := Trim(hexString);
    if StartsWith(hex, "#") then hex[1..] else hex
  }

  /** The number of leading hex digits of `s`. */
  function HexRun(s: string): (n: nat)
    ensures n <= |s| && AllHex(s[..n])
    ensures n < |s| ==> !IsHexDigit(s[n])
    ensures AllHex(s) ==> n == |s|
  {
    if |s| > 0 && IsHexDigit(s[0]) then
      var n := 1 + HexRun(s[1..]);
      assert s[..n] == [s[0]] + s[1..][..n - 1];
      n
    else 0
  }

  /**
   * The scan after the skipped white space: an optional `0x`/`0X` before a
   * hex digit, then the longest run of hex digits; it fails only when there
   * is no digit at all.
   */
  function ScanDigits(t: string): (r: Option<nat>)
    ensures r.Some? <==> |t| > 0 && IsHexDigit(t[0])
    ensures AllHex(t) && |t| > 0 ==> r == Some(HexValue(t))
  {
    var prefixed := |t| >= 3 && t[0] == '0' && (t[1] == 'x' || t[1] == 'X') && IsHexDigit(t[2]);
    var body := if prefixed then t[2..] else t;
    var n := HexRun(body);
    assert n > 0 <==> |t| > 0 && IsHexDigit(t[0]) by {
      if prefixed {
        assert body[0] == t[2];
      }
    }
    assert AllHex(t) ==> body[..n] == t by {
      if AllHex(t) {
        if |t| >= 3 {
          assert IsHexDigit(t[1]);
        }
        assert body == t && n == |t|;
      }
    }
    if n == 0 then None else Some(HexValue(body[..n]))
  }

  /**
   * `Scanner(string:).scanHexInt32(_:)` as Foundation documents it: skip
   * leading white space, then scan the digits. The digits after the run are
   * left unread.
   */
  function ScanHex(s: string): (r: Option<nat>)
    ensures r.Some? <==> |TrimStart(s)| > 0 && IsHexDigit(TrimStart(s)[0])
    ensures AllHex(TrimStart(s)) && |TrimStart(s)| > 0 ==> r == Some(HexValue(TrimStart(s)))
  {
    ScanDigits(TrimStart(s))
  }

  /** A two-digit value: at most 255. */
  lemma HexValueTwo(s: string)
    requires |s| == 2 && AllHex(s)
    ensures HexValue(s) == HexDigitValue(s[0]) * 16 + HexDigitValue(s[1]) < 0x100
  {
    assert s == [s[0]] + [s[1]];
    HexValueSnoc([s[0]], s[1]);
    HexValueSnoc([], s[0]);
    assert [] + [s[0]] == [s[0]];
  }

  /**
   * `safeColorFromHex` as written: after trimming and dropping one `#`,
   * exactly six characters must remain, and their scan must succeed; the
   * scan only needs a leading hex digit.
   */
  function SafeColorFromHexAsWritten(hexString: string): (r: Option<Rgb>)
    ensures var hex := HexBody(hexString);
      r.Some? <==> |hex| == 6 && |TrimStart(hex)| > 0 && IsHexDigit(TrimStart(hex)[0])
    ensures |HexBody(hexString)| == 6 && AllHex(HexBody(hexString)) ==> r == SafeColorFromHex(hexString)
  {
    var hex := HexBody(hexString);
    if |hex| != 6 then None
    else
      assert AllHex(hex) ==> TrimStart(hex) == hex;
      match ScanHex(hex)
      case None => None
      case Some(v) => Some(Components(v))
  }

  /**
   * The colour parser with the check its comments promise: exactly six hex
   * digits after trimming and dropping one `#`, read as red, green and blue
   * channels of two digits each.
   */
  function SafeColorFromHex(hexString: string): (r: Option<Rgb>)
    ensures r.Some? <==> |HexBody(hexString)| == 6 && AllHex(HexBody(hexString))
    ensures r.Some? ==> ValidRgb(r.value)
    ensures r.Some? ==> var hex := HexBody(hexString);
      r.value == Rgb(HexValue(hex[..2]), HexValue(hex[2..4]), HexValue(hex[4..]))
  {
    var hex := HexBody(hexString);
    if |hex| == 6 && AllHex(hex) then
      ComponentsOfSix(hex);
      Some(Components(HexValue(hex)))
    else None
  }

  /** The channels of six hex digits are their three digit pairs. */
  lemma ComponentsOfSix(hex: string)
    requires |hex| == 6 && AllHex(hex)
    ensures Components(HexValue(hex)) == Rgb(HexValue(hex[..2]), HexValue(hex[2..4]), HexValue(hex[4..]))
  {
    HexValueSix(hex);
    HexValueTwo(hex[..2]);
    HexValueTwo(hex[2..4]);
    HexValueTwo(hex[4..]);
    ComponentsOfPacked(Rgb(HexValue(hex[..2]), HexValue(hex[2..4]), HexValue(hex[4..])));
  }

  /**
   * The parser as written accepts a six-character string whose scan stops
   * after two digits, and yields a colour built from those two digits alone.
   */
  lemma AsWrittenAcceptsPartialHex()
    ensures SafeColorFromHexAsWritten("#12zzzz") == Some(Rgb(0, 0, 0x12))
    ensures SafeColorFromHex("#12zzzz") == None
  {
    var s := "#12zzzz";
    TrimUnpadded(s);
    var hex := HexBody(s);
    assert hex == "12zzzz";
    TrimUnpadded(hex);
    assert HexRun(hex[2..]) == 0;
    assert HexRun(hex[1..]) == 1;
    assert HexRun(hex) == 2;
    assert hex[..2] == "12";
    HexValueTwo("12");
    assert ScanHex(hex) == Some(0x12);
    assert !IsHexDigit(hex[2]);
  }

  /** The value of two given hex digits. */
  lemma HexPair(s: string, hi: char, lo: char)
    requires s == [hi, lo] && IsHexDigit(hi) && IsHexDigit(lo)
    ensures HexValue(s) == HexDigitValue(hi) * 16 + HexDigitValue(lo)
  {
    HexValueTwo(s);
  }

  lemma IdeographicSpaceBody()
    ensures HexBody("\U{3000}#123456") == "123456"
  {
    var s := "\U{3000}#123456";
    var t := "#123456";
    assert s[1..] == t;
    assert TrimStart(s) == t by { assert IsWhitespace(s[0]) && !IsWhitespace(t[0]); }
    TrimUnpadded(t);
  }

  lemma SixDigits()
    ensures AllHex("123456")
    ensures var hex := "123456"; hex[..2] == "12" && hex[2..4] == "34" && hex[4..] == "56"
    ensures HexValue("12") == 0x12 && HexValue("34") == 0x34 && HexValue("56") == 0x56
  {
    var hex := "123456";
    forall i | 0 <= i < |hex|
      ensures IsHexDigit(hex[i])
    {
      assert '1' <= hex[i] <= '6';
    }
    HexPair("12", '1', '2');
    HexPair("34", '3', '4');
    HexPair("56", '5', '6');
  }

  /** Trimming drops Unicode spaces too: an ideographic space before the `#` is ignored. */
  lemma IdeographicSpaceTrimmed()
    ensures SafeColorFromHexAsWritten("\U{3000}#123456") == Some(Rgb(0x12, 0x34, 0x56))
    ensures SafeColorFromHex("\U{3000}#123456") == Some(Rgb(0x12, 0x34, 0x56))
  {
    IdeographicSpaceBody();
    SixDigits();
  }

  /** Two upper-case hex digits, as `%02X` writes them. */
  function Hex2(n: nat): (s: string)
    requires n < 0x100
    ensures |s| == 2 && AllHex(s) && HexValue(s) == n
  {
    var s := [HexDigit(n / 16), HexDigit(n % 16)];
    HexValueTwo(s);
    s
  }

  /** `#RRGGBB`, the form `hexStringFromColor` writes. */
  function HexColour(c: Rgb): (s: string)
    requires ValidRgb(c)
    ensures |s| == 7 && s[0] == '#' && AllHex(s[1..])
  {
    "#" + Hex2(c.red) + Hex2(c.green) + Hex2(c.blue)
  }

  /** Every colour written as `#RRGGBB` is parsed back to itself. */
  lemma HexColourRoundTrip(c: Rgb)
    requires ValidRgb(c)
    ensures SafeColorFromHex(HexColour(c)) == Some(c)
  {
    var s := HexColour(c);
    assert IsHexDigit(s[1..][5]);
    TrimUnpadded(s);
    var hex := HexBody(s);
    assert hex == Hex2(c.red) + Hex2(c.green) + Hex2(c.blue);
    assert hex[..2] == Hex2(c.red) && hex[2..4] == Hex2(c.green) && hex[4..] == Hex2(c.blue);
  }

  /** The colours an info window shows: the three UIKit defaults or a parsed colour. */
  datatype Colour = Black | Gray | White | FromRgb(rgb: Rgb)

  /** What the marker offers: its title and snippet, and its `userData`. */
  datatype MarkerInfo = MarkerInfo(title: Option<string>, snippet: Option<string>, userData: Option<Json>)

  /** What a configured info window shows and reports back. */
  datatype InfoWindowView = InfoWindowView(
    mapId: Option<string>,
    callbackId: Option<string>,
    markerId: Option<string>,
    title: Option<string>,
    snippet: Option<string>,
    isSnippetHTML: bool,
    titleColour: Colour,
    snippetColour: Colour,
    background: Colour,
    titleSize: real,
    snippetSize: real,
    offsetX: real,
    offsetY: real)

  /** A new window: no text, black bold 16 title, gray 14 snippet, white background, 10 points above. */
  const Fresh := InfoWindowView(None, None, None, None, None, false, Black, Gray, White, 16.0, 14.0, 0.0, -10.0)

  /** `userData.metadata.infoWindow`, when each step is an object (`hasCustomInfoWindow`). */
  function InfoWindowData(m: MarkerInfo): (r: Option<Object>)
    ensures r.Some? ==> AsObject(m.userData).Some?
  {
    var userData := AsObject(m.userData);
    if userData.None? then None
    else
      var metadata := AsObject(Field(userData.value, "metadata"));
      if metadata.None? then None else AsObject(Field(metadata.value, "infoWindow"))
  }

  /**
   * `if let text = v as? String { colour = safeColorFromHex(text) ?? fallback }`,
   * for a given hex parser.
   */
  function ColourSetting(v: Option<Json>, fallback: Colour, parse: string -> Option<Rgb>): (c: Colour)
    ensures AsString(v).None? ==> c == fallback
    ensures AsString(v).Some? && parse(AsString(v).value).Some? ==> c == FromRgb(parse(AsString(v).value).value)
    ensures AsString(v).Some? && parse(AsString(v).value).None? ==> c == fallback
  {
    match AsString(v)
    case None => fallback
    case Some(text) =>
      match parse(text)
      case Some(rgb) => FromRgb(rgb)
      case None => fallback
  }

  /**
   * `configure(with:mapId:customMapViewEvents:callbackId:)` on a fresh
   * window. Nothing is shown unless `userData` is an object. With an
   * `infoWindow` object its fields take precedence over the marker's own
   * title and snippet and override the styling; without one, the marker's
   * title and snippet are shown with the default styling. Colour strings
   * go through `safeColorFromHex` as written.
   */
  function Configure(m: MarkerInfo, mapId: string, callbackId: Option<string>): (w: InfoWindowView)
    ensures w.mapId == Some(mapId) && w.callbackId == callbackId
    ensures AsObject(m.userData).None? ==> w == Fresh.(mapId := Some(mapId), callbackId := callbackId)
    ensures AsObject(m.userData).Some? ==> w.markerId == AsString(Field(AsObject(m.userData).value, "markerId"))
    ensures AsObject(m.userData).Some? && InfoWindowData(m).None? ==>
      && w.title == Some(m.title.GetOr("No Title"))
      && w.snippet == Some(m.snippet.GetOr("No Description"))
      && w == Fresh.(mapId := w.mapId, callbackId := w.callbackId, markerId := w.markerId,
                     title := w.title, snippet := w.snippet)
    ensures InfoWindowData(m).Some? ==> var iw := InfoWindowData(m).value;
      && w.title == Some(AsString(Field(iw, "title")).GetOr(m.title.GetOr("No Title")))
      && w.snippet == Some(AsString(Field(iw, "snippet")).GetOr(m.snippet.GetOr("No Description")))
      && w.isSnippetHTML == AsBool(Field(iw, "isSnippetHTML")).GetOr(false)
      && w.titleColour == ColourSetting(Field(iw, "titleColor"), Black, SafeColorFromHexAsWritten)
      && w.snippetColour == ColourSetting(Field(iw, "snippetColor"), Gray, SafeColorFromHexAsWritten)
      && w.background == ColourSetting(Field(iw, "backgroundColor"), White, SafeColorFromHexAsWritten)
      && w.titleSize == AsDouble(Field(iw, "titleSize")).GetOr(16.0)
      && w.snippetSize == AsDouble(Field(iw, "snippetSize")).GetOr(14.0)
      && w.offsetX == AsDouble(Field(iw, "offsetX")).GetOr(0.0)
      && w.offsetY == AsDouble(Field(iw, "offsetY")).GetOr(-10.0)
  {
    var w := Fresh.(mapId := Some(mapId), callbackId := callbackId);
    match AsObject(m.userData)
    case None => w
    case Some(userData) =>
      var w := w.(markerId := AsString(Field(userData, "markerId")));
      match InfoWindowData(m)
      case None =>
        w.(title := Some(m.title.GetOr("No Title")), snippet := Some(m.snippet.GetOr("No Description")))
      case Some(iw) =>
        w.(title := Some(AsString(Field(iw, "title")).GetOr(m.title.GetOr("No Title"))),
           snippet := Some(AsString(Field(iw, "snippet")).GetOr(m.snippet.GetOr("No Description"))),
           isSnippetHTML := AsBool(Field(iw, "isSnippetHTML")).GetOr(w.isSnippetHTML),
           titleColour := ColourSetting(Field(iw, "titleColor"), Black, SafeColorFromHexAsWritten),
           snippetColour := ColourSetting(Field(iw, "snippetColor"), Gray, SafeColorFromHexAsWritten),
           background := ColourSetting(Field(iw, "backgroundColor"), White, SafeColorFromHexAsWritten),
           titleSize := AsDouble(Field(iw, "titleSize")).GetOr(w.titleSize),
           snippetSize := AsDouble(Field(iw, "snippetSize")).GetOr(w.snippetSize),
           offsetX := AsDouble(Field(iw, "offsetX")).GetOr(w.offsetX),
           offsetY := AsDouble(Field(iw, "offsetY")).GetOr(w.offsetY))
  }

  /**
   * An empty `infoWindow` object overrides nothing: the window looks
   * exactly as it would for a marker without one.
   */
  lemma EmptyInfoWindowChangesNothing(m: MarkerInfo, mapId: string, callbackId: Option<string>)
    requires AsObject(m.userData).Some? && InfoWindowData(m) == Some(map[])
    ensures var plain := MarkerInfo(m.title, m.snippet,
                                    Some(JObject(AsObject(m.userData).value["metadata" := JObject(map[])])));
      && InfoWindowData(plain).None?
      && Configure(m, mapId, callbackId) == Configure(plain, mapId, callbackId)
  {
  }

  /** A colour string the parser as written rejects leaves the default colour in place. */
  lemma RejectedColourKeepsDefault(m: MarkerInfo, mapId: string, callbackId: Option<string>)
    requires InfoWindowData(m).Some?
    requires var iw := InfoWindowData(m).value;
      AsString(Field(iw, "titleColor")).Some? && SafeColorFromHexAsWritten(AsString(Field(iw, "titleColor")).value).None?
    ensures Configure(m, mapId, callbackId).titleColour == Fresh.titleColour
  {
  }

  /**
   * `Configure` with the corrected colour parser: the same window, except
   * that each colour string must be six hex digits to take effect.
   */
  function ConfigureCorrected(m: MarkerInfo, mapId: string, callbackId: Option<string>): (w: InfoWindowView)
    ensures var v := Configure(m, mapId, callbackId);
      w == v.(titleColour := w.titleColour, snippetColour := w.snippetColour, background := w.background)
    ensures InfoWindowData(m).None? ==> w == Configure(m, mapId, callbackId)
    ensures InfoWindowData(m).Some? ==> var iw := InfoWindowData(m).value;
      && w.titleColour == ColourSetting(Field(iw, "titleColor"), Black, SafeColorFromHex)
      && w.snippetColour == ColourSetting(Field(iw, "snippetColor"), Gray, SafeColorFromHex)
      && w.background == ColourSetting(Field(iw, "backgroundColor"), White, SafeColorFromHex)
  {
    var v := Configure(m, mapId, callbackId);
    match InfoWindowData(m)
    case None => v
    case Some(iw) =>
      v.(titleColour := ColourSetting(Field(iw, "titleColor"), Black, SafeColorFromHex),
         snippetColour := ColourSetting(Field(iw, "snippetColor"), Gray, SafeColorFromHex),
         background := ColourSetting(Field(iw, "backgroundColor"), White, SafeColorFromHex))
  }

  /** The two parsers differ only on six characters after the `#` that are not all hex digits. */
  predicate NoPartialHex(text: string) {
    |HexBody(text)| == 6 ==> AllHex(HexBody(text))
  }

  lemma ParsersAgree(text: string)
    requires NoPartialHex(text)
    ensures SafeColorFromHexAsWritten(text) == SafeColorFromHex(text)
  {
  }

  /** A colour field that is absent, not a string, or free of partial hex. */
  predicate ColourFieldAgrees(iw: Object, key: string) {
    AsString(Field(iw, key)).Some? ==> NoPartialHex(AsString(Field(iw, key)).value)
  }

  lemma ColourSettingAgrees(iw: Object, key: string, fallback: Colour)
    requires ColourFieldAgrees(iw, key)
    ensures ColourSetting(Field(iw, key), fallback, SafeColorFromHex)
         == ColourSetting(Field(iw, key), fallback, SafeColorFromHexAsWritten)
  {
    if AsString(Field(iw, key)).Some? {
      ParsersAgree(AsString(Field(iw, key)).value);
    }
  }

  /** Unless a colour string holds partial hex, the two parsers configure the same window. */
  lemma ConfigureAgreesWithoutPartialHex(m: MarkerInfo, mapId: string, callbackId: Option<string>)
    requires InfoWindowData(m).Some? ==> var iw := InfoWindowData(m).value;
      ColourFieldAgrees(iw, "titleColor") && ColourFieldAgrees(iw, "snippetColor") && ColourFieldAgrees(iw, "backgroundColor")
    ensures ConfigureCorrected(m, mapId, callbackId) == Configure(m, mapId, callbackId)
  {
    var v := Configure(m, mapId, callbackId);
    var w := ConfigureCorrected(m, mapId, callbackId);
    if InfoWindowData(m).Some? {
      var iw := InfoWindowData(m).value;
      assert w.titleColour == v.titleColour by { ColourSettingAgrees(iw, "titleColor", Black); }
      assert w.snippetColour == v.snippetColour by { ColourSettingAgrees(iw, "snippetColor", Gray); }
      assert w.background == v.background by { ColourSettingAgrees(iw, "backgroundColor", White); }
    }
  }

  /**
   * A marker whose `infoWindow` asks for title colour "#12zzzz" gets a blue
   * title from `configure` as written, and keeps the black default with the
   * corrected parser.
   */
  lemma ConfigurePartialHexTitle(mapId: string, callbackId: Option<string>)
    ensures var iw := map["titleColor" := JString("#12zzzz")];
      var m := MarkerInfo(None, None, Some(JObject(map["metadata" := JObject(map["infoWindow" := JObject(iw)])])));
      && Configure(m, mapId, callbackId).titleColour == FromRgb(Rgb(0, 0, 0x12))
      && ConfigureCorrected(m, mapId, callbackId).titleColour == Black
  {
    var iw := map["titleColor" := JString("#12zzzz")];
    var m := MarkerInfo(None, None, Some(JObject(map["metadata" := JObject(map["infoWindow" := JObject(iw)])])));
    assert InfoWindowData(m) == Some(iw);
    var title := Field(iw, "titleColor");
    assert AsString(title) == Some("#12zzzz");
    AsWrittenAcceptsPartialHex();
    assert ColourSetting(title, Black, SafeColorFromHexAsWritten) == FromRgb(Rgb(0, 0, 0x12));
    assert ColourSetting(title, Black, SafeColorFromHex) == Black;
  }
}
