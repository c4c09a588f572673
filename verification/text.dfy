/**
 * String helpers the plugin relies on: Swift's decimal rendering of integers
 * (`"\(n)"`), `joined(separator:)`, `hasPrefix`, ASCII lower-casing and
 * whitespace trimming. Strings are sequences of Unicode scalars; Swift's
 * `count` counts grapheme clusters instead, and the two agree except on
 * clusters such as "\r\n" or a letter with a combining mark.
 */
module Text {

  predicate IsDigit(c: char) {
    '0' <= c <= '9'
  }

  predicate AllDigits(s: string) {
    forall i :: 0 <= i < |s| ==> IsDigit(s[i])
  }

  function DigitChar(d: nat): (c: char)
    requires d < 10
    ensures IsDigit(c)
    ensures c as int - '0' as int == d
  {
    ('0' as int + d) as char
  }

  /** Decimal text of a natural number, most significant digit first, no leading zeros. */
  function NatToDecimal(n: nat): (s: string)
    ensures 1 <= |s| && AllDigits(s)
    ensures n < 10 <==> |s| == 1
    decreases n
  {
    if n < 10 then [DigitChar(n)] else NatToDecimal(n / 10) + [DigitChar(n % 10)]
  }

  /** Swift's string interpolation of an `Int`: a minus sign for negative values, then the digits. */
  function IntToDecimal(i: int): (s: string)
    ensures 1 <= |s|
    ensures s[0] == '-' <==> i < 0
    ensures i >= 0 ==> AllDigits(s)
  {
    if i < 0 then "-" + NatToDecimal(-i) else NatToDecimal(i)
  }

  /** Value of a string of decimal digits. */
  function DecimalValue(s: string): nat
    requires AllDigits(s)
  {
    if |s| == 0 then 0 else 10 * DecimalValue(s[..|s| - 1]) + (s[|s| - 1] as int - '0' as int)
  }

  lemma {:induction false} NatToDecimalRoundTrip(n: nat)
    ensures DecimalValue(NatToDecimal(n)) == n
    decreases n
  {
    if n >= 10 {
      var s := NatToDecimal(n);
      assert s[..|s| - 1] == NatToDecimal(n / 10);
      NatToDecimalRoundTrip(n / 10);
    }
  }

  /** Distinct integers render to distinct decimal texts. */
  lemma IntToDecimalInjective(a: int, b: int)
    requires IntToDecimal(a) == IntToDecimal(b)
    ensures a == b
  {
    var s := IntToDecimal(a);
    if a < 0 {
      assert b < 0;
      assert NatToDecimal(-a) == NatToDecimal(-b) by {
        assert s == "-" + NatToDecimal(-a) && s == "-" + NatToDecimal(-b);
        assert s[1..] == NatToDecimal(-a) && s[1..] == NatToDecimal(-b);
      }
      NatToDecimalRoundTrip(-a);
      NatToDecimalRoundTrip(-b);
    } else {
      assert b >= 0;
      NatToDecimalRoundTrip(a);
      NatToDecimalRoundTrip(b);
    }
  }

  /** Where the single `c` of `a + [c] + b` sits, and what lies after it. */
  lemma SeparatorPosition(a: string, b: string, c: char)
    ensures (a + [c] + b)[|a|] == c
    ensures forall k :: |a| < k < |a| + 1 + |b| ==> (a + [c] + b)[k] == b[k - |a| - 1]
  {
  }

  /** Two texts that each end in `c` followed by a `c`-free tail split at that last `c` identically. */
  lemma SplitAtLast(a: string, b: string, a': string, b': string, c: char)
    requires c !in b && c !in b'
    requires a + [c] + b == a' + [c] + b'
    ensures a == a' && b == b'
  {
    var s := a + [c] + b;
    SeparatorPosition(a, b, c);
    SeparatorPosition(a', b', c);
    assert |b| == |b'|;
    assert a == s[..|a|] == a';
    assert b == s[|a| + 1..] == b';
  }

  /** Swift's `joined(separator:)`. */
  function Join(parts: seq<string>, sep: string): string {
    if |parts| == 0 then ""
    else if |parts| == 1 then parts[0]
    else parts[0] + sep + Join(parts[1..], sep)
  }

  /** Index of the first `c` in `s`, or `|s|` when there is none. */
  function IndexOf(s: string, c: char): (i: nat)
    ensures i <= |s|
    ensures i < |s| ==> s[i] == c
    ensures forall k :: 0 <= k < i ==> s[k] != c
  {
    if |s| == 0 then 0
    else if s[0] == c then 0
    else 1 + IndexOf(s[1..], c)
  }

  /** Cuts `s` at every `c`: the inverse of joining with the one-character separator `c`. */
  function Split(s: string, c: char): (parts: seq<string>)
    ensures |parts| >= 1
    decreases |s|
  {
    var i := IndexOf(s, c);
    if i == |s| then [s] else [s[..i]] + Split(s[i + 1..], c)
  }

  /** Joining non-empty lists of separator-free parts is undone by splitting. */
  lemma {:induction false} SplitJoin(parts: seq<string>, c: char)
    requires |parts| >= 1
    requires forall k :: 0 <= k < |parts| ==> c !in parts[k]
    ensures Split(Join(parts, [c]), c) == parts
    decreases |parts|
  {
    var s := Join(parts, [c]);
    if |parts| == 1 {
      assert c !in s;
      assert IndexOf(s, c) == |s|;
    } else {
      var tail := Join(parts[1..], [c]);
      assert s == parts[0] + [c] + tail;
      assert s[|parts[0]|] == c;
      assert forall k :: 0 <= k < |parts[0]| ==> s[k] == parts[0][k] && s[k] != c;
      assert IndexOf(s, c) == |parts[0]|;
      assert s[..|parts[0]|] == parts[0];
      assert s[|parts[0]| + 1..] == tail;
      SplitJoin(parts[1..], c);
    }
  }

  /** Swift's `hasPrefix` / `starts(with:)`. */
  predicate StartsWith(s: string, prefix: string) {
    |prefix| <= |s| && s[..|prefix|] == prefix
  }

  /** ASCII lower-casing (enough for the raw values it is applied to). */
  function Lowercase(s: string): (r: string)
    ensures |r| == |s|
    ensures forall i :: 0 <= i < |s| ==> (if 'A' <= s[i] <= 'Z' then r[i] as int == s[i] as int + 32 else r[i] == s[i])
  {
    if |s| == 0 then ""
    else [if 'A' <= s[0] <= 'Z' then (s[0] as int + 32) as char else s[0]] + Lowercase(s[1..])
  }

  /**
   * Foundation's `whitespacesAndNewlines`: the Unicode space, line and
   * paragraph separators (general categories Zs, Zl and Zp) together with the
   * controls U+0009 to U+000D and NEL.
   */
  predicate IsWhitespace(c: char) {
    ('\t' <= c <= '\r') || c == ' ' || c == '\U{0085}' || c == '\U{00A0}' || c == '\U{1680}'
    || ('\U{2000}' <= c <= '\U{200A}') || c == '\U{2028}' || c == '\U{2029}' || c == '\U{202F}'
    || c == '\U{205F}' || c == '\U{3000}'
  }

  function TrimStart(s: string): (r: string)
    ensures |r| <= |s| && r == s[|s| - |r|..]
    ensures |r| > 0 ==> !IsWhitespace(r[0])
    ensures forall i :: 0 <= i < |s| - |r| ==> IsWhitespace(s[i])
  {
    if |s| > 0 && IsWhitespace(s[0]) then TrimStart(s[1..]) else s
  }

  function TrimEnd(s: string): (r: string)
    ensures |r| <= |s| && r == s[..|r|]
    ensures |r| > 0 ==> !IsWhitespace(r[|r| - 1])
    ensures forall i :: |r| <= i < |s| ==> IsWhitespace(s[i])
  {
    if |s| > 0 && IsWhitespace(s[|s| - 1]) then TrimEnd(s[..|s| - 1]) else s
  }

  /** `trimmingCharacters(in: .whitespacesAndNewlines)`. */
  function Trim(s: string): string {
    TrimEnd(TrimStart(s))
  }

  /** Text that neither starts nor ends with white space is its own trim. */
  lemma TrimUnpadded(s: string)
    requires |s| > 0 && !IsWhitespace(s[0]) && !IsWhitespace(s[|s| - 1])
    ensures TrimStart(s) == s && Trim(s) == s
  {
  }
}
