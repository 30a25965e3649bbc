/** String escaping as JSON.stringify does it (section 7 of RFC 8259, lone surrogates escaped). */
module Json {
  import opened Utf16

  const QUOTE: CodeUnit := 0x22
  const BACKSLASH: CodeUnit := 0x5C

  function HexDigit(n: int): CodeUnit
    requires 0 <= n < 16
  {
    if n < 10 then (0x30 + n) as CodeUnit else (0x61 + n - 10) as CodeUnit
  }

  function UnicodeEscape(u: CodeUnit): JsString {
    var n := u as int;
    [BACKSLASH, 0x75, HexDigit(n / 4096), HexDigit(n / 256 % 16), HexDigit(n / 16 % 16), HexDigit(n % 16)]
  }

  /** The escape of one code unit that is not part of a surrogate pair. */
  function EscapeUnit(u: CodeUnit): JsString {
    if u == QUOTE || u == BACKSLASH then [BACKSLASH, u]
    else if u == 8 then [BACKSLASH, 0x62]
    else if u == 9 then [BACKSLASH, 0x74]
    else if u == 10 then [BACKSLASH, 0x6E]
    else if u == 12 then [BACKSLASH, 0x66]
    else if u == 13 then [BACKSLASH, 0x72]
    else if u < 0x20 || IsHigh(u) || IsLow(u) then UnicodeEscape(u)
    else [u]
  }

  /** The escape of the code point that starts at `i`. */
  function EscapeAt(s: JsString, i: nat): JsString
    requires i < |s|
  {
    if PairAt(s, i) then s[i..i + 2] else EscapeUnit(s[i])
  }

  function Escape(s: JsString): JsString {
    if s == [] then [] else EscapeAt(s, 0) + Escape(s[StepAt(s, 0)..])
  }

  function Quote(s: JsString): JsString { [QUOTE] + Escape(s) + [QUOTE] }

  /** `JSON.stringify(s).length`. */
  function EncodedLength(s: JsString): nat { |Quote(s)| }

  lemma EncodedLengthIs(s: JsString)
    ensures Quote(s) == [QUOTE] + Escape(s) + [QUOTE] && EncodedLength(s) == |Escape(s)| + 2
  {
  }

  /** Escaping makes a text at most six times as long. */
  lemma {:induction false} EscapeShort(s: JsString)
    ensures |Escape(s)| <= 6 * |s|
  {
    if s != [] {
      EscapeShort(s[StepAt(s, 0)..]);
      assert |EscapeAt(s, 0)| <= 6;
    }
  }

  // ---- reading it back ----

  function HexValue(c: CodeUnit): int {
    if '0' as int <= c as int <= '9' as int then c as int - '0' as int
    else if 'a' as int <= c as int <= 'f' as int then c as int - 'a' as int + 10
    else -1
  }

  /** What the escape that starts the text stands for, if it is one, and its length. */
  function UnescapeOne(e: JsString): (r: (int, nat))
    ensures e != [] ==> 0 < r.1 <= |e|
  {
    if e == [] then (-1, 0)
    else if e[0] != BACKSLASH || |e| == 1 then (e[0] as int, 1)
    else
      var c := e[1] as int;
      if c == '"' as int || c == '\\' as int then (c, 2)
      else if c == 'b' as int then (8, 2)
      else if c == 't' as int then (9, 2)
      else if c == 'n' as int then (10, 2)
      else if c == 'f' as int then (12, 2)
      else if c == 'r' as int then (13, 2)
      else if c == 'u' as int && |e| >= 6 then
        (((HexValue(e[2]) * 16 + HexValue(e[3])) * 16 + HexValue(e[4])) * 16 + HexValue(e[5]), 6)
      else (-1, 1)
  }

  /** The text that an escaped text stands for, unit by unit. */
  function Unescape(e: JsString): seq<int> {
    if e == [] then [] else [UnescapeOne(e).0] + Unescape(e[UnescapeOne(e).1..])
  }

  function Units(s: JsString): seq<int> { seq(|s|, i requires 0 <= i < |s| => s[i] as int) }

  lemma HexReadsBack(d: nat)
    requires d < 16
    ensures HexValue(HexDigit(d)) == d
  {
  }

  lemma HexSum(n: nat)
    requires n < 0x1_0000
    ensures n / 4096 < 16
    ensures n == ((n / 4096 * 16 + n / 256 % 16) * 16 + n / 16 % 16) * 16 + n % 16
  {
  }

  lemma UnescapeSix(u: CodeUnit, rest: JsString)
    ensures UnescapeOne(UnicodeEscape(u) + rest) == (u as int, 6)
  {
    hide HexValue, HexDigit;
    var e, n := UnicodeEscape(u) + rest, u as int;
    HexSum(n);
    HexReadsBack(n / 4096);
    HexReadsBack(n / 256 % 16);
    HexReadsBack(n / 16 % 16);
    HexReadsBack(n % 16);
    assert |e| >= 6 && e[0] == BACKSLASH && e[1] as int == 'u' as int;
  }

  lemma UnescapeUnit(u: CodeUnit, rest: JsString)
    ensures UnescapeOne(EscapeUnit(u) + rest) == (u as int, |EscapeUnit(u)|)
  {
    if |EscapeUnit(u)| == 6 {
      UnescapeSix(u, rest);
    } else if |EscapeUnit(u)| == 2 {
      assert (EscapeUnit(u) + rest)[1] == EscapeUnit(u)[1];
    }
  }

  /** Only quotes, backslashes, controls and lone surrogates are escaped, with two characters where there is a short
      form and six otherwise. */
  lemma EscapeForms(u: CodeUnit)
    ensures |EscapeUnit(u)| == if u in [0x22, 0x5C, 8, 9, 10, 12, 13] then 2
                               else if u < 0x20 || 0xD800 <= u < 0xE000 then 6 else 1
  {
  }

  lemma UnescapeStep(u: CodeUnit, e: JsString)
    ensures Unescape(EscapeUnit(u) + e) == [u as int] + Unescape(e)
  {
    UnescapeUnit(u, e);
    assert (EscapeUnit(u) + e)[|EscapeUnit(u)|..] == e;
  }

  lemma UnescapePlain(u: CodeUnit, e: JsString)
    requires u != BACKSLASH
    ensures Unescape([u] + e) == [u as int] + Unescape(e)
  {
    assert ([u] + e)[1..] == e;
  }

  /** Nothing is lost by escaping: reading the escape back gives the text. */
  lemma {:induction false} EscapeReadsBack(s: JsString)
    ensures Unescape(Escape(s)) == Units(s)
  {
    hide Unescape, EscapeUnit;
    if s == [] {
      NothingEscaped();
    } else {
      var rest := s[StepAt(s, 0)..];
      EscapeReadsBack(rest);
      if PairAt(s, 0) {
        UnescapePlain(s[1], Escape(rest));
        UnescapePlain(s[0], [s[1]] + Escape(rest));
        assert s[0..2] + Escape(rest) == [s[0]] + ([s[1]] + Escape(rest));
        assert Units(s) == [s[0] as int] + ([s[1] as int] + Units(rest));
      } else {
        UnescapeStep(s[0], Escape(rest));
        assert Units(s) == [s[0] as int] + Units(rest);
      }
    }
  }

  lemma NothingEscaped()
    ensures Unescape(Escape([])) == [] && Units([]) == []
  {
  }

  /** Decimal digits. */
  function Dec(n: nat): (r: JsString)
    ensures r != [] && forall i | 0 <= i < |r| :: 0x30 <= r[i] <= 0x39
  {
    (if n < 10 then [] else Dec(n / 10)) + [(0x30 + n % 10) as CodeUnit]
  }
}
