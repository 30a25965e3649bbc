/** Decoding bytes as UTF-8 (section 3 of RFC 3629) with replacement: every maximal part that is not the encoding
    of a character becomes one replacement character. */
module Utf8 {
  import opened Utf16
  import opened LineTail

  const REPLACEMENT: CodeUnit := 0xFFFD

  // ---- one part ----

  predicate IsLead(b: Byte) { 0xC2 <= b <= 0xF4 }

  /** Continuation bytes the lead byte calls for. */
  function Needs(b: Byte): nat
    requires IsLead(b)
  {
    if b < 0xE0 then 1 else if b < 0xF0 then 2 else 3
  }

  predicate IsContinuation(b: Byte) { 0x80 <= b < 0xC0 }

  /** The byte after the lead has the narrower range that rules out overlong forms, surrogates and code points
      past the last. */
  predicate MayFollow(lead: Byte, b: Byte) {
    (if lead == 0xE0 then 0xA0 else if lead == 0xF0 then 0x90 else 0x80) <= b
    <= (if lead == 0xED then 0x9F else if lead == 0xF4 then 0x8F else 0xBF)
  }

  /** Length of the part that begins `s`: a character's encoding, or as much of one as is there. */
  function PartLen(s: seq<Byte>): (n: nat)
    requires s != []
    ensures 1 <= n <= 4 && n <= |s|
    ensures forall k | 1 <= k < n :: IsContinuation(s[k])
  {
    if !IsLead(s[0]) || |s| < 2 || !MayFollow(s[0], s[1]) then 1
    else if Needs(s[0]) == 1 || |s| < 3 || !IsContinuation(s[2]) then 2
    else if Needs(s[0]) == 2 || |s| < 4 || !IsContinuation(s[3]) then 3
    else 4
  }

  /** The part that begins `s` is a character's encoding. */
  predicate IsCharacter(s: seq<Byte>)
    requires s != []
  {
    s[0] < 0x80 || (IsLead(s[0]) && PartLen(s) == 1 + Needs(s[0]))
  }

  function CodePointOf(s: seq<Byte>): (cp: int)
    requires s != [] && IsCharacter(s)
    ensures 0 <= cp < 0x11_0000 && !(0xD800 <= cp < 0xE000) && Utf8Width(cp) == PartLen(s)
    ensures cp == 10 <==> s[0] == NL
  {
    var n := PartLen(s);
    if n == 1 then s[0] as int
    else if n == 2 then (s[0] as int - 0xC0) * 0x40 + (s[1] as int - 0x80)
    else if n == 3 then (s[0] as int - 0xE0) * 0x1000 + (s[1] as int - 0x80) * 0x40 + (s[2] as int - 0x80)
    else (s[0] as int - 0xF0) * 0x4_0000 + (s[1] as int - 0x80) * 0x1000 + (s[2] as int - 0x80) * 0x40
         + (s[3] as int - 0x80)
  }

  function UnitsOf(cp: int): JsString
    requires 0 <= cp < 0x11_0000
  {
    if cp < 0x1_0000 then [cp as CodeUnit]
    else [(0xD800 + (cp - 0x1_0000) / 0x400) as CodeUnit, (0xDC00 + (cp - 0x1_0000) % 0x400) as CodeUnit]
  }

  function PartUnits(s: seq<Byte>): JsString
    requires s != []
  {
    if IsCharacter(s) then UnitsOf(CodePointOf(s)) else [REPLACEMENT]
  }

  function Decode(s: seq<Byte>): JsString {
    if s == [] then [] else PartUnits(s) + Decode(s[PartLen(s)..])
  }

  // ---- what decoding inverts ----

  /** The encoding of a code point, from its groups of six bits. */
  function Encode(cp: int): seq<Byte>
    requires 0 <= cp < 0x11_0000
  {
    var x, y, z := cp / 0x1000, cp / 0x40 % 0x40, cp % 0x40;
    if cp < 0x80 then [cp as Byte]
    else if cp < 0x800 then [(0xC0 + cp / 0x40) as Byte, (0x80 + z) as Byte]
    else if cp < 0x1_0000 then [(0xE0 + x) as Byte, (0x80 + y) as Byte, (0x80 + z) as Byte]
    else [(0xF0 + x / 0x40) as Byte, (0x80 + x % 0x40) as Byte, (0x80 + y) as Byte, (0x80 + z) as Byte]
  }

  lemma TwoBytes(y: int, z: int)
    requires 2 <= y < 0x20 && 0 <= z < 0x40
    ensures var s := [(0xC0 + y) as Byte, (0x80 + z) as Byte];
            IsCharacter(s) && PartLen(s) == 2 && CodePointOf(s) == y * 0x40 + z
  {
  }

  lemma ThreeBytes(x: int, y: int, z: int)
    requires 0 <= x < 0x10 && 0 <= y < 0x40 && 0 <= z < 0x40
    requires (x == 0 ==> y >= 0x20) && (x == 0xD ==> y < 0x20)
    ensures var s := [(0xE0 + x) as Byte, (0x80 + y) as Byte, (0x80 + z) as Byte];
            IsCharacter(s) && PartLen(s) == 3 && CodePointOf(s) == x * 0x1000 + y * 0x40 + z
  {
  }

  lemma FourBytes(w: int, x: int, y: int, z: int)
    requires 0 <= w < 5 && 0 <= x < 0x40 && 0 <= y < 0x40 && 0 <= z < 0x40
    requires (w == 0 ==> x >= 0x10) && (w == 4 ==> x < 0x10)
    ensures var s := [(0xF0 + w) as Byte, (0x80 + x) as Byte, (0x80 + y) as Byte, (0x80 + z) as Byte];
            IsCharacter(s) && PartLen(s) == 4 && CodePointOf(s) == w * 0x4_0000 + x * 0x1000 + y * 0x40 + z
  {
  }

  lemma SixBits(cp: int)
    requires 0 <= cp < 0x11_0000
    ensures var w, x, y, z := cp / 0x1000 / 0x40, cp / 0x1000 % 0x40, cp / 0x40 % 0x40, cp % 0x40;
            && cp == w * 0x4_0000 + x * 0x1000 + y * 0x40 + z
            && cp / 0x1000 == w * 0x40 + x && (cp < 0x1000 ==> cp / 0x40 == y)
  {
    assert cp / 0x1000 == cp / 0x40 / 0x40;
  }

  /** Every character decodes from its encoding. */
  lemma EncodeDecodes(cp: int)
    requires 0 <= cp < 0x11_0000 && !(0xD800 <= cp < 0xE000)
    ensures var s := Encode(cp); IsCharacter(s) && PartLen(s) == |s| && CodePointOf(s) == cp
  {
    hide CodePointOf, PartLen, IsCharacter;
    SixBits(cp);
    var x, y, z := cp / 0x1000, cp / 0x40 % 0x40, cp % 0x40;
    if cp < 0x80 {
      OneByte(cp);
    } else if cp < 0x800 {
      TwoBytes(cp / 0x40, z);
    } else if cp < 0x1_0000 {
      ThreeBytes(x, y, z);
    } else {
      FourBytes(x / 0x40, x % 0x40, y, z);
    }
  }

  /** Only a character's encoding decodes to it. */
  lemma DecodeEncodes(s: seq<Byte>)
    requires s != [] && IsCharacter(s)
    ensures Encode(CodePointOf(s)) == s[..PartLen(s)]
  {
    var n, cp := PartLen(s), CodePointOf(s);
    assert n >= 2 ==> IsContinuation(s[1]);
    if n == 1 {
    } else if n == 2 {
      SixBitsOf(0, 0, s[0] as int - 0xC0, s[1] as int - 0x80);
    } else if n == 3 {
      SixBitsOf(0, s[0] as int - 0xE0, s[1] as int - 0x80, s[2] as int - 0x80);
    } else {
      SixBitsOf(s[0] as int - 0xF0, s[1] as int - 0x80, s[2] as int - 0x80, s[3] as int - 0x80);
    }
  }

  lemma SixBitsOf(w: int, x: int, y: int, z: int)
    requires 0 <= w && 0 <= x < 0x40 && 0 <= y < 0x40 && 0 <= z < 0x40
    ensures var cp := w * 0x4_0000 + x * 0x1000 + y * 0x40 + z;
            cp / 0x1000 == w * 0x40 + x && cp / 0x1000 / 0x40 == w && cp / 0x1000 % 0x40 == x && cp / 0x40 % 0x40 == y
            && cp % 0x40 == z
            && cp / 0x40 == w * 0x1000 + x * 0x40 + y
  {
  }

  lemma OneByte(cp: int)
    requires 0 <= cp < 0x80
    ensures var s := [cp as Byte]; IsCharacter(s) && PartLen(s) == 1 && CodePointOf(s) == cp
  {
  }

  // ---- how long the text is, encoded again ----

  /** Bytes gained by encoding the decoded text again: a replacement character takes three. */
  function Surplus(s: seq<Byte>): nat {
    if s == [] then 0
    else (if IsCharacter(s) then 0 else 3 - PartLen(s)) + Surplus(s[PartLen(s)..])
  }

  lemma PartShort(s: seq<Byte>)
    requires s != [] && !IsCharacter(s)
    ensures PartLen(s) <= 3
  {
  }

  /** Every maximal part that is no character is three bytes long, as its replacement is. */
  predicate KeepsLength(s: seq<Byte>) {
    s == [] || ((IsCharacter(s) || PartLen(s) == 3) && KeepsLength(s[PartLen(s)..]))
  }

  /** `s` is valid UTF-8. */
  predicate IsUtf8(s: seq<Byte>) {
    s == [] || (IsCharacter(s) && IsUtf8(s[PartLen(s)..]))
  }

  /** One part's units take three bytes if they replace it and its own length otherwise, and no pair straddles
      their end. */
  lemma PartSizes(s: seq<Byte>)
    requires s != []
    ensures var u := PartUnits(s);
            && u != [] && !IsHigh(u[|u| - 1]) && StepAt(u, 0) == |u|
            && Utf8Len(u) == if IsCharacter(s) then PartLen(s) else 3
  {
    var u := PartUnits(s);
    assert u[|u|..] == [];
  }

  /** The decoded text takes exactly the surplus more than the bytes it came from. */
  lemma {:induction false} DecodedLength(s: seq<Byte>)
    ensures Utf8Len(Decode(s)) == |s| + Surplus(s)
  {
    if s != [] {
      var rest := s[PartLen(s)..];
      DecodedLength(rest);
      PartSizes(s);
      if !IsCharacter(s) { PartShort(s); }
      Utf8Concat(PartUnits(s), Decode(rest));
    }
  }

  lemma {:induction false} KeepsLengthExactly(s: seq<Byte>)
    ensures KeepsLength(s) <==> Surplus(s) == 0
  {
    if s != [] { KeepsLengthExactly(s[PartLen(s)..]); }
  }

  /** Decoding loses no byte of valid text, and keeps the length of other text exactly if every part that is no
      character is three bytes long. */
  lemma DecodedLengthExactly(s: seq<Byte>)
    ensures Utf8Len(Decode(s)) == |s| <==> KeepsLength(s)
    ensures IsUtf8(s) ==> KeepsLength(s)
    ensures Utf8Len(Decode(s)) >= |s|
  {
    DecodedLength(s);
    KeepsLengthExactly(s);
    if IsUtf8(s) { Utf8KeepsLength(s); }
  }

  lemma {:induction false} Utf8KeepsLength(s: seq<Byte>)
    requires IsUtf8(s)
    ensures KeepsLength(s)
  {
    if s != [] { Utf8KeepsLength(s[PartLen(s)..]); }
  }

  // ---- cutting at newlines ----

  const NEWLINE: CodeUnit := 0x0A

  /** No character straddles the join: a newline ends the first text or a byte that continues nothing begins the
      second. */
  predicate Apart(a: seq<Byte>, b: seq<Byte>) {
    a == [] || a[|a| - 1] == NL || b == [] || !IsContinuation(b[0])
  }

  lemma PartStays(a: seq<Byte>, b: seq<Byte>)
    requires a != [] && Apart(a, b)
    ensures PartLen(a + b) == PartLen(a) && IsCharacter(a + b) == IsCharacter(a) && PartUnits(a + b) == PartUnits(a)
    ensures (a + b)[PartLen(a)..] == a[PartLen(a)..] + b && Apart(a[PartLen(a)..], b)
  {
  }

  /** Between characters the text can be decoded in two pieces. */
  lemma {:induction false} DecodeConcat(a: seq<Byte>, b: seq<Byte>)
    requires Apart(a, b)
    ensures Decode(a + b) == Decode(a) + Decode(b)
  {
    if a == [] {
      assert a + b == b;
    } else {
      PartStays(a, b);
      var rest := a[PartLen(a)..];
      hide PartUnits, PartLen, IsCharacter;
      DecodeConcat(rest, b);
      assert PartUnits(a) + (Decode(rest) + Decode(b)) == PartUnits(a) + Decode(rest) + Decode(b);
    }
  }

  lemma {:induction false} KeepsConcat(a: seq<Byte>, b: seq<Byte>)
    requires Apart(a, b)
    ensures KeepsLength(a + b) <==> KeepsLength(a) && KeepsLength(b)
  {
    if a == [] {
      assert a + b == b;
    } else {
      PartStays(a, b);
      hide PartUnits, PartLen, IsCharacter;
      KeepsConcat(a[PartLen(a)..], b);
    }
  }

  lemma KeepsNewline(a: seq<Byte>)
    ensures KeepsLength(a + [NL]) <==> KeepsLength(a)
  {
    KeepsConcat(a, [NL]);
    assert KeepsLength([NL]) by { assert [NL][1..] == []; }
  }

  lemma DecodeNewline(b: seq<Byte>)
    ensures Decode([NL] + b) == [NEWLINE] + Decode(b)
  {
    assert ([NL] + b)[1..] == b;
  }

  /** A newline ends a line before and after decoding. */
  lemma DecodeLine(a: seq<Byte>, b: seq<Byte>)
    ensures Decode(a + [NL] + b) == Decode(a) + [NEWLINE] + Decode(b)
  {
    assert a + [NL] + b == a + ([NL] + b);
    DecodeConcat(a, [NL] + b);
    DecodeNewline(b);
  }

  /** Decoding makes no newline. */
  lemma {:induction false} DecodePlain(s: seq<Byte>)
    requires NL !in s
    ensures NEWLINE !in Decode(s)
  {
    if s != [] {
      assert s[0] in s && forall b | b in s[PartLen(s)..] :: b in s;
      DecodePlain(s[PartLen(s)..]);
      assert NEWLINE !in PartUnits(s);
    }
  }
}
