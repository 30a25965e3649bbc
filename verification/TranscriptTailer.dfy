/** Reading a transcript by offset: the new complete lines, decoded, and where the next read starts. That is computed
    from the decoded text, so it is right exactly for text whose length decoding keeps. */
module TranscriptTailer {
  import opened Utf16
  import opened LineTail
  import opened Utf8

  // ---- lines of bytes ----

  /** The lines completed between `from` and `n`, both at line boundaries: the text there, split at newlines. */
  function LinesBetween(data: seq<Byte>, from: nat, n: nat): seq<seq<Byte>>
    requires n <= |data|
  {
    if n <= from then []
    else if data[n - 1] == NL then LinesBetween(data, from, n - 1) + [data[LineStart(data, n - 1)..n - 1]]
    else LinesBetween(data, from, n - 1)
  }

  predicate AtBoundary(data: seq<Byte>, n: nat) {
    n <= |data| && (n == 0 || data[n - 1] == NL)
  }

  function Rejoined(lines: seq<seq<Byte>>): seq<Byte> {
    if lines == [] then [] else Rejoined(lines[..|lines| - 1]) + lines[|lines| - 1] + [NL]
  }

  lemma {:induction false} StartAfter(data: seq<Byte>, from: nat, n: nat)
    requires AtBoundary(data, from) && from <= n <= |data|
    ensures LineStart(data, n) >= from
  {
    if n > from && data[n - 1] != NL { StartAfter(data, from, n - 1); }
  }

  lemma RejoinOne(lines: seq<seq<Byte>>, line: seq<Byte>, text: seq<Byte>)
    requires Rejoined(lines) + line == text
    ensures Rejoined(lines + [line]) == text + [NL]
  {
    assert (lines + [line])[..|lines|] == lines;
  }

  /** Splitting loses nothing: the lines, each followed by its newline, and the unfinished rest are the text. */
  lemma {:induction false} SplitRejoins(data: seq<Byte>, from: nat, n: nat)
    requires AtBoundary(data, from) && from <= n <= |data|
    ensures Rejoined(LinesBetween(data, from, n)) + data[LineStart(data, n)..n] == data[from..n]
  {
    StartAfter(data, from, n);
    if n > from {
      SplitRejoins(data, from, n - 1);
      LinesSnoc(data, from, n);
      var p := LineStart(data, n - 1);
      var before := LinesBetween(data, from, n - 1);
      assert LineStart(data, n) == if data[n - 1] == NL then n else p;
      hide LinesBetween, Rejoined, LineStart, AtBoundary;
      RejoinNext(data, from, n, p, before);
    }
  }

  lemma RejoinNext(data: seq<Byte>, from: nat, n: nat, p: nat, before: seq<seq<Byte>>)
    requires from < n <= |data| && p < n && Rejoined(before) + data[p..n - 1] == data[from..n - 1]
    ensures data[n - 1] == NL ==> Rejoined(before + [data[p..n - 1]]) + data[n..n] == data[from..n]
    ensures Rejoined(before) + data[p..n] == data[from..n]
  {
    assert data[from..n] == data[from..n - 1] + [data[n - 1]];
    assert data[p..n] == data[p..n - 1] + [data[n - 1]];
    RejoinOne(before, data[p..n - 1], data[from..n - 1]);
    hide Rejoined;
    assert Rejoined(before) + (data[p..n - 1] + [data[n - 1]]) == Rejoined(before) + data[p..n - 1] + [data[n - 1]];
  }

  lemma LinesSnoc(data: seq<Byte>, from: nat, n: nat)
    requires n <= |data|
    ensures n <= from ==> LinesBetween(data, from, n) == []
    ensures n > from ==>
            LinesBetween(data, from, n) ==
            LinesBetween(data, from, n - 1) + if data[n - 1] == NL then [data[LineStart(data, n - 1)..n - 1]] else []
  {
  }

  /** Lines up to `n` are those up to `from` and those between. */
  lemma {:induction false} LinesConcat(data: seq<Byte>, from: nat, n: nat)
    requires from <= n <= |data|
    ensures LinesBetween(data, 0, n) == LinesBetween(data, 0, from) + LinesBetween(data, from, n)
  {
    if n > from { LinesConcat(data, from, n - 1); }
  }

  lemma {:induction false} StartGrows(data: seq<Byte>, more: seq<Byte>, n: nat)
    requires n <= |data| && data <= more
    ensures LineStart(more, n) == LineStart(data, n)
  {
    if n > 0 { StartGrows(data, more, n - 1); }
  }

  lemma {:induction false} LinesGrow(data: seq<Byte>, more: seq<Byte>, n: nat)
    requires n <= |data| && data <= more
    ensures LinesBetween(more, 0, n) == LinesBetween(data, 0, n)
  {
    if n > 0 {
      LinesGrow(data, more, n - 1);
      StartGrows(data, more, n - 1);
      var p := LineStart(data, n - 1);
      assert more[p..n - 1] == data[p..n - 1];
    }
  }

  /** Past a line boundary the text can be taken on its own. */
  lemma {:induction false} StartShifts(data: seq<Byte>, from: nat, n: nat)
    requires AtBoundary(data, from) && from + n <= |data|
    ensures LineStart(data, from + n) == from + LineStart(data[from..], n)
  {
    if n > 0 && data[from + n - 1] != NL { StartShifts(data, from, n - 1); }
  }

  lemma SliceOfRest(data: seq<Byte>, from: nat, i: nat, j: nat)
    requires i <= j && from + j <= |data|
    ensures data[from..][i..j] == data[from + i..from + j]
  {
  }

  lemma {:induction false} LinesShift(data: seq<Byte>, from: nat, n: nat)
    requires AtBoundary(data, from) && from + n <= |data|
    ensures LinesBetween(data[from..], 0, n) == LinesBetween(data, from, from + n)
  {
    hide LinesBetween, LineStart, AtBoundary;
    LinesSnoc(data[from..], 0, n);
    LinesSnoc(data, from, from + n);
    if n > 0 {
      LinesShift(data, from, n - 1);
      StartShifts(data, from, n - 1);
      SliceOfRest(data, from, LineStart(data[from..], n - 1), n - 1);
    }
  }

  /** After the last newline no line is completed. */
  lemma {:induction false} LinesToLast(data: seq<Byte>, from: nat, n: nat)
    requires n <= |data|
    ensures LinesBetween(data, from, LineStart(data, n)) == LinesBetween(data, from, n)
  {
    if n > 0 && data[n - 1] != NL { LinesToLast(data, from, n - 1); }
  }

  // ---- lines of text ----

  function DecodeEach(lines: seq<seq<Byte>>): seq<JsString> {
    if lines == [] then [] else DecodeEach(lines[..|lines| - 1]) + [Decode(lines[|lines| - 1])]
  }

  lemma DecodeEachSnoc(lines: seq<seq<Byte>>, line: seq<Byte>)
    ensures DecodeEach(lines + [line]) == DecodeEach(lines) + [Decode(line)]
  {
    assert (lines + [line])[..|lines|] == lines;
  }

  lemma {:induction false} DecodeEachConcat(a: seq<seq<Byte>>, b: seq<seq<Byte>>)
    ensures DecodeEach(a + b) == DecodeEach(a) + DecodeEach(b)
  {
    if b == [] {
      assert a + b == a;
    } else {
      var n := |b| - 1;
      assert (a + b)[..|a + b| - 1] == a + b[..n];
      DecodeEachConcat(a, b[..n]);
    }
  }

  /** The lines of a text that a newline ends. */
  function Closed(text: JsString): seq<JsString> {
    if text == [] then []
    else
      var t := text[..|text| - 1];
      Closed(t) + if text[|text| - 1] == NEWLINE then [Open(t)] else []
  }

  /** What follows the last newline. */
  function Open(text: JsString): JsString {
    if text == [] || text[|text| - 1] == NEWLINE then [] else Open(text[..|text| - 1]) + [text[|text| - 1]]
  }

  lemma NextUnit(text: JsString, u: CodeUnit)
    ensures u == NEWLINE ==> Closed(text + [u]) == Closed(text) + [Open(text)] && Open(text + [u]) == []
    ensures u != NEWLINE ==> Closed(text + [u]) == Closed(text) && Open(text + [u]) == Open(text) + [u]
  {
    assert (text + [u])[..|text|] == text;
  }

  lemma AppendLast(a: JsString, b: JsString)
    requires b != []
    ensures a + b[..|b| - 1] + [b[|b| - 1]] == a + b
  {
  }

  lemma {:induction false} PlainText(text: JsString, more: JsString)
    requires NEWLINE !in more
    ensures Closed(text + more) == Closed(text) && Open(text + more) == Open(text) + more
  {
    hide Closed, Open;
    if more == [] {
      assert text + more == text && Open(text) + more == Open(text);
    } else {
      var n := |more| - 1;
      PlainText(text, more[..n]);
      NextUnit(text + more[..n], more[n]);
      AppendLast(text, more);
      AppendLast(Open(text), more);
    }
  }

  lemma CutAtNewline(data: seq<Byte>, p: nat)
    requires 0 < p <= |data| && data[p - 1] == NL
    ensures Decode(data) == Decode(data[..p - 1]) + [NEWLINE] + Decode(data[p..])
  {
    hide Decode;
    DecodeLine(data[..p - 1], data[p..]);
    assert data[..p - 1] + [NL] + data[p..] == data;
  }

  lemma RestIsPlain(data: seq<Byte>)
    ensures NEWLINE !in Decode(data[LineStart(data, |data|)..])
  {
    PlainSinceStart(data, |data|);
    DecodePlain(data[LineStart(data, |data|)..]);
  }

  /** Splitting the decoded text gives the decoded lines. */
  lemma {:induction false} SplitDecoded(data: seq<Byte>)
    ensures Closed(Decode(data)) == DecodeEach(LinesBetween(data, 0, |data|))
    ensures Open(Decode(data)) == Decode(data[LineStart(data, |data|)..])
  {
    hide LinesBetween, DecodeEach, LineStart, Decode, Closed, Open;
    var p := LineStart(data, |data|);
    LinesToLast(data, 0, |data|);
    if p == 0 {
      NoNewline(data);
      OnlyOpen(Decode(data));
      NoLines(data);
    } else {
      SplitDecoded(data[..p - 1]);
      LastLine(data, p);
      CutAtNewline(data, p);
      RestIsPlain(data);
      NextUnit(Decode(data[..p - 1]), NEWLINE);
      PlainText(Decode(data[..p - 1]) + [NEWLINE], Decode(data[p..]));
      assert [] + Decode(data[p..]) == Decode(data[p..]);
    }
  }

  lemma OnlyOpen(text: JsString)
    requires NEWLINE !in text
    ensures Closed(text) == [] && Open(text) == text
  {
    PlainText([], text);
    assert [] + text == text;
  }

  lemma NoLines(data: seq<Byte>)
    requires LineStart(data, |data|) == 0
    ensures ReadMakes(data, [], 0) && DecodeEach(LinesBetween(data, 0, 0)) == [] && data[0..] == data
  {
  }

  /** The last line and those before it. */
  lemma LastLine(data: seq<Byte>, p: nat)
    requires 0 < p <= |data| && data[p - 1] == NL
    ensures var a := data[..p - 1];
            DecodeEach(LinesBetween(data, 0, p)) ==
            DecodeEach(LinesBetween(a, 0, |a|)) + [Decode(a[LineStart(a, |a|)..])]
  {
    hide LinesBetween, LineStart;
    var a := data[..p - 1];
    LinesSnoc(data, 0, p);
    LinesGrow(a, data, p - 1);
    StartGrows(a, data, p - 1);
    var q := LineStart(a, p - 1);
    assert data[q..p - 1] == a[q..];
    DecodeEachSnoc(LinesBetween(a, 0, |a|), a[q..]);
  }

  // ---- the read ----

  /** `i` is where the last newline is, -1 if there is none. */
  predicate IsLast(text: JsString, i: int) {
    -1 <= i < |text| && (i >= 0 ==> text[i] == NEWLINE) && forall k | i < k < |text| :: text[k] != NEWLINE
  }

  method LastNewline(text: JsString) returns (i: int)
    ensures IsLast(text, i)
  {
    i := |text| - 1;
    while i >= 0 && text[i] != NEWLINE
      invariant -1 <= i < |text| && forall k | i < k < |text| :: text[k] != NEWLINE
    {
      i := i - 1;
    }
  }

  /** A text cut at its newlines, the last piece being what follows the last one. */
  method Split(text: JsString) returns (lines: seq<JsString>)
    ensures lines == Closed(text) + [Open(text)]
  {
    lines := [];
    var start, i := 0, 0;
    while i < |text|
      invariant 0 <= start <= i <= |text|
      invariant lines == Closed(text[..i]) && text[start..i] == Open(text[..i])
    {
      NextUnit(text[..i], text[i]);
      assert text[..i] + [text[i]] == text[..i + 1];
      if text[i] == NEWLINE {
        lines := lines + [text[start..i]];
        start := i + 1;
      } else {
        assert text[start..i + 1] == text[start..i] + [text[i]];
      }
      i := i + 1;
    }
    assert text[..|text|] == text && text[start..|text|] == text[start..];
    lines := lines + [text[start..]];
  }

  /** What a read of `data` makes: the decoded lines, and how far it moves the offset. That is past the last
      newline, and further by what decoding added to the text before it. */
  ghost predicate ReadMakes(data: seq<Byte>, lines: seq<JsString>, advance: int) {
    var n := LineStart(data, |data|);
    && lines == DecodeEach(LinesBetween(data, 0, n))
    && advance == if n == 0 then 0 else n + Surplus(data[..n - 1])
  }

  /** What a read from `offset` returns. */
  ghost predicate ReadFrom(bytes: seq<Byte>, offset: nat, lines: seq<JsString>, newOffset: int) {
    if |bytes| <= offset then lines == [] && newOffset == offset
    else ReadMakes(bytes[offset..], lines, newOffset - offset)
  }

  /** The text up to its last newline, as the read sees it. */
  lemma WhatIsRead(data: seq<Byte>, i: int)
    requires IsLast(Decode(data), i)
    ensures i == -1 <==> LineStart(data, |data|) == 0
    ensures i >= 0 ==> Decode(data)[..i] == Decode(data[..LineStart(data, |data|) - 1])
  {
    hide Decode, LineStart, IsLast;
    var p := LineStart(data, |data|);
    if p == 0 {
      NoNewline(data);
      NoneIsThere(Decode(data), i);
    } else {
      CutAtNewline(data, p);
      RestIsPlain(data);
      LastIsThere(Decode(data[..p - 1]), Decode(data[p..]), Decode(data), i);
    }
  }

  lemma NoNewline(data: seq<Byte>)
    requires LineStart(data, |data|) == 0
    ensures NEWLINE !in Decode(data)
  {
    PlainSinceStart(data, |data|);
    DecodePlain(data);
  }

  lemma NoneIsThere(text: JsString, i: int)
    requires IsLast(text, i) && NEWLINE !in text
    ensures i == -1
  {
  }

  lemma LastInText(text: JsString, i: int)
    requires IsLast(text, i)
    ensures -1 <= i < |text|
  {
  }

  lemma LastIsThere(a: JsString, b: JsString, text: JsString, i: int)
    requires text == a + [NEWLINE] + b && NEWLINE !in b
    requires IsLast(text, i)
    ensures i == |a| && text[..i] == a
  {
    assert text[|a|] == NEWLINE && forall k | |a| < k < |text| :: text[k] == b[k - |a| - 1];
  }

  /** Splitting the part read gives its lines, the last one included, and its length tells how far the read came. */
  lemma WhatIsMade(data: seq<Byte>, n: nat, complete: JsString)
    requires 0 < n <= |data| && data[n - 1] == NL && complete == Decode(data[..n - 1])
    ensures Closed(complete) + [Open(complete)] == DecodeEach(LinesBetween(data, 0, n))
    ensures Utf8Len(complete) + 1 == n + Surplus(data[..n - 1])
  {
    LastLine(data, n);
    SplitDecoded(data[..n - 1]);
    DecodedLength(data[..n - 1]);
  }

  lemma ReadIsMade(data: seq<Byte>, text: JsString, i: int)
    requires text == Decode(data) && IsLast(text, i)
    ensures i == -1 ==> ReadMakes(data, [], 0)
    ensures i >= 0 ==> ReadMakes(data, Closed(text[..i]) + [Open(text[..i])], Utf8Len(text[..i]) + 1)
  {
    hide Decode, Closed, Open, DecodeEach, LinesBetween, Surplus, LineStart, Utf8Len;
    if i == -1 {
      WhatIsRead(data, i);
      hide *;
      NoLines(data);
    } else {
      WhatIsRead(data, i);
      WhatIsMade(data, LineStart(data, |data|), text[..i]);
    }
  }

  /** The complete lines of the bytes read, and how far they reach when encoded again. */
  method CompleteLines(buffer: seq<Byte>) returns (lines: seq<JsString>, advance: nat)
    ensures ReadMakes(buffer, lines, advance)
  {
    hide *;
    var text := Decode(buffer);
    var i := LastNewline(text);
    LastInText(text, i);
    if i == -1 {
      ReadIsMade(buffer, text, i);
      return [], 0;
    }
    var complete := text[..i];
    advance := Utf8Len(complete) + 1;
    lines := Split(complete);
    ReadIsMade(buffer, text, i);
  }

  /** The complete lines from `offset` on, decoded, and where the next read starts. */
  method ReadNewLines(bytes: seq<Byte>, offset: nat) returns (lines: seq<JsString>, newOffset: nat)
    ensures ReadFrom(bytes, offset, lines, newOffset)
  {
    if |bytes| <= offset { return [], offset; }
    hide ReadMakes;
    var advance;
    lines, advance := CompleteLines(bytes[offset..]);
    newOffset := offset + advance;
  }

  /** Without a new line the offset stays. */
  lemma NoneNoMove(bytes: seq<Byte>, offset: nat, lines: seq<JsString>, newOffset: nat)
    requires ReadFrom(bytes, offset, lines, newOffset) && lines == []
    ensures newOffset == offset
  {
    if offset < |bytes| {
      var data := bytes[offset..];
      hide ReadFrom, LineStart, Surplus;
      var n := LineStart(data, |data|);
      LinesSnoc(data, 0, n);
    }
  }

  // ---- when the offset is right ----

  function TextLines(data: seq<Byte>, from: nat, n: nat): seq<JsString>
    requires n <= |data|
  {
    DecodeEach(LinesBetween(data, from, n))
  }

  /** Decoding keeps the length of every complete line, as it does in valid UTF-8. */
  predicate Clean(data: seq<Byte>) {
    KeepsLength(data[..LineStart(data, |data|)])
  }

  lemma CleanParts(data: seq<Byte>, from: nat, n: nat)
    requires AtBoundary(data, from) && from <= n <= |data|
    ensures KeepsLength(data[..n]) <==> KeepsLength(data[..from]) && KeepsLength(data[from..n])
  {
    assert data[..n] == data[..from] + data[from..n];
    KeepsConcat(data[..from], data[from..n]);
  }

  /** What is clean was clean before it grew. */
  lemma CleanBefore(data: seq<Byte>, more: seq<Byte>)
    requires data <= more && Clean(more)
    ensures Clean(data)
  {
    var p := LineStart(data, |data|);
    assert AtBoundary(more, p);
    StartAfter(more, p, |more|);
    hide KeepsLength, LineStart;
    CleanParts(more, p, LineStart(more, |more|));
    assert more[..p] == data[..p];
  }

  /** A read from a line boundary yields exactly the new complete lines. It leaves the offset just past the last
      newline if and only if decoding keeps the length of what it read; otherwise the offset is too far. */
  lemma OffsetRightExactly(bytes: seq<Byte>, offset: nat, lines: seq<JsString>, newOffset: int)
    requires AtBoundary(bytes, offset) && ReadFrom(bytes, offset, lines, newOffset)
    ensures var last := LineStart(bytes, |bytes|);
            && offset <= last <= newOffset && AtBoundary(bytes, last)
            && lines == TextLines(bytes, offset, last)
            && (newOffset == last <==> KeepsLength(bytes[offset..last]))
            && (IsUtf8(bytes[offset..last]) ==> newOffset == last)
  {
    hide ReadFrom, KeepsLength, Surplus, IsUtf8, TextLines;
    var last := LineStart(bytes, |bytes|);
    assert AtBoundary(bytes, last);
    hide LineStart;
    ReadAtBoundary(bytes, offset, lines, newOffset);
    KeepsLine(bytes, offset, last);
  }

  lemma KeepsLine(bytes: seq<Byte>, from: nat, n: nat)
    requires from <= n && AtBoundary(bytes, n)
    ensures KeepsLength(bytes[from..n]) <==> n == from || Surplus(bytes[from..n - 1]) == 0
    ensures IsUtf8(bytes[from..n]) ==> KeepsLength(bytes[from..n])
  {
    if n > from {
      KeepsLengthExactly(bytes[from..n - 1]);
      KeepsNewline(bytes[from..n - 1]);
      assert bytes[from..n - 1] + [NL] == bytes[from..n];
    }
    if IsUtf8(bytes[from..n]) { Utf8KeepsLength(bytes[from..n]); }
  }

  lemma ReadAtBoundary(bytes: seq<Byte>, offset: nat, lines: seq<JsString>, newOffset: int)
    requires AtBoundary(bytes, offset) && ReadFrom(bytes, offset, lines, newOffset)
    ensures var last := LineStart(bytes, |bytes|);
            && offset <= last && lines == TextLines(bytes, offset, last)
            && newOffset == last + if last == offset then 0 else Surplus(bytes[offset..last - 1])
  {
    hide LinesBetween, LineStart, DecodeEach, Surplus, AtBoundary, TextLines;
    LastShifts(bytes, offset);
    if offset < |bytes| {
      ShiftedRead(bytes, offset, LineStart(bytes[offset..], |bytes| - offset), lines, newOffset);
    }
  }

  lemma LastShifts(bytes: seq<Byte>, offset: nat)
    requires AtBoundary(bytes, offset)
    ensures offset <= LineStart(bytes, |bytes|) == offset + LineStart(bytes[offset..], |bytes| - offset)
    ensures offset == |bytes| ==> LineStart(bytes, |bytes|) == offset && TextLines(bytes, offset, offset) == []
  {
    StartShifts(bytes, offset, |bytes| - offset);
  }

  lemma ShiftedRead(bytes: seq<Byte>, offset: nat, n: nat, lines: seq<JsString>, newOffset: int)
    requires AtBoundary(bytes, offset) && offset + n <= |bytes|
             && lines == DecodeEach(LinesBetween(bytes[offset..], 0, n))
    requires newOffset - offset == if n == 0 then 0 else n + Surplus(bytes[offset..][..n - 1])
    ensures lines == TextLines(bytes, offset, offset + n)
    ensures newOffset == offset + n + if n == 0 then 0 else Surplus(bytes[offset..offset + n - 1])
  {
    hide LinesBetween, AtBoundary, DecodeEach, Surplus;
    LinesShift(bytes, offset, n);
    RestTo(bytes, offset, n);
  }

  lemma RestTo(data: seq<Byte>, from: nat, n: nat)
    requires from + n <= |data|
    ensures n > 0 ==> data[from..][..n - 1] == data[from..from + n - 1]
  {
  }

  /** Reading on where a right read stopped gives the lines up to the new last newline. */
  lemma TextLinesConcat(data: seq<Byte>, from: nat, n: nat)
    requires from <= n <= |data|
    ensures TextLines(data, 0, n) == TextLines(data, 0, from) + TextLines(data, from, n)
  {
    LinesConcat(data, from, n);
    DecodeEachConcat(LinesBetween(data, 0, from), LinesBetween(data, from, n));
  }

  /** Reading came as far as `offset` and nothing was lost so far. */
  predicate RightAt(data: seq<Byte>, offset: nat) {
    AtBoundary(data, offset) && KeepsLength(data[..offset])
  }

  /** Appending changes nothing before the offset. */
  lemma RightStays(data: seq<Byte>, more: seq<Byte>, offset: nat)
    requires data <= more && offset <= |data|
    ensures RightAt(data, offset) <==> RightAt(more, offset)
    ensures TextLines(data, 0, offset) == TextLines(more, 0, offset)
  {
    LinesGrow(data, more, offset);
    hide KeepsLength, LinesBetween, DecodeEach;
    assert data[..offset] == more[..offset];
  }

  /** A read from a right offset leaves it right if and only if decoding keeps the length of every complete line.
      Then all complete lines have been read. */
  lemma ReadRight(data: seq<Byte>, offset: nat, lines: seq<JsString>, newOffset: nat)
    requires RightAt(data, offset) && ReadFrom(data, offset, lines, newOffset)
    ensures newOffset == LineStart(data, |data|) <==> Clean(data)
    ensures Clean(data) ==>
              RightAt(data, newOffset) && TextLines(data, 0, newOffset) == TextLines(data, 0, offset) + lines
  {
    hide ReadFrom, TextLines, LineStart, KeepsLength, IsUtf8;
    var last := LineStart(data, |data|);
    OffsetRightExactly(data, offset, lines, newOffset);
    CleanParts(data, offset, last);
    TextLinesConcat(data, offset, last);
  }

  lemma LostLine()
    ensures TextLines([0xFF, NL, 0x61, NL], 2, 4) == [[0x61]]
  {
    var d := [0xFF, NL, 0x61, NL];
    LinesSnoc(d, 2, 4);
    LinesSnoc(d, 2, 3);
    LinesSnoc(d, 2, 2);
    assert LineStart(d, 3) == LineStart(d, 2) == 2 && d[2..3] == [0x61];
    assert [0x61][1..] == [];
    DecodeEachSnoc([], [0x61]);
    assert LinesBetween(d, 2, 4) == [] + [[0x61]] && Decode([0x61]) == [0x61];
    assert d == [0xFF, NL, 0x61, NL];
  }

  /** One byte that is no UTF-8 moves the offset two bytes too far: a line of one letter appended next is never read. */
  method InvalidByteLosesLine() returns (first: seq<JsString>, moved: nat, lines: seq<JsString>, offset: nat)
    ensures ReadFrom([0xFF, NL], 0, first, moved) && moved == 4
    ensures ReadFrom([0xFF, NL, 0x61, NL], moved, lines, offset) && lines == [] && offset == 4
    ensures TextLines([0xFF, NL, 0x61, NL], 2, 4) == [[0x61]]
  {
    var file := [0xFF, NL];
    first, moved := ReadNewLines(file, 0);
    assert LineStart(file, 2) == 2;
    assert file[0..][..1] == [0xFF] && Surplus([0xFF]) == 2;
    lines, offset := ReadNewLines(file + [0x61, NL], moved);
    LostLine();
    assert file + [0x61, NL] == [0xFF, NL, 0x61, NL];
  }
}
