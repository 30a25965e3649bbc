/** Cutting an answer into pages under three bounds at once: its UTF-8 bytes, the page's JSON form, and the JSON
    form of that JSON form inside the wrapper a client receives. */
module AnswerPages {
  import opened Options
  import opened Utf16
  import opened Json

  const STATUS_RESERVE := 8192
  const LAST_INDEX := 999999

  // ---- sizes ----

  /** UTF-8 bytes of the text, of its JSON escape, and of the escape of its escape. */
  function Raw(s: JsString): nat { Utf8Len(s) }

  function Once(s: JsString): nat { Utf8Len(Escape(s)) }

  function Twice(s: JsString): nat { Utf8Len(Escape(Escape(s))) }

  lemma EscapeIn(a: JsString, b: JsString)
    requires a != [] && Joins(a, b)
    ensures EscapeAt(a + b, 0) == EscapeAt(a, 0)
  {
    assert PairAt(a + b, 0) == PairAt(a, 0);
  }

  lemma EscapeStep(a: JsString)
    requires a != []
    ensures Escape(a) == EscapeAt(a, 0) + Escape(a[StepAt(a, 0)..])
  {
    hide EscapeAt;
  }

  lemma EscapeJoin(a: JsString, b: JsString, rest: JsString)
    requires a != [] && Joins(a, b) && rest == a[StepAt(a, 0)..] && Escape(rest + b) == Escape(rest) + Escape(b)
    ensures Escape(a + b) == Escape(a) + Escape(b)
  {
    hide Escape, EscapeAt, Joins, StepAt;
    EscapeStep(a);
    StepIn(a, b);
    EscapeIn(a, b);
    var whole := a + b;
    EscapeStep(whole);
    Associate(EscapeAt(a, 0), Escape(rest), Escape(b));
  }

  lemma Associate(a: JsString, b: JsString, c: JsString)
    ensures a + (b + c) == (a + b) + c
  {
  }

  lemma {:induction false} EscapeConcat(a: JsString, b: JsString)
    requires Joins(a, b)
    ensures Escape(a + b) == Escape(a) + Escape(b)
  {
    if a == [] {
      assert a + b == b;
    } else {
      hide Escape;
      StepIn(a, b);
      EscapeConcat(a[StepAt(a, 0)..], b);
      EscapeJoin(a, b, a[StepAt(a, 0)..]);
    }
  }

  /** No escaped text ends inside a pair. */
  lemma {:induction false} EscapeWhole(s: JsString)
    ensures var e := Escape(s); s != [] ==> e != [] && !IsHigh(e[|e| - 1])
  {
    if s != [] {
      EscapeWhole(s[StepAt(s, 0)..]);
      var first := EscapeAt(s, 0);
      assert first != [] && !IsHigh(first[|first| - 1]);
    }
  }

  /** All three sizes of a join are sums. */
  lemma SizesAdd(a: JsString, b: JsString)
    requires Joins(a, b)
    ensures Raw(a + b) == Raw(a) + Raw(b) && Once(a + b) == Once(a) + Once(b) && Twice(a + b) == Twice(a) + Twice(b)
  {
    Utf8Concat(a, b);
    EscapeConcat(a, b);
    EscapeWhole(a);
    EscapeWhole(Escape(a));
    hide Escape, Utf8Len;
    Utf8Concat(Escape(a), Escape(b));
    EscapeConcat(Escape(a), Escape(b));
    Utf8Concat(Escape(Escape(a)), Escape(Escape(b)));
  }

  predicate IsAscii(s: JsString) { forall i | 0 <= i < |s| :: s[i] < 0x80 }

  lemma {:induction false} AsciiRaw(s: JsString)
    requires IsAscii(s)
    ensures Utf8Len(s) == |s|
  {
    if s != [] { AsciiRaw(s[1..]); }
  }

  /** A quoted text takes two bytes more than its escape, and quoted inside another text four more. */
  lemma QuoteSizes(s: JsString)
    ensures Raw(Quote(s)) == 2 + Once(s) && Once(Quote(s)) == 4 + Twice(s)
  {
    EscapeWhole(s);
    var q := [QUOTE];
    assert Utf8Len(q) == 1 && Escape(q) == [BACKSLASH, QUOTE] && Utf8Len([BACKSLASH, QUOTE]) == 2 by {
      AsciiRaw(q);
      AsciiRaw([BACKSLASH, QUOTE]);
      assert q[1..] == [] && EscapeAt(q, 0) == [BACKSLASH, QUOTE];
    }
    hide Escape, Utf8Len;
    SizesAdd(q, Escape(s));
    SizesAdd(q + Escape(s), q);
  }

  /** What the paging loop computes for one code point. */
  lemma PointSizes(s: JsString)
    ensures Raw(Quote(s)) - 2 == Once(s) && Raw(Quote(Quote(s))) - 6 == Twice(s)
  {
    QuoteSizes(s);
    QuoteSizes(Quote(s));
  }

  lemma EscapeOne(s: JsString)
    requires s != [] && StepAt(s, 0) == |s|
    ensures Escape(s) == EscapeAt(s, 0) && Utf8Len(s) == Utf8Width(CodePointAt(s, 0))
  {
    assert s[|s|..] == [];
    assert EscapeAt(s, 0) + [] == EscapeAt(s, 0);
  }

  /** Escapes to itself. */
  predicate IsPlain(s: JsString) {
    forall i | 0 <= i < |s| :: 0x20 <= s[i] < 0x80 && s[i] != QUOTE && s[i] != BACKSLASH
  }

  lemma {:induction false} PlainEscape(s: JsString)
    requires IsPlain(s)
    ensures Escape(s) == s && Utf8Len(s) == |s|
  {
    if s != [] {
      PlainEscape(s[1..]);
      assert [s[0]] + s[1..] == s;
    }
  }

  /** A backslash sequence: one byte more each time it is escaped, or two if it ends in a special character. */
  lemma BackslashSizes(rest: JsString)
    requires IsPlain(rest)
    ensures Raw([BACKSLASH] + rest) == 1 + |rest| && Once([BACKSLASH] + rest) == 2 + |rest|
  {
    var b := [BACKSLASH];
    PlainEscape(rest);
    EscapeOne(b);
    AsciiRaw(b);
    AsciiRaw([BACKSLASH, BACKSLASH]);
    hide Escape, Utf8Len;
    SizesAdd(b, rest);
  }

  lemma SpecialSizes(c: CodeUnit)
    requires c == QUOTE || c == BACKSLASH
    ensures Raw([BACKSLASH, c]) == 2 && Once([BACKSLASH, c]) == 4
  {
    assert [BACKSLASH, c] == [BACKSLASH] + [c];
    EscapeOne([BACKSLASH]);
    EscapeOne([c]);
    AsciiRaw([BACKSLASH, c]);
    AsciiRaw([BACKSLASH, BACKSLASH, BACKSLASH, c]);
    EscapeConcat([BACKSLASH], [c]);
    hide Escape, Utf8Len;
    assert [BACKSLASH, BACKSLASH] + [BACKSLASH, c] == [BACKSLASH, BACKSLASH, BACKSLASH, c];
  }

  /** One code point takes at most 4 bytes, 6 once escaped, 7 twice escaped. */
  lemma PointBounds(s: JsString)
    requires s != [] && StepAt(s, 0) == |s|
    ensures Raw(s) <= 4 && Once(s) <= 6 && Twice(s) <= 7
  {
    EscapeOne(s);
    var u := s[0];
    if PairAt(s, 0) {
      assert s[0..2] == s;
    } else if u == QUOTE || u == BACKSLASH {
      SpecialSizes(u);
    } else if u == 8 || u == 9 || u == 10 || u == 12 || u == 13 {
      assert EscapeUnit(u) == [BACKSLASH] + EscapeUnit(u)[1..];
      BackslashSizes(EscapeUnit(u)[1..]);
    } else if u < 0x20 || IsHigh(u) || IsLow(u) {
      assert UnicodeEscape(u) == [BACKSLASH] + UnicodeEscape(u)[1..];
      BackslashSizes(UnicodeEscape(u)[1..]);
    } else {
      assert [u] == s;
    }
  }

  // ---- pages ----

  datatype Limits = Limits(pageBytes: nat, envelopeBytes: nat)

  /** The text is within all three bounds, given what its two envelopes add. */
  predicate Fits(t: JsString, overhead: nat, wrapperOverhead: nat, l: Limits) {
    Raw(t) <= l.pageBytes && overhead + Once(t) <= l.envelopeBytes && wrapperOverhead + Twice(t) <= l.envelopeBytes
  }

  /** One code point fits a page of its own. */
  predicate Roomy(overhead: nat, wrapperOverhead: nat, l: Limits) {
    l.pageBytes >= 4 && overhead + 6 <= l.envelopeBytes && wrapperOverhead + 7 <= l.envelopeBytes
  }

  function FirstPoint(s: JsString): JsString
    requires s != []
  {
    s[..StepAt(s, 0)]
  }

  /** `p` was closed before `next` between two code points, and only because one more did not fit. */
  predicate CutOk(p: JsString, next: JsString, overhead: nat, wrapperOverhead: nat, l: Limits) {
    next != [] && Joins(p, next) && !Fits(p + FirstPoint(next), overhead, wrapperOverhead, l)
  }

  /** `chunks` is the greedy paging of `answer`; every chunk fits if one code point does. */
  ghost predicate IsPaging(chunks: seq<JsString>, answer: JsString, overhead: nat, wrapperOverhead: nat, l: Limits) {
    && Flatten(chunks) == answer
    && (Roomy(overhead, wrapperOverhead, l) ==>
        forall k | 0 <= k < |chunks| :: Fits(chunks[k], overhead, wrapperOverhead, l))
    && (forall k | 0 < k < |chunks| :: CutOk(chunks[k - 1], chunks[k], overhead, wrapperOverhead, l))
  }

  /** The loop's state: `chunks` are closed up to `start`, `text` is open. */
  ghost predicate Paging(answer: JsString, chunks: seq<JsString>, start: nat, i: nat, text: JsString, overhead: nat,
                         wrapperOverhead: nat, l: Limits) {
    && start <= i <= |answer| && Boundary(answer, i) && text == answer[start..i]
    && IsPaging(chunks, answer[..start], overhead, wrapperOverhead, l)
    && (Roomy(overhead, wrapperOverhead, l) ==> Fits(text, overhead, wrapperOverhead, l))
    && (chunks != [] ==> CutOk(chunks[|chunks| - 1], text, overhead, wrapperOverhead, l))
  }

  lemma ChunkClosed(answer: JsString, chunks: seq<JsString>, start: nat, i: nat, text: JsString, overhead: nat,
                    wrapperOverhead: nat, l: Limits)
    requires Paging(answer, chunks, start, i, text, overhead, wrapperOverhead, l)
    ensures IsPaging(chunks + [text], answer[..i], overhead, wrapperOverhead, l)
  {
    hide Fits, CutOk;
    FlattenSnoc(chunks, text);
    assert answer[..start] + text == answer[..i];
  }

  /** The open text and the next code point join between code points. */
  lemma NextPoint(answer: JsString, start: nat, i: nat)
    requires start <= i < |answer| && Boundary(answer, i)
    ensures var step := StepAt(answer, i); var point := answer[i..i + step];
            && Boundary(answer, i + step) && Joins(answer[start..i], point) && point != []
            && StepAt(point, 0) == |point|
            && answer[start..i] + point == answer[start..i + step]
  {
    assert start < i ==> answer[start..i][i - start - 1] == answer[i - 1];
  }

  lemma TextExtended(answer: JsString, chunks: seq<JsString>, start: nat, i: nat, text: JsString, point: JsString,
                     overhead: nat, wrapperOverhead: nat, l: Limits)
    requires Paging(answer, chunks, start, i, text, overhead, wrapperOverhead, l) && i < |answer|
    requires point == answer[i..i + StepAt(answer, i)] && Fits(text + point, overhead, wrapperOverhead, l)
    ensures Paging(answer, chunks, start, i + StepAt(answer, i), text + point, overhead, wrapperOverhead, l)
  {
    NextPoint(answer, start, i);
    hide Fits, IsPaging, Boundary;
    if chunks != [] {
      StepIn(text, point);
      assert FirstPoint(text + point) == FirstPoint(text);
    }
  }

  lemma TextRestarted(answer: JsString, chunks: seq<JsString>, start: nat, i: nat, text: JsString, point: JsString,
                      overhead: nat, wrapperOverhead: nat, l: Limits)
    requires Paging(answer, chunks, start, i, text, overhead, wrapperOverhead, l) && i < |answer|
    requires point == answer[i..i + StepAt(answer, i)] && !Fits(text + point, overhead, wrapperOverhead, l)
    requires Roomy(overhead, wrapperOverhead, l) ==> Fits(point, overhead, wrapperOverhead, l)
    ensures Paging(answer, chunks + [text], i, i + StepAt(answer, i), point, overhead, wrapperOverhead, l)
  {
    ChunkClosed(answer, chunks, start, i, text, overhead, wrapperOverhead, l);
    CutHere(answer, chunks, start, i, text, point, overhead, wrapperOverhead, l);
    hide *;
    OpenAfter(answer, chunks + [text], i, point, overhead, wrapperOverhead, l);
  }

  lemma CutHere(answer: JsString, chunks: seq<JsString>, start: nat, i: nat, text: JsString, point: JsString,
                overhead: nat, wrapperOverhead: nat, l: Limits)
    requires Paging(answer, chunks, start, i, text, overhead, wrapperOverhead, l) && i < |answer|
    requires point == answer[i..i + StepAt(answer, i)] && !Fits(text + point, overhead, wrapperOverhead, l)
    ensures CutOk(text, point, overhead, wrapperOverhead, l) && Boundary(answer, i + StepAt(answer, i))
  {
    NextPoint(answer, start, i);
    hide Fits, IsPaging;
    assert FirstPoint(point) == point;
  }

  lemma OpenAfter(answer: JsString, chunks: seq<JsString>, i: nat, point: JsString, overhead: nat, wrapperOverhead: nat,
                  l: Limits)
    requires i < |answer| && point == answer[i..i + StepAt(answer, i)] && Boundary(answer, i + StepAt(answer, i))
    requires IsPaging(chunks, answer[..i], overhead, wrapperOverhead, l)
    requires Roomy(overhead, wrapperOverhead, l) ==> Fits(point, overhead, wrapperOverhead, l)
    requires chunks != [] && CutOk(chunks[|chunks| - 1], point, overhead, wrapperOverhead, l)
    ensures Paging(answer, chunks, i, i + StepAt(answer, i), point, overhead, wrapperOverhead, l)
  {
    hide IsPaging, Fits, CutOk, Boundary;
  }

  /** The paging loop. */
  method CutPages(answer: JsString, overhead: nat, wrapperOverhead: nat, l: Limits) returns (chunks: seq<JsString>)
    ensures IsPaging(chunks, answer, overhead, wrapperOverhead, l) && chunks != []
  {
    hide Fits, Raw, Once, Twice, IsPaging, CutOk, Boundary;
    chunks := [];
    var text: JsString := [];
    var bytes, encoded, wrapped := 0, 0, 0;
    var i := 0;
    ghost var start := 0;
    PagingStarts(answer, overhead, wrapperOverhead, l);
    while i < |answer|
      invariant Paging(answer, chunks, start, i, text, overhead, wrapperOverhead, l)
      invariant bytes == Raw(text) && encoded == Once(text) && wrapped == Twice(text)
      decreases |answer| - i
    {
      var point := answer[i..i + StepAt(answer, i)];
      var size, escaped, twiceEscaped := Utf8Len(point), Utf8Len(Quote(point)) - 2, Utf8Len(Quote(Quote(point))) - 6;
      PointJoins(answer, start, i, text, point, overhead, wrapperOverhead, l);
      if bytes + size > l.pageBytes || overhead + encoded + escaped > l.envelopeBytes
         || wrapperOverhead + wrapped + twiceEscaped > l.envelopeBytes {
        TextRestarted(answer, chunks, start, i, text, point, overhead, wrapperOverhead, l);
        chunks := chunks + [text];
        text, bytes, encoded, wrapped := [], 0, 0, 0;
        start := i;
        assert text + point == point;
      } else {
        TextExtended(answer, chunks, start, i, text, point, overhead, wrapperOverhead, l);
      }
      i := i + StepAt(answer, i);
      text, bytes, encoded, wrapped := text + point, bytes + size, encoded + escaped, wrapped + twiceEscaped;
    }
    ChunkClosed(answer, chunks, start, i, text, overhead, wrapperOverhead, l);
    assert answer[..|answer|] == answer;
    chunks := chunks + [text];
  }

  lemma PagingStarts(answer: JsString, overhead: nat, wrapperOverhead: nat, l: Limits)
    ensures Paging(answer, [], 0, 0, [], overhead, wrapperOverhead, l)
    ensures Raw([]) == Once([]) == Twice([]) == 0
  {
  }

  /** The loop's three counters decide whether the next code point fits, and one alone always does. */
  lemma PointJoins(answer: JsString, start: nat, i: nat, text: JsString, point: JsString, overhead: nat,
                   wrapperOverhead: nat, l: Limits)
    requires start <= i < |answer| && Boundary(answer, i) && text == answer[start..i]
             && point == answer[i..i + StepAt(answer, i)]
    ensures Utf8Len(point) == Raw(point) && Utf8Len(Quote(point)) - 2 == Once(point)
            && Utf8Len(Quote(Quote(point))) - 6 == Twice(point)
    ensures Raw(text + point) == Raw(text) + Raw(point) && Once(text + point) == Once(text) + Once(point)
    ensures Twice(text + point) == Twice(text) + Twice(point)
    ensures Roomy(overhead, wrapperOverhead, l) ==> Fits(point, overhead, wrapperOverhead, l)
    ensures Fits(text + point, overhead, wrapperOverhead, l) <==>
            && Raw(text) + Raw(point) <= l.pageBytes && overhead + Once(text) + Once(point) <= l.envelopeBytes
            && wrapperOverhead + Twice(text) + Twice(point) <= l.envelopeBytes
  {
    NextPoint(answer, start, i);
    PointSizes(point);
    PointBounds(point);
    SizesAdd(text, point);
    hide Escape, Utf8Len, Quote;
  }

  // ---- the page around a text ----

  datatype Page = Page(id: JsString, version: JsString, index: nat, next: Option<nat>, text: JsString,
                       advisory: JsString)

  /** A literal of printable ASCII characters. */
  function Lit(s: string): (r: JsString)
    ensures |r| == |s| && forall i | 0 <= i < |r| :: 0x20 <= r[i] < 0x80
  {
    seq(|s|, i requires 0 <= i < |s| => LitUnit(s[i]))
  }

  function LitUnit(c: char): (u: CodeUnit)
    ensures 0x20 <= u < 0x80
  {
    if 0x20 <= c as int < 0x80 then (c as int) as CodeUnit else 0x3F
  }

  function Cursor(version: JsString, index: nat): JsString { version + (Lit("_") + Dec(index)) }

  function NextCursor(p: Page): Option<JsString> {
    if p.next.Some? then Some(Cursor(p.version, p.next.value)) else None
  }

  function NextJson(version: JsString, next: Option<nat>): JsString {
    if next.Some? then Quote(Cursor(version, next.value)) else Lit("null")
  }

  function Intro(id: JsString, version: JsString): JsString {
    Lit("{\"schemaVersion\":1,\"exchange_id\":") + (Quote(id)
      + (Lit(",\"provider_state\":\"finished\",\"availability\":\"ready\",\"page_version\":")
         + (Quote(version) + Lit(",\"cursor\":"))))
  }

  /** The part that names the page and the one after it. */
  function Naming(version: JsString, index: nat, next: Option<nat>): JsString {
    Quote(Cursor(version, index)) + (Lit(",\"next_cursor\":") + (NextJson(version, next) + Lit(",\"text\":")))
  }

  /** `status` is what is added when the page is served, empty in the manifest. */
  function Outro(advisory: JsString, status: JsString): JsString {
    Lit(",\"advisory\":") + (Quote(advisory) + (status + Lit("}")))
  }

  function PageJson(p: Page, status: JsString): JsString {
    Intro(p.id, p.version) + (Naming(p.version, p.index, p.next) + (Quote(p.text) + Outro(p.advisory, status)))
  }

  function WrappedJson(json: JsString): JsString {
    Lit("{\"content\":[{\"type\":\"text\",\"text\":") + (Quote(json) + Lit("}]}"))
  }

  /** A literal is itself. */
  lemma LitIs(s: string)
    requires forall i | 0 <= i < |s| :: ' ' <= s[i] <= '~'
    ensures forall i | 0 <= i < |s| :: Lit(s)[i] as int == s[i] as int
  {
  }

  lemma Regroup(a: JsString, b: JsString, c: JsString, d: JsString)
    ensures a + (b + (c + d)) == a + b + c + d
  {
    assert a + (b + (c + d)) == (a + b) + (c + d);
  }

  lemma RegroupLast(a: JsString, b: JsString, c: JsString, d: JsString, e: JsString)
    ensures a + (b + c + d + e) == a + b + c + d + e
  {
    assert a + (b + c + d + e) == (a + (b + c + d)) + e;
    Regroup(a, b, c, d);
    assert b + c + d == b + (c + d);
  }

  lemma IntroFields(id: JsString, version: JsString)
    ensures Intro(id, version) ==
            Lit("{\"schemaVersion\":1,\"exchange_id\":") + Quote(id)
            + Lit(",\"provider_state\":\"finished\",\"availability\":\"ready\",\"page_version\":") + Quote(version)
            + Lit(",\"cursor\":")
  {
    hide Quote, Lit;
    var a, b, c := Lit("{\"schemaVersion\":1,\"exchange_id\":"), Quote(id),
                   Lit(",\"provider_state\":\"finished\",\"availability\":\"ready\",\"page_version\":");
    var d, e := Quote(version), Lit(",\"cursor\":");
    assert Intro(id, version) == a + (b + (c + (d + e)));
    Regroup(a, b, c, d + e);
    Regroup(a + b, c, d, e);
    assert a + b + c + (d + e) == a + b + c + d + e;
  }

  lemma NamingFields(version: JsString, index: nat, next: Option<nat>)
    ensures Naming(version, index, next) ==
            Quote(Cursor(version, index)) + Lit(",\"next_cursor\":") + NextJson(version, next) + Lit(",\"text\":")
  {
    hide Quote, Lit, Cursor, NextJson;
    Regroup(Quote(Cursor(version, index)), Lit(",\"next_cursor\":"), NextJson(version, next), Lit(",\"text\":"));
  }

  lemma OutroFields(advisory: JsString, status: JsString)
    ensures Outro(advisory, status) == Lit(",\"advisory\":") + Quote(advisory) + status + Lit("}")
  {
    hide Quote, Lit;
    Regroup(Lit(",\"advisory\":"), Quote(advisory), status, Lit("}"));
  }

  lemma NullIs()
    ensures Lit("null") == [0x6E, 0x75, 0x6C, 0x6C]
  {
  }

  /** The page as JSON, field by field; the field after the cursor names the next page or is null. */
  lemma PageFields(p: Page, status: JsString)
    ensures var next := if p.next.Some? then Quote(Cursor(p.version, p.next.value)) else [0x6E, 0x75, 0x6C, 0x6C];
            PageJson(p, status) ==
            Lit("{\"schemaVersion\":1,\"exchange_id\":") + Quote(p.id)
            + Lit(",\"provider_state\":\"finished\",\"availability\":\"ready\",\"page_version\":") + Quote(p.version)
            + Lit(",\"cursor\":") + Quote(Cursor(p.version, p.index)) + Lit(",\"next_cursor\":") + next
            + Lit(",\"text\":") + Quote(p.text) + Lit(",\"advisory\":") + Quote(p.advisory) + status + Lit("}")
  {
    hide Quote, Cursor, Lit, Intro, Naming, Outro;
    NullIs();
    IntroFields(p.id, p.version);
    NamingFields(p.version, p.index, p.next);
    OutroFields(p.advisory, status);
    var intro, text := Intro(p.id, p.version), Quote(p.text);
    Regroup(intro, Naming(p.version, p.index, p.next), text, Outro(p.advisory, status));
    RegroupLast(intro, Quote(Cursor(p.version, p.index)), Lit(",\"next_cursor\":"), NextJson(p.version, p.next),
                Lit(",\"text\":"));
    RegroupLast(intro + Naming(p.version, p.index, p.next) + text, Lit(",\"advisory\":"), Quote(p.advisory), status,
                Lit("}"));
  }

  /** The page with an empty text and the longest framing. */
  function Widest(id: JsString, version: JsString, advisory: JsString): Page {
    Page(id, version, LAST_INDEX, Some(LAST_INDEX), [], advisory)
  }

  function Overhead(id: JsString, version: JsString, advisory: JsString): nat {
    Raw(PageJson(Widest(id, version, advisory), []))
  }

  function WrapperOverhead(id: JsString, version: JsString, advisory: JsString): nat {
    STATUS_RESERVE + Raw(WrappedJson(PageJson(Widest(id, version, advisory), [])))
  }

  /** One code point fits a page of this answer. */
  predicate RoomyFor(id: JsString, version: JsString, advisory: JsString, l: Limits) {
    Roomy(Overhead(id, version, advisory), WrapperOverhead(id, version, advisory), l)
  }

  // ---- sizes of the framing ----

  /** A part that joins to anything after it. */
  predicate Whole(a: JsString) { a == [] || !IsHigh(a[|a| - 1]) }

  lemma WholeAdd(a: JsString, b: JsString)
    requires Whole(a)
    ensures Raw(a + b) == Raw(a) + Raw(b) && Once(a + b) == Once(a) + Once(b)
    ensures Whole(b) ==> Whole(a + b)
  {
    hide Raw, Once, Twice;
    SizesAdd(a, b);
  }

  lemma QuoteWhole(s: JsString)
    ensures Whole(Quote(s))
  {
  }

  lemma {:induction false} DecLength(n: nat, m: nat)
    requires n <= m
    ensures |Dec(n)| <= |Dec(m)|
  {
    if n >= 10 { DecLength(n / 10, m / 10); }
  }

  function Value(digits: JsString): int {
    if digits == [] then 0 else 10 * Value(digits[..|digits| - 1]) + digits[|digits| - 1] as int - 0x30
  }

  /** The digits determine the number. */
  lemma {:induction false} DecValue(n: nat)
    ensures Value(Dec(n)) == n
  {
    var d := Dec(n);
    var front := if n < 10 then [] else Dec(n / 10);
    assert d[..|d| - 1] == front;
    if n >= 10 { DecValue(n / 10); }
  }

  /** Pages of one answer have different cursors. */
  lemma CursorsDiffer(version: JsString, i: nat, j: nat)
    requires Cursor(version, i) == Cursor(version, j)
    ensures i == j
  {
    var a, b := Lit("_") + Dec(i), Lit("_") + Dec(j);
    assert Cursor(version, i)[|version|..] == a && Cursor(version, j)[|version|..] == b;
    assert a[1..] == Dec(i) && b[1..] == Dec(j);
    DecValue(i);
    DecValue(j);
  }

  /** A cursor's two sizes: those of the version and one byte for each further character. */
  lemma CursorSizes(version: JsString, index: nat)
    ensures Once(Cursor(version, index)) == Once(version) + 1 + |Dec(index)|
    ensures Twice(Cursor(version, index)) == Twice(version) + 1 + |Dec(index)|
  {
    var tail := Lit("_") + Dec(index);
    assert IsPlain(tail);
    PlainEscape(tail);
    hide Escape, Utf8Len;
    SizesAdd(version, tail);
  }

  lemma NextSizes(version: JsString, next: Option<nat>)
    requires next.Some? ==> next.value <= LAST_INDEX
    ensures Raw(NextJson(version, next)) <= Raw(NextJson(version, Some(LAST_INDEX)))
    ensures Once(NextJson(version, next)) <= Once(NextJson(version, Some(LAST_INDEX)))
    ensures Whole(NextJson(version, next))
  {
    CursorSizes(version, LAST_INDEX);
    QuoteSizes(Cursor(version, LAST_INDEX));
    if next.Some? {
      DecLength(next.value, LAST_INDEX);
      CursorSizes(version, next.value);
      QuoteSizes(Cursor(version, next.value));
    } else {
      PlainEscape(Lit("null"));
      assert |Dec(LAST_INDEX)| >= 1;
      SixDigits();
    }
  }

  lemma SixDigits()
    ensures |Dec(LAST_INDEX)| == 6
  {
    assert |Dec(9)| == 1 && |Dec(99)| == 2;
    assert |Dec(999)| == 3 && |Dec(9999)| == 4;
    assert |Dec(99999)| == 5;
  }

  /** No page is named by more than the widest one. */
  lemma NamingBound(version: JsString, index: nat, next: Option<nat>)
    requires index <= LAST_INDEX && (next.Some? ==> next.value <= LAST_INDEX)
    ensures Raw(Naming(version, index, next)) <= Raw(Naming(version, LAST_INDEX, Some(LAST_INDEX)))
    ensures Once(Naming(version, index, next)) <= Once(Naming(version, LAST_INDEX, Some(LAST_INDEX)))
    ensures Whole(Naming(version, index, next)) && Whole(Naming(version, LAST_INDEX, Some(LAST_INDEX)))
  {
    NamingSizes(version, index, next);
    NamingSizes(version, LAST_INDEX, Some(LAST_INDEX));
    NextSizes(version, next);
    CursorSizes(version, index);
    CursorSizes(version, LAST_INDEX);
    DecLength(index, LAST_INDEX);
    hide Raw, Once, Twice, Naming, NextJson, Cursor, Dec, Escape;
  }

  lemma NamingSizes(version: JsString, index: nat, next: Option<nat>)
    requires next.Some? ==> next.value <= LAST_INDEX
    ensures var a, b := Lit(",\"next_cursor\":"), Lit(",\"text\":");
            && Raw(Naming(version, index, next)) ==
               2 + Once(Cursor(version, index)) + Raw(a) + Raw(NextJson(version, next)) + Raw(b)
            && Once(Naming(version, index, next)) ==
               4 + Twice(Cursor(version, index)) + Once(a) + Once(NextJson(version, next)) + Once(b)
            && Whole(Naming(version, index, next))
  {
    var q, a, n, b :=
      Quote(Cursor(version, index)), Lit(",\"next_cursor\":"), NextJson(version, next), Lit(",\"text\":");
    assert Whole(a) && Whole(b);
    QuoteWhole(Cursor(version, index));
    QuoteSizes(Cursor(version, index));
    NextSizes(version, next);
    hide Raw, Once, Twice, NextJson, Cursor, Dec, Escape, Quote, Lit, Whole;
    WholeAdd(n, b);
    WholeAdd(a, n + b);
    WholeAdd(q, a + (n + b));
  }

  lemma OutroSizes(advisory: JsString, status: JsString)
    ensures Raw(Outro(advisory, status)) == Raw(Outro(advisory, [])) + Raw(status)
    ensures Once(Outro(advisory, status)) == Once(Outro(advisory, [])) + Once(status)
  {
    var a, q, e := Lit(",\"advisory\":"), Quote(advisory), Lit("}");
    assert Joins(status, e) && Joins([], e) && Whole(a);
    QuoteWhole(advisory);
    EmptySizes();
    hide Raw, Once, Twice, Joins, Lit, Quote, Whole;
    SizesAdd(status, e);
    SizesAdd([], e);
    WholeAdd(q, status + e);
    WholeAdd(q, [] + e);
    WholeAdd(a, q + (status + e));
    WholeAdd(a, q + ([] + e));
  }

  lemma IntroWhole(id: JsString, version: JsString)
    ensures Whole(Intro(id, version))
  {
    hide LitUnit, Quote;
    var last := Lit(",\"cursor\":");
    assert Intro(id, version)[|Intro(id, version)| - 1] == last[|last| - 1];
  }

  lemma PageSizes(p: Page, status: JsString)
    requires Whole(Naming(p.version, p.index, p.next))
    ensures Raw(PageJson(p, status)) ==
            Raw(Intro(p.id, p.version)) + Raw(Naming(p.version, p.index, p.next)) + (2 + Once(p.text))
            + Raw(Outro(p.advisory, status))
    ensures Once(PageJson(p, status))
            == Once(Intro(p.id, p.version)) + Once(Naming(p.version, p.index, p.next)) + (4 + Twice(p.text))
            + Once(Outro(p.advisory, status))
  {
    var i, n, q, o :=
      Intro(p.id, p.version), Naming(p.version, p.index, p.next), Quote(p.text), Outro(p.advisory, status);
    hide Raw, Once, Twice, Lit, Outro, Naming, Escape;
    IntroWhole(p.id, p.version);
    QuoteWhole(p.text);
    QuoteSizes(p.text);
    hide Intro, Quote, Whole;
    WholeAdd(q, o);
    WholeAdd(n, q + o);
    WholeAdd(i, n + (q + o));
  }

  lemma WrappedSize(json: JsString)
    ensures Raw(WrappedJson(json)) == Raw(WrappedJson([])) + Once(json)
  {
    var a, e := Lit("{\"content\":[{\"type\":\"text\",\"text\":"), Lit("}]}");
    assert Whole(a);
    QuoteWhole(json);
    QuoteWhole([]);
    QuoteSizes(json);
    QuoteSizes([]);
    EmptySizes();
    hide Raw, Once, Twice, Lit, Quote, Whole;
    WholeAdd(Quote(json), e);
    WholeAdd(a, Quote(json) + e);
    WholeAdd(Quote([]), e);
    WholeAdd(a, Quote([]) + e);
  }

  lemma EmptySizes()
    ensures Raw([]) == 0 && Once([]) == 0 && Twice([]) == 0
  {
    assert Escape([]) == [];
  }

  /** A page whose text fits stays within the envelope in both forms, served with any status that stays within
      its reserve. */
  lemma PageWithinEnvelope(p: Page, status: JsString, l: Limits)
    requires Fits(p.text, Overhead(p.id, p.version, p.advisory), WrapperOverhead(p.id, p.version, p.advisory), l)
    requires p.index <= LAST_INDEX && (p.next.Some? ==> p.next.value <= LAST_INDEX) && Once(status) <= STATUS_RESERVE
    ensures Raw(PageJson(p, [])) <= l.envelopeBytes
    ensures Raw(WrappedJson(PageJson(p, status))) <= l.envelopeBytes
  {
    var w := Widest(p.id, p.version, p.advisory);
    EmptySizes();
    hide Raw, Once, Twice, Naming, Intro, Outro, Whole, PageJson, WrappedJson, Escape, Utf8Len, Lit;
    NamingBound(p.version, p.index, p.next);
    PageSizes(p, []);
    PageSizes(p, status);
    PageSizes(w, []);
    OutroSizes(p.advisory, status);
    WrappedSize(PageJson(p, status));
    WrappedSize(PageJson(w, []));
  }

  lemma {:induction false} Utf8Short(s: JsString)
    ensures Utf8Len(s) <= 3 * |s|
  {
    if s != [] { Utf8Short(s[StepAt(s, 0)..]); }
  }

  lemma OnceShort(s: JsString)
    ensures Once(s) <= 18 * |s| && Raw(s) <= 3 * |s|
  {
    EscapeShort(s);
    Utf8Short(s);
    Utf8Short(Escape(s));
  }

  lemma PlainQuote(s: JsString)
    requires IsPlain(s)
    ensures |Quote(s)| == |s| + 2
  {
    PlainEscape(s);
  }

  lemma IntroShort(id: JsString, version: JsString)
    ensures |Intro(id, version)| <= 200 + |Quote(id)| + |Quote(version)|
  {
    hide Quote, LitUnit;
  }

  lemma NamingShort(version: JsString)
    requires IsPlain(version)
    ensures |Naming(version, LAST_INDEX, Some(LAST_INDEX))| <= 2 * |version| + 60
  {
    SixDigits();
    var cursor := Cursor(version, LAST_INDEX);
    assert IsPlain(cursor) && |cursor| == |version| + 7;
    PlainQuote(cursor);
    hide Quote, LitUnit, Cursor;
  }

  lemma OutroShort(advisory: JsString)
    requires IsPlain(advisory)
    ensures |Outro(advisory, [])| <= |advisory| + 20
  {
    PlainQuote(advisory);
    hide LitUnit, Quote;
  }

  /** The framing of an answer whose ids are UUIDs, or anything plain of that order of length. */
  lemma FramingShort(id: JsString, version: JsString, advisory: JsString)
    requires IsPlain(id) && IsPlain(version) && IsPlain(advisory) && |id| <= 64 && |version| <= 64 && |advisory| <= 160
    ensures |PageJson(Widest(id, version, advisory), [])| <= 800
  {
    hide Quote, Intro, Naming, Outro, Lit, LitUnit, Escape, Cursor, NextJson, Dec, WrappedJson;
    IntroShort(id, version);
    NamingShort(version);
    OutroShort(advisory);
    PlainQuote(id);
    PlainQuote(version);
    PlainQuote([]);
  }

  /** With the limits as configured, 24 KiB of text in 32 KiB of envelope, one code point always fits. */
  lemma LimitsSuffice(id: JsString, version: JsString, advisory: JsString)
    requires IsPlain(id) && IsPlain(version) && IsPlain(advisory) && |id| <= 64 && |version| <= 64 && |advisory| <= 160
    ensures RoomyFor(id, version, advisory, Limits(24 * 1024, 32 * 1024))
  {
    hide PageJson, WrappedJson, Widest, Raw, Once, Lit, LitUnit, Intro, Naming, Outro, Quote, Escape, Utf8Len;
    FramingShort(id, version, advisory);
    var json := PageJson(Widest(id, version, advisory), []);
    OnceShort(json);
    WrappedSize(json);
    WrapperShort();
  }

  lemma WrapperShort()
    ensures Raw(WrappedJson([])) <= 300
  {
    assert |WrappedJson([])| <= 100 by { assert Escape([]) == []; }
    Utf8Short(WrappedJson([]));
  }

  /** What the pages of an answer promise. */
  ghost predicate PagesOk(pages: seq<Page>, id: JsString, answer: JsString, version: JsString, advisory: JsString) {
    && pages != [] && Flatten(Texts(pages)) == answer
    && (forall k | 0 <= k < |pages| ::
          (pages[k].id, pages[k].version, pages[k].index, pages[k].advisory) == (id, version, k, advisory))
    && (forall k | 0 <= k < |pages| - 1 :: NextCursor(pages[k]) == Some(Cursor(version, pages[k + 1].index)))
    && pages[|pages| - 1].next == None
    && (forall k | 0 < k < |pages| :: pages[k].text != [] && Joins(pages[k - 1].text, pages[k].text))
  }

  ghost predicate TextsFit(pages: seq<Page>, l: Limits) {
    forall k | 0 <= k < |pages| :: Raw(pages[k].text) <= l.pageBytes
  }

  function Texts(pages: seq<Page>): seq<JsString> { seq(|pages|, k requires 0 <= k < |pages| => pages[k].text) }

  /** Both serialized forms of every page stay within the envelope. */
  ghost predicate EnvelopesOk(pages: seq<Page>, l: Limits) {
    forall k, status | 0 <= k < |pages| && Once(status) <= STATUS_RESERVE ::
      Raw(PageJson(pages[k], [])) <= l.envelopeBytes && Raw(WrappedJson(PageJson(pages[k], status))) <= l.envelopeBytes
  }

  function PageOf(id: JsString, version: JsString, advisory: JsString, chunks: seq<JsString>, k: nat): Page
    requires k < |chunks|
  {
    Page(id, version, k, if k + 1 < |chunks| then Some(k + 1) else None, chunks[k], advisory)
  }

  method BuildAnswerPages(id: JsString, answer: JsString, version: JsString, advisory: JsString, l: Limits)
    returns (pages: seq<Page>)
    ensures PagesOk(pages, id, answer, version, advisory)
    ensures RoomyFor(id, version, advisory, l) ==> TextsFit(pages, l)
    ensures RoomyFor(id, version, advisory, l) && |pages| <= LAST_INDEX + 1 ==> EnvelopesOk(pages, l)
  {
    hide IsPaging, EnvelopesOk, PagesOk, TextsFit, Overhead, WrapperOverhead, Roomy;
    var overhead, wrapperOverhead := Overhead(id, version, advisory), WrapperOverhead(id, version, advisory);
    var chunks := CutPages(answer, overhead, wrapperOverhead, l);
    pages := seq(|chunks|, k requires 0 <= k < |chunks| => PageOf(id, version, advisory, chunks, k));
    ChunksToPages(pages, chunks, id, answer, version, advisory, overhead, wrapperOverhead, l);
    if RoomyFor(id, version, advisory, l) && |pages| <= LAST_INDEX + 1 {
      PagesWithinEnvelope(pages, chunks, id, answer, version, advisory, l);
    }
  }

  ghost predicate PagesOf(pages: seq<Page>, chunks: seq<JsString>, id: JsString, version: JsString,
                          advisory: JsString) {
    |pages| == |chunks| && forall k | 0 <= k < |chunks| :: pages[k] == PageOf(id, version, advisory, chunks, k)
  }

  lemma ChunksToPages(pages: seq<Page>, chunks: seq<JsString>, id: JsString, answer: JsString, version: JsString,
                      advisory: JsString, overhead: nat, wrapperOverhead: nat, l: Limits)
    requires IsPaging(chunks, answer, overhead, wrapperOverhead, l) && chunks != []
             && PagesOf(pages, chunks, id, version, advisory)
    ensures PagesOk(pages, id, answer, version, advisory)
    ensures Roomy(overhead, wrapperOverhead, l) ==> TextsFit(pages, l)
  {
    hide Flatten, Raw, Once, Twice, Cursor, Roomy;
    assert Texts(pages) == chunks;
    forall k | 0 <= k < |pages|
      ensures (pages[k].id, pages[k].version, pages[k].index, pages[k].advisory, pages[k].text) ==
              (id, version, k, advisory, chunks[k])
      ensures pages[k].next == if k + 1 < |pages| then Some(k + 1) else None
      ensures Roomy(overhead, wrapperOverhead, l) ==> Raw(chunks[k]) <= l.pageBytes
    {
      assert Roomy(overhead, wrapperOverhead, l) ==> Fits(chunks[k], overhead, wrapperOverhead, l);
    }
    forall k | 0 < k < |pages|
      ensures pages[k].text != [] && Joins(pages[k - 1].text, pages[k].text)
    {
      assert CutOk(chunks[k - 1], chunks[k], overhead, wrapperOverhead, l);
    }
    hide Fits, CutOk, Joins, Texts;
  }

  lemma PagesWithinEnvelope(pages: seq<Page>, chunks: seq<JsString>, id: JsString, answer: JsString, version: JsString,
                            advisory: JsString, l: Limits)
    requires IsPaging(chunks, answer, Overhead(id, version, advisory), WrapperOverhead(id, version, advisory), l)
    requires PagesOf(pages, chunks, id, version, advisory) && |pages| <= LAST_INDEX + 1
             && RoomyFor(id, version, advisory, l)
    ensures EnvelopesOk(pages, l)
  {
    hide Fits, CutOk, Flatten, Raw, Once, Twice, PageJson, WrappedJson, Overhead, WrapperOverhead, Widest, Roomy;
    forall k, status | 0 <= k < |pages| && Once(status) <= STATUS_RESERVE
      ensures Raw(PageJson(pages[k], [])) <= l.envelopeBytes
              && Raw(WrappedJson(PageJson(pages[k], status))) <= l.envelopeBytes
    {
      assert pages[k] == PageOf(id, version, advisory, chunks, k);
      assert Fits(chunks[k], Overhead(id, version, advisory), WrapperOverhead(id, version, advisory), l);
      PageWithinEnvelope(pages[k], status, l);
    }
  }

  // ---- reading them ----

  /** The first page under a cursor; without one the first page. */
  function Look(pages: seq<Page>, cursor: Option<JsString>): (r: Option<nat>)
    ensures r.Some? && cursor.Some? ==> r.value < |pages|
  {
    if cursor == None then Some(0) else LookFrom(pages, cursor.value, 0)
  }

  function LookFrom(pages: seq<Page>, cursor: JsString, k: nat): (r: Option<nat>)
    ensures r.Some? ==> k <= r.value < |pages|
    decreases |pages| - k
  {
    if k >= |pages| then None
    else if Cursor(pages[k].version, pages[k].index) == cursor then Some(k)
    else LookFrom(pages, cursor, k + 1)
  }

  /** The search compares texts, -1 if no page has the cursor. */
  method FindPage(pages: seq<Page>, cursor: Option<JsString>) returns (index: int)
    ensures match Look(pages, cursor) case Some(k) => index == k case None => index == -1
  {
    if cursor == None { return 0; }
    index := 0;
    while index < |pages|
      invariant 0 <= index <= |pages| && LookFrom(pages, cursor.value, 0) == LookFrom(pages, cursor.value, index)
    {
      if Cursor(pages[index].version, pages[index].index) == cursor.value { return; }
      index := index + 1;
    }
    index := -1;
  }

  /** The texts a client gets with `requests` requests, each for the next cursor it was given. */
  function Followed(pages: seq<Page>, cursor: Option<JsString>, requests: nat): seq<JsString>
    requires pages != []
    decreases requests
  {
    var k := Look(pages, cursor);
    if requests == 0 || k == None then []
    else
      var page := pages[k.value];
      [page.text] + if NextCursor(page).Some? then Followed(pages, NextCursor(page), requests - 1) else []
  }

  ghost predicate Numbered(pages: seq<Page>, version: JsString) {
    forall k | 0 <= k < |pages| :: pages[k].version == version && pages[k].index == k
  }

  /** A page is found under its own cursor, since no other has it. */
  lemma {:induction false} LookFinds(pages: seq<Page>, version: JsString, i: nat, k: nat)
    requires Numbered(pages, version) && i <= k < |pages|
    ensures LookFrom(pages, Cursor(version, k), i) == Some(k)
    decreases k - i
  {
    hide Cursor;
    if i < k {
      if Cursor(version, i) == Cursor(version, k) { CursorsDiffer(version, i, k); }
      LookFinds(pages, version, i + 1, k);
    }
  }

  /** A client that follows the cursors from the first page reads the whole answer, page by page, in as many requests
      as there are pages; the last page sends it nowhere. */
  lemma FollowingReadsAll(pages: seq<Page>, id: JsString, answer: JsString, version: JsString, advisory: JsString,
                          requests: nat)
    requires PagesOk(pages, id, answer, version, advisory) && requests >= |pages|
    ensures Followed(pages, None, requests) == Texts(pages)
    ensures Flatten(Followed(pages, None, requests)) == answer
  {
    hide Cursor, Flatten, Followed, Texts, PagesOk;
    Chained(pages, id, answer, version, advisory);
    FollowsFrom(pages, version, 0, requests);
    FirstByNone(pages, version, requests);
    TextsWhole(pages, id, answer, version, advisory);
  }

  lemma TextsWhole(pages: seq<Page>, id: JsString, answer: JsString, version: JsString, advisory: JsString)
    requires PagesOk(pages, id, answer, version, advisory)
    ensures Flatten(Texts(pages)) == answer && Texts(pages)[0..] == Texts(pages)
  {
    hide Flatten, Joins, NextCursor;
  }

  /** What following needs of the pages. */
  ghost predicate Linked(pages: seq<Page>, version: JsString) {
    && Numbered(pages, version)
    && forall k | 0 <= k < |pages| :: NextCursor(pages[k]) == if k + 1 < |pages| then Some(Cursor(version, k + 1))
                                                              else None
  }

  lemma Chained(pages: seq<Page>, id: JsString, answer: JsString, version: JsString, advisory: JsString)
    requires PagesOk(pages, id, answer, version, advisory)
    ensures pages != [] && Linked(pages, version)
  {
    hide Cursor, Flatten, Joins;
    forall k | 0 <= k < |pages|
      ensures pages[k].version == version && pages[k].index == k
    {
      assert (pages[k].id, pages[k].version, pages[k].index, pages[k].advisory) == (id, version, k, advisory);
    }
    forall k | 0 <= k < |pages|
      ensures NextCursor(pages[k]) == if k + 1 < |pages| then Some(Cursor(version, k + 1)) else None
    {
      if k + 1 < |pages| { assert pages[k + 1].index == k + 1; }
    }
  }

  lemma FirstByNone(pages: seq<Page>, version: JsString, requests: nat)
    requires pages != [] && Numbered(pages, version)
    ensures Followed(pages, None, requests) == Followed(pages, Some(Cursor(version, 0)), requests)
  {
    hide NextCursor, Cursor;
    LookFinds(pages, version, 0, 0);
  }

  lemma {:induction false} FollowsFrom(pages: seq<Page>, version: JsString, k: nat, requests: nat)
    requires Linked(pages, version) && k < |pages| && requests >= |pages| - k
    ensures Followed(pages, Some(Cursor(version, k)), requests) == Texts(pages)[k..]
    decreases |pages| - k
  {
    hide NextCursor, Cursor, Texts;
    LookFinds(pages, version, 0, k);
    TextsFrom(pages, k);
    if k + 1 < |pages| { FollowsFrom(pages, version, k + 1, requests - 1); }
  }

  lemma TextsFrom(pages: seq<Page>, k: nat)
    requires k < |pages|
    ensures Texts(pages)[k..] == [pages[k].text] + if k + 1 < |pages| then Texts(pages)[k + 1..] else []
  {
  }
}
