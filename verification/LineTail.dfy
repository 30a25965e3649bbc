/** Incremental splitting of a transcript's bytes into lines with absolute offset keys, under a cap on the
    line length and a cap on the unfinished tail. */
module LineTail {

  newtype Byte = b: int | 0 <= b < 256

  const NL: Byte := 0x0A
  const MAX_LINE_BYTES := 1024 * 1024
  const MAX_PENDING_BYTES := 4 * 1024 * 1024

  /** A line to parse and the absolute offset of its first byte. */
  datatype Line = Line(text: seq<Byte>, key: nat)

  // ---- the reference: one byte at a time, nothing ever thrown away ----

  /** `lines` completed so far, the unfinished line `cur`, the offset `at` of the next byte; `torn` says that
      reading began inside the unfinished line. */
  datatype Scan = Scan(lines: seq<Line>, cur: seq<Byte>, at: nat, torn: bool)

  function Kept(text: seq<Byte>, key: int): seq<Line> {
    if 0 < |text| <= MAX_LINE_BYTES && key >= 0 then [Line(text, key)] else []
  }

  function Step(s: Scan, b: Byte): Scan {
    if b == NL then Scan(s.lines + (if s.torn then [] else Kept(s.cur, s.at - |s.cur|)), [], s.at + 1, false)
    else s.(cur := s.cur + [b], at := s.at + 1)
  }

  /** The state after the first `n` bytes of `data`. */
  function ReadTo(s: Scan, data: seq<Byte>, n: nat): Scan
    requires n <= |data|
  {
    if n == 0 then s else Step(ReadTo(s, data, n - 1), data[n - 1])
  }

  function Read(s: Scan, data: seq<Byte>): Scan { ReadTo(s, data, |data|) }

  lemma {:induction false} ReadPrefix(s: Scan, a: seq<Byte>, b: seq<Byte>, n: nat)
    requires n <= |a|
    ensures ReadTo(s, a + b, n) == ReadTo(s, a, n)
  {
    if n > 0 { ReadPrefix(s, a, b, n - 1); }
  }

  lemma {:induction false} ReadSuffix(s: Scan, a: seq<Byte>, b: seq<Byte>, n: nat)
    requires n <= |b|
    ensures ReadTo(s, a + b, |a| + n) == ReadTo(Read(s, a), b, n)
  {
    if n == 0 {
      ReadPrefix(s, a, b, |a|);
    } else {
      ReadSuffix(s, a, b, n - 1);
      assert (a + b)[|a| + n - 1] == b[n - 1];
    }
  }

  /** Reading in two parts is reading at once. */
  lemma ReadConcat(s: Scan, a: seq<Byte>, b: seq<Byte>)
    ensures Read(s, a + b) == Read(Read(s, a), b)
  {
    ReadSuffix(s, a, b, |b|);
  }

  function Joined(chunks: seq<seq<Byte>>): seq<Byte> {
    if chunks == [] then [] else Joined(chunks[..|chunks| - 1]) + chunks[|chunks| - 1]
  }

  function ReadAll(s: Scan, chunks: seq<seq<Byte>>): Scan {
    if chunks == [] then s else Read(ReadAll(s, chunks[..|chunks| - 1]), chunks[|chunks| - 1])
  }

  /** However the bytes are cut into reads, the lines, their keys and the state are those of one whole read. */
  lemma {:induction false} AnyChunking(s: Scan, chunks: seq<seq<Byte>>)
    ensures ReadAll(s, chunks) == Read(s, Joined(chunks))
  {
    if chunks != [] {
      var n := |chunks| - 1;
      AnyChunking(s, chunks[..n]);
      ReadConcat(s, Joined(chunks[..n]), chunks[n]);
    }
  }

  // ---- what a line is ----

  /** `text` is a complete line of `data` starting at `at`: from the start or just past a newline up to the
      next newline. */
  predicate IsLine(data: seq<Byte>, at: int, text: seq<Byte>) {
    && 0 <= at && at + |text| < |data| && data[at..at + |text|] == text
    && (forall k | at <= k < at + |text| :: data[k] != NL)
    && data[at + |text|] == NL && (at == 0 || data[at - 1] == NL)
  }

  /** Position just past the last newline among the first `n` bytes. */
  function LineStart(data: seq<Byte>, n: nat): (p: nat)
    requires n <= |data|
    ensures p <= n && (p == 0 || data[p - 1] == NL)
  {
    if n == 0 then 0 else if data[n - 1] == NL then n else LineStart(data, n - 1)
  }

  lemma {:induction false} PlainSinceStart(data: seq<Byte>, n: nat)
    requires n <= |data|
    ensures forall k | LineStart(data, n) <= k < n :: data[k] != NL
  {
    if n > 0 && data[n - 1] != NL { PlainSinceStart(data, n - 1); }
  }

  /** A read that begins at offset `base`, at a line boundary or, if `torn`, inside a line. */
  function Begun(base: nat, torn: bool): Scan { Scan([], [], base, torn) }

  /** Where the reference stands after `n` bytes. */
  lemma {:induction false} WhereReadStands(data: seq<Byte>, base: nat, torn: bool, n: nat)
    requires n <= |data|
    ensures var s, p := ReadTo(Begun(base, torn), data, n), LineStart(data, n);
            s.torn == (torn && p == 0) && s.at == base + n && s.cur == data[p..n]
  {
    if n > 0 {
      WhereReadStands(data, base, torn, n - 1);
      SliceSnoc(data, LineStart(data, n - 1), n);
    }
  }

  lemma SliceSnoc(data: seq<Byte>, p: nat, n: nat)
    requires p < n <= |data|
    ensures data[p..n - 1] + [data[n - 1]] == data[p..n]
  {
  }

  /** The line that ends at a newline is the one that began just past the newline before it. */
  lemma LineEndingAt(data: seq<Byte>, at: int, text: seq<Byte>, n: nat)
    requires n < |data| && data[n] == NL && at + |text| == n
    ensures IsLine(data, at, text) <==> at == LineStart(data, n) && text == data[at..n]
  {
    var p := LineStart(data, n);
    PlainSinceStart(data, n);
    assert p > 0 ==> data[p - 1] == NL;
    assert at > 0 && IsLine(data, at, text) ==> data[at - 1] == NL;
  }

  /** A line a read from offset `base` must yield within its first `n` bytes. One that began inside a line does not
      yield that line's rest. */
  predicate Expected(data: seq<Byte>, base: nat, torn: bool, n: nat, l: Line) {
    && 0 < |l.text| <= MAX_LINE_BYTES && l.key - base + |l.text| < n && IsLine(data, l.key - base, l.text)
    && (torn ==> l.key > base)
  }

  lemma KeptIs(text: seq<Byte>, key: nat, l: Line)
    ensures l in Kept(text, key) <==> l == Line(text, key) && 0 < |text| <= MAX_LINE_BYTES
  {
  }

  /** What a newline at `n` adds. */
  function Added(data: seq<Byte>, base: nat, torn: bool, n: nat): seq<Line>
    requires n < |data|
  {
    var p := LineStart(data, n);
    if data[n] != NL || (torn && p == 0) then [] else Kept(data[p..n], base + p)
  }

  /** A newline at `n` adds exactly the line it ends. */
  lemma LineAdded(data: seq<Byte>, base: nat, torn: bool, n: nat, l: Line)
    requires n < |data|
    ensures Expected(data, base, torn, n + 1, l) <==>
              Expected(data, base, torn, n, l) || l in Added(data, base, torn, n)
  {
    var p, at := LineStart(data, n), l.key - base;
    KeptIs(data[p..n], base + p, l);
    if at + |l.text| == n && data[n] == NL { LineEndingAt(data, at, l.text, n); }
    hide LineStart, Kept;
  }

  lemma LinesSoFar(data: seq<Byte>, base: nat, torn: bool, n: nat)
    requires n < |data|
    ensures ReadTo(Begun(base, torn), data, n + 1).lines ==
            ReadTo(Begun(base, torn), data, n).lines + Added(data, base, torn, n)
  {
    WhereReadStands(data, base, torn, n);
    var lines := ReadTo(Begun(base, torn), data, n).lines;
    assert lines + [] == lines;
  }

  /** The lines of a read are exactly its complete lines of acceptable length, each under its own absolute offset. */
  lemma {:induction false} LinesAreLines(data: seq<Byte>, base: nat, torn: bool, n: nat, l: Line)
    requires n <= |data|
    ensures l in ReadTo(Begun(base, torn), data, n).lines <==> Expected(data, base, torn, n, l)
  {
    hide Expected, Added, LineStart;
    if n == 0 {
      NoneExpected(data, base, torn, l);
    } else {
      LinesAreLines(data, base, torn, n - 1, l);
      LinesSoFar(data, base, torn, n - 1);
      LineAdded(data, base, torn, n - 1, l);
    }
  }

  lemma NoneExpected(data: seq<Byte>, base: nat, torn: bool, l: Line)
    ensures !Expected(data, base, torn, 0, l)
  {
  }

  /** The keys rise strictly and stay below `end`. */
  predicate KeysRise(lines: seq<Line>, end: int) {
    && (forall i | 0 <= i < |lines| :: lines[i].key < end)
    && forall i, j | 0 <= i < j < |lines| :: lines[i].key < lines[j].key
  }

  /** They come in the order of the file and none comes twice. */
  lemma {:induction false} LinesInOrder(data: seq<Byte>, base: nat, torn: bool, n: nat)
    requires n <= |data|
    ensures KeysRise(ReadTo(Begun(base, torn), data, n).lines, base + LineStart(data, n))
  {
    hide KeysRise, ReadTo, Added;
    if n == 0 {
      NoneRead(data, base, torn);
    } else {
      LinesInOrder(data, base, torn, n - 1);
      LinesSoFar(data, base, torn, n - 1);
      AddedRises(data, base, torn, n - 1, ReadTo(Begun(base, torn), data, n - 1).lines);
    }
  }

  lemma NoneRead(data: seq<Byte>, base: nat, torn: bool)
    ensures KeysRise(ReadTo(Begun(base, torn), data, 0).lines, base + LineStart(data, 0))
  {
  }

  lemma AddedRises(data: seq<Byte>, base: nat, torn: bool, n: nat, lines: seq<Line>)
    requires n < |data| && KeysRise(lines, base + LineStart(data, n))
    ensures KeysRise(lines + Added(data, base, torn, n), base + LineStart(data, n + 1))
  {
  }

  // ---- the tailer ----

  /** `offset` is the next byte to read, `pending` the unfinished line before it; `discarding` means that the
      unfinished line is being thrown away. */
  datatype Tail = Tail(offset: nat, pending: seq<Byte>, discarding: bool)

  /** The tailer remembers of the reference what it needs: it throws away the unfinished line exactly when it
      is torn or has outgrown the pending cap. */
  predicate Tracks(t: Tail, s: Scan) {
    && t.offset == s.at && |s.cur| <= s.at
    && (t.discarding <==> s.torn || |s.cur| > MAX_PENDING_BYTES)
    && t.pending == (if t.discarding then [] else s.cur)
  }

  method IndexOfNl(data: seq<Byte>, from: nat) returns (i: int)
    requires from <= |data|
    ensures i < 0 ==> forall k | from <= k < |data| :: data[k] != NL
    ensures i >= 0 ==> from <= i < |data| && data[i] == NL && forall k | from <= k < i :: data[k] != NL
  {
    var k := from;
    while k < |data|
      invariant from <= k <= |data|
      invariant forall j | from <= j < k :: data[j] != NL
    {
      if data[k] == NL { return k; }
      k := k + 1;
    }
    return -1;
  }

  lemma {:induction false} ReadPlain(s: Scan, data: seq<Byte>, from: nat, n: nat)
    requires from <= n <= |data| && forall k | from <= k < n :: data[k] != NL
    ensures var r := ReadTo(s, data, from);
            ReadTo(s, data, n) == r.(cur := r.cur + data[from..n], at := r.at + (n - from))
  {
    if n == from {
      assert data[from..n] == [];
      assert ReadTo(s, data, from).cur + [] == ReadTo(s, data, from).cur;
    } else {
      ReadPlain(s, data, from, n - 1);
      var r := ReadTo(s, data, from);
      assert r.cur + data[from..n - 1] + [data[n - 1]] == r.cur + data[from..n];
    }
  }

  /** The unfinished line can be read again from its first byte. */
  function Rewound(s: Scan): Scan
    requires |s.cur| <= s.at
  {
    s.(cur := [], at := s.at - |s.cur|)
  }

  /** No newline is part of an unfinished line. */
  predicate Unfinished(s: Scan) {
    |s.cur| <= s.at && forall k | 0 <= k < |s.cur| :: s.cur[k] != NL
  }

  lemma {:induction false} StaysUnfinished(s: Scan, data: seq<Byte>, n: nat)
    requires n <= |data| && Unfinished(s)
    ensures Unfinished(ReadTo(s, data, n))
  {
    if n > 0 { StaysUnfinished(s, data, n - 1); }
  }

  lemma Reread(s: Scan, chunk: seq<Byte>)
    requires Unfinished(s)
    ensures Read(Rewound(s), s.cur + chunk) == Read(s, chunk)
  {
    ReadPlain(Rewound(s), s.cur, 0, |s.cur|);
    assert Read(Rewound(s), s.cur) == s by {
      assert [] + s.cur[0..|s.cur|] == s.cur;
    }
    ReadConcat(Rewound(s), s.cur, chunk);
  }

  /** A newline ends the unfinished line. */
  lemma NewlineRead(s: Scan, data: seq<Byte>, i: nat, text: seq<Byte>, done: seq<Line>, start: nat)
    requires i < |data| && data[i] == NL && ReadTo(s, data, i) == Scan(done, text, start + |text|, false)
    ensures ReadTo(s, data, i + 1) == Scan(done + Kept(text, start), [], start + |text| + 1, false)
  {
    hide Kept;
  }

  lemma LineRead(s: Scan, data: seq<Byte>, pos: nat, i: nat, done: seq<Line>, base: nat)
    requires pos <= i < |data| && data[i] == NL && (forall k | pos <= k < i :: data[k] != NL)
    requires ReadTo(s, data, pos) == Scan(done, [], base + pos, false)
    ensures ReadTo(s, data, i + 1) == Scan(done + Kept(data[pos..i], base + pos), [], base + i + 1, false)
  {
    hide ReadTo, Kept;
    ReadPlain(s, data, pos, i);
    assert [] + data[pos..i] == data[pos..i];
    NewlineRead(s, data, i, data[pos..i], done, base + pos);
  }

  /** Takes the complete lines from `pos` on; `rest` is where the unfinished one begins. */
  method TakeLines(data: seq<Byte>, base: nat, from: nat, ghost s: Scan, ghost done: seq<Line>)
    returns (out: seq<Line>, rest: nat)
    requires from <= |data| && ReadTo(s, data, from) == Scan(done, [], base + from, false)
    ensures from <= rest <= |data|
    ensures Read(s, data) == Scan(done + out, data[rest..], base + |data|, false)
  {
    hide ReadTo;
    out := [];
    var pos := from;
    while true
      invariant from <= pos <= |data|
      invariant ReadTo(s, data, pos) == Scan(done + out, [], base + pos, false)
      decreases |data| - pos
    {
      var i := IndexOfNl(data, pos);
      if i < 0 { break; }
      LineRead(s, data, pos, i, done + out, base);
      assert done + out + Kept(data[pos..i], base + pos) == done + (out + Kept(data[pos..i], base + pos));
      if i > pos && i - pos <= MAX_LINE_BYTES {
        out := out + [Line(data[pos..i], base + pos)];
      }
      pos := i + 1;
    }
    ReadPlain(s, data, pos, |data|);
    assert [] + data[pos..|data|] == data[pos..];
    rest := pos;
  }

  /** A newline ends the line that was being thrown away, without yielding it. */
  lemma DiscardEnds(s: Scan, data: seq<Byte>, i: nat)
    requires i < |data| && data[i] == NL && (forall k | 0 <= k < i :: data[k] != NL)
    requires s.torn || |s.cur| > MAX_PENDING_BYTES
    ensures ReadTo(s, data, i + 1) == Scan(s.lines, [], s.at + i + 1, false)
  {
    ReadPlain(s, data, 0, i);
    assert s.lines + [] == s.lines;
  }

  /** Finds the end of the line being thrown away: where complete lines begin again, if they do. */
  method SkipDiscarded(t: Tail, data: seq<Byte>, ghost s: Scan) returns (found: bool, pos: nat)
    requires t.discarding && Tracks(t, s)
    ensures found ==> pos <= |data| && ReadTo(s, data, pos) == Scan(s.lines, [], t.offset + pos, false)
    ensures !found ==> Tracks(Tail(t.offset + |data|, [], true), Read(s, data)) && Read(s, data).lines == s.lines
  {
    var i := IndexOfNl(data, 0);
    if i < 0 {
      ReadPlain(s, data, 0, |data|);
      return false, 0;
    }
    DiscardEnds(s, data, i);
    return true, i + 1;
  }

  /** One read: completes lines and keeps the unfinished rest, exactly as the reference does; `s` is what the
      reference has seen so far. */
  method Consume(t: Tail, chunk: seq<Byte>, ghost s: Scan) returns (r: Tail, out: seq<Line>)
    requires Tracks(t, s) && Unfinished(s)
    ensures Tracks(r, Read(s, chunk)) && Unfinished(Read(s, chunk))
    ensures Read(s, chunk).lines == s.lines + out
  {
    hide ReadTo;
    StaysUnfinished(s, chunk, |chunk|);
    var data := t.pending + chunk;
    var dataStart := t.offset - |t.pending|;
    var offset := t.offset + |chunk|;
    var pos := 0;
    ghost var s0 := s;
    if t.discarding {
      assert data == chunk;
      var found;
      found, pos := SkipDiscarded(t, data, s);
      if !found {
        assert s.lines + [] == s.lines;
        return Tail(offset, [], true), [];
      }
    } else {
      Reread(s, chunk);
      s0 := Rewound(s);
      ReadNothing(s0, data);
    }
    var rest;
    out, rest := TakeLines(data, dataStart, pos, s0, s.lines);
    if |data| - rest > MAX_PENDING_BYTES {
      r := Tail(offset, [], true);
    } else {
      r := Tail(offset, data[rest..], false);
    }
  }

  lemma ReadNothing(s: Scan, data: seq<Byte>)
    ensures ReadTo(s, data, 0) == s
  {
  }

  // ---- reading on in a file ----

  /** Where the unfinished line begins. */
  function CurStart(s: Scan): int { s.at - |s.cur| }

  /** The scan stands in the file `data`: its unfinished line is what precedes it there, from the line's start on unless
      it is torn. */
  predicate InFile(s: Scan, data: seq<Byte>) {
    && |s.cur| <= s.at <= |data| && s.cur == data[CurStart(s)..s.at]
    && (s.torn || CurStart(s) == 0 || data[CurStart(s) - 1] == NL)
  }

  /** A line to keep: complete, of acceptable length, under its own offset in the file. */
  predicate GoodLine(data: seq<Byte>, l: Line) {
    0 < |l.text| <= MAX_LINE_BYTES && IsLine(data, l.key, l.text)
  }

  /** `lines` are, in order, exactly the good lines of the file that begin at `from` or later and whose newline lies in
      `lo..hi`. */
  ghost predicate GoodLines(lines: seq<Line>, data: seq<Byte>, from: int, lo: int, hi: int) {
    && KeysRise(lines, hi)
    && forall l :: l in lines <==> GoodLine(data, l) && from <= l.key && lo <= l.key + |l.text| < hi
  }

  lemma CurIsPlain(s: Scan, data: seq<Byte>)
    requires InFile(s, data) && Unfinished(s)
    ensures forall k | CurStart(s) <= k < s.at :: data[k] != NL
  {
    forall k | CurStart(s) <= k < s.at
      ensures data[k] != NL
    {
      assert s.cur[k - CurStart(s)] == data[k];
    }
  }

  /** What is read at a newline is exactly the line that ends there, unless its beginning was not seen. */
  lemma LineTaken(s: Scan, data: seq<Byte>, l: Line)
    requires InFile(s, data) && Unfinished(s) && s.at < |data| && data[s.at] == NL && !s.torn
    ensures l in Kept(s.cur, CurStart(s)) <==> GoodLine(data, l) && l.key + |l.text| == s.at
  {
    KeptIs(s.cur, CurStart(s), l);
    if IsLine(data, l.key, l.text) && l.key + |l.text| == s.at { SameStart(s, data, l.key, l.text); }
  }

  /** Only one line ends at a newline. */
  lemma SameStart(s: Scan, data: seq<Byte>, at: int, text: seq<Byte>)
    requires InFile(s, data) && Unfinished(s) && s.at < |data| && !s.torn
    requires IsLine(data, at, text) && at + |text| == s.at
    ensures at == CurStart(s) && text == s.cur
  {
    CurIsPlain(s, data);
  }

  lemma TornEnds(s: Scan, data: seq<Byte>, at: int, text: seq<Byte>)
    requires InFile(s, data) && Unfinished(s) && s.at < |data|
    requires IsLine(data, at, text) && at + |text| == s.at
    ensures at <= CurStart(s)
  {
    CurIsPlain(s, data);
  }

  lemma StepInFile(s: Scan, data: seq<Byte>)
    requires InFile(s, data) && Unfinished(s) && s.at < |data|
    ensures InFile(Step(s, data[s.at]), data) && Unfinished(Step(s, data[s.at]))
  {
    if data[s.at] != NL { assert s.cur + [data[s.at]] == data[CurStart(s)..s.at + 1]; }
  }

  /** One more byte. */
  lemma GoodStep(lines: seq<Line>, more: seq<Line>, s: Scan, data: seq<Byte>, from: int, lo: int)
    requires InFile(s, data) && Unfinished(s) && s.at < |data| && GoodLines(lines, data, from, lo, s.at) && lo <= s.at
    requires if s.torn then CurStart(s) < from else CurStart(s) >= from
    requires more == if data[s.at] == NL && !s.torn then Kept(s.cur, CurStart(s)) else []
    ensures GoodLines(lines + more, data, from, lo, s.at + 1)
  {
    forall l
      ensures l in lines + more <==> GoodLine(data, l) && from <= l.key && lo <= l.key + |l.text| < s.at + 1
    {
      if GoodLine(data, l) && l.key + |l.text| == s.at { TornEnds(s, data, l.key, l.text); }
      if data[s.at] == NL && !s.torn { LineTaken(s, data, l); }
    }
    forall i, j | 0 <= i < j < |lines + more|
      ensures (lines + more)[i].key < (lines + more)[j].key
    {
      if j >= |lines| && i < |lines| {
        assert lines[i] in lines;
        EarlierLine(s, data, lines[i].key, lines[i].text);
      }
    }
  }

  /** A line that ended before begins before the unfinished one. */
  lemma EarlierLine(s: Scan, data: seq<Byte>, at: int, text: seq<Byte>)
    requires InFile(s, data) && Unfinished(s) && IsLine(data, at, text) && at + |text| < s.at
    ensures at < CurStart(s)
  {
    CurIsPlain(s, data);
  }

  /** Where a good line read from `s` on must begin: nothing whose beginning was not seen. */
  function SeenFrom(s: Scan): int { CurStart(s) + if s.torn then 1 else 0 }

  /** The scan `r` came from `s` by reading on in the file, and took `more`. */
  ghost predicate Reached(s: Scan, r: Scan, data: seq<Byte>, more: seq<Line>) {
    && InFile(r, data) && Unfinished(r) && s.at <= r.at && r.lines == s.lines + more
    && (if r.torn then s.torn && CurStart(r) == CurStart(s) else CurStart(r) >= SeenFrom(s))
    && GoodLines(more, data, SeenFrom(s), s.at, r.at)
  }

  lemma ReachedNone(s: Scan, data: seq<Byte>)
    requires InFile(s, data) && Unfinished(s)
    ensures Reached(s, s, data, [])
  {
    assert s.lines + [] == s.lines;
  }

  lemma ReachedStep(s: Scan, r: Scan, data: seq<Byte>, more: seq<Line>) returns (more': seq<Line>)
    requires Reached(s, r, data, more) && r.at < |data|
    ensures Reached(s, Step(r, data[r.at]), data, more')
  {
    hide GoodLines, Kept;
    StepInFile(r, data);
    var one := if data[r.at] == NL && !r.torn then Kept(r.cur, CurStart(r)) else [];
    GoodStep(more, one, r, data, SeenFrom(s), s.at);
    assert s.lines + more + one == s.lines + (more + one) && s.lines + more + [] == s.lines + more;
    more' := more + one;
  }

  /** Reading on yields exactly the good lines that the bytes read complete, and the scan stands in the file again. */
  lemma {:induction false} ReadsGoodLines(s: Scan, data: seq<Byte>, n: nat) returns (more: seq<Line>)
    requires InFile(s, data) && Unfinished(s) && s.at + n <= |data|
    ensures var r := ReadTo(s, data[s.at..], n); Reached(s, r, data, more) && r.at == s.at + n
  {
    hide Reached, Unfinished;
    if n == 0 {
      more := [];
      ReachedNone(s, data);
    } else {
      more := ReadsGoodLines(s, data, n - 1);
      more := ReachedStep(s, ReadTo(s, data[s.at..], n - 1), data, more);
    }
  }

  /** The same for a chunk read from where the scan stands. */
  lemma ChunkGoodLines(s: Scan, data: seq<Byte>, chunk: seq<Byte>) returns (more: seq<Line>)
    requires InFile(s, data) && Unfinished(s) && s.at + |chunk| <= |data| && chunk == data[s.at..s.at + |chunk|]
    ensures var r := Read(s, chunk);
            InFile(r, data) && Unfinished(r) && r.at == s.at + |chunk| && r.lines == s.lines + more
    ensures GoodLines(more, data, SeenFrom(s), s.at, s.at + |chunk|)
  {
    hide GoodLines;
    more := ReadsGoodLines(s, data, |chunk|);
    assert data[s.at..] == chunk + data[s.at + |chunk|..];
    ReadPrefix(s, chunk, data[s.at + |chunk|..], |chunk|);
  }
}
