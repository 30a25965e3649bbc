/** JavaScript strings as sequences of UTF-16 code units, read one code point at a time,
    and the terminal feed's byte-bounded splitting of them. */
module Utf16 {

  newtype CodeUnit = u: int | 0 <= u < 0x1_0000
  type JsString = seq<CodeUnit>

  predicate IsHigh(u: CodeUnit) { 0xD800 <= u < 0xDC00 }

  predicate IsLow(u: CodeUnit) { 0xDC00 <= u < 0xE000 }

  /** A surrogate pair starts at `i`. */
  predicate PairAt(s: JsString, i: nat) {
    i + 1 < |s| && IsHigh(s[i]) && IsLow(s[i + 1])
  }

  /** Units taken by the code point that starts at `i`; a lone surrogate is a code point of its own. */
  function StepAt(s: JsString, i: nat): (n: nat)
    requires i < |s|
    ensures 1 <= n <= 2 && i + n <= |s|
  {
    if PairAt(s, i) then 2 else 1
  }

  function CodePointAt(s: JsString, i: nat): int
    requires i < |s|
  {
    if PairAt(s, i) then 0x1_0000 + (s[i] as int - 0xD800) * 0x400 + (s[i + 1] as int - 0xDC00) else s[i] as int
  }

  /** Bytes of one code point in UTF-8 (section 3 of RFC 3629); a lone surrogate counts 3, as its
      replacement character does. */
  function Utf8Width(cp: int): (w: nat)
    ensures 1 <= w <= 4
  {
    if cp < 0x80 then 1 else if cp < 0x800 then 2 else if cp < 0x1_0000 then 3 else 4
  }

  function Utf8Len(s: JsString): nat {
    if s == [] then 0 else Utf8Width(CodePointAt(s, 0)) + Utf8Len(s[StepAt(s, 0)..])
  }

  /** No surrogate pair of `s` straddles position `i`. */
  predicate Boundary(s: JsString, i: nat) {
    i <= |s| && !(0 < i && PairAt(s, i - 1))
  }

  function Flatten(parts: seq<JsString>): JsString {
    if parts == [] then [] else Flatten(parts[..|parts| - 1]) + parts[|parts| - 1]
  }

  lemma FlattenSnoc(parts: seq<JsString>, p: JsString)
    ensures Flatten(parts + [p]) == Flatten(parts) + p
  {
    assert (parts + [p])[..|parts|] == parts;
  }

  /** No surrogate pair straddles the join. */
  predicate Joins(a: JsString, b: JsString) {
    !(a != [] && b != [] && IsHigh(a[|a| - 1]) && IsLow(b[0]))
  }

  lemma StepIn(a: JsString, b: JsString)
    requires a != [] && Joins(a, b)
    ensures StepAt(a + b, 0) == StepAt(a, 0) && CodePointAt(a + b, 0) == CodePointAt(a, 0)
    ensures (a + b)[..StepAt(a, 0)] == a[..StepAt(a, 0)] && PairAt(a + b, 0) == PairAt(a, 0)
    ensures (a + b)[StepAt(a, 0)..] == a[StepAt(a, 0)..] + b && Joins(a[StepAt(a, 0)..], b)
  {
    assert PairAt(a + b, 0) == PairAt(a, 0);
  }

  lemma {:induction false} Utf8Concat(a: JsString, b: JsString)
    requires Joins(a, b)
    ensures Utf8Len(a + b) == Utf8Len(a) + Utf8Len(b)
  {
    if a == [] {
      assert a + b == b;
    } else {
      StepIn(a, b);
      Utf8Concat(a[StepAt(a, 0)..], b);
    }
  }

  /** Extending a slice by one whole code point adds exactly that code point's width. */
  lemma {:induction false} SliceGrows(s: JsString, a: nat, i: nat)
    requires a <= i < |s| && Boundary(s, i)
    ensures Utf8Len(s[a..i + StepAt(s, i)]) == Utf8Len(s[a..i]) + Utf8Width(CodePointAt(s, i))
    decreases i - a
  {
    var t, u := s[a..i + StepAt(s, i)], s[a..i];
    if a == i {
      assert CodePointAt(t, 0) == CodePointAt(s, i) && t[StepAt(t, 0)..] == [] && u == [];
    } else {
      assert a + 1 == i ==> !PairAt(s, a);
      assert PairAt(t, 0) == PairAt(u, 0) == PairAt(s, a);
      var n := StepAt(s, a);
      assert t[n..] == s[a + n..i + StepAt(s, i)] && u[n..] == s[a + n..i];
      SliceGrows(s, a + n, i);
    }
  }

  /** What splitting promises of one piece. With a cap of at least 4 every piece is non-empty and within
      it; below that, a code point wider than the cap still travels whole. */
  predicate PieceOk(p: JsString, maxBytes: int) {
    if maxBytes >= 4 then p != [] && Utf8Len(p) <= maxBytes
    else p == [] || StepAt(p, 0) == |p| || Utf8Len(p) <= maxBytes
  }

  /** `p` was closed before `next` between two code points, and only because `next`'s first one did not fit. */
  predicate CutOk(p: JsString, next: JsString, maxBytes: int) {
    && next != []
    && !(p != [] && IsHigh(p[|p| - 1]) && IsLow(next[0]))
    && Utf8Len(p) + Utf8Width(CodePointAt(next, 0)) > maxBytes
  }

  /** `parts` is the greedy split of `s`: nothing lost, every piece acceptable, every cut between code
      points and none made early. */
  ghost predicate IsSplit(parts: seq<JsString>, s: JsString, maxBytes: int) {
    && Flatten(parts) == s
    && (forall k | 0 <= k < |parts| :: PieceOk(parts[k], maxBytes))
    && (forall k | 0 < k < |parts| :: CutOk(parts[k - 1], parts[k], maxBytes))
  }

  /** The splitting loop's state: `pieces` is done up to `start`, `data[start..i]` is the open piece. */
  ghost predicate Splitting(data: JsString, pieces: seq<JsString>, start: nat, i: nat, bytes: nat, maxBytes: int) {
    && start <= i <= |data| && Boundary(data, i)
    && (start == i ==> i == 0 && pieces == [])
    && IsSplit(pieces, data[..start], maxBytes)
    && bytes == Utf8Len(data[start..i])
    && (start < i ==> PieceOk(data[start..i], maxBytes))
    && (pieces != [] ==> CutOk(pieces[|pieces| - 1], data[start..i], maxBytes))
  }

  /** Splits `data` into pieces of at most `maxBytes` UTF-8 bytes, never inside a code point. */
  method SplitUtf8(data: JsString, maxBytes: int) returns (pieces: seq<JsString>)
    ensures IsSplit(pieces, data, maxBytes)
  {
    pieces := [];
    var start, i := 0, 0;
    var bytes: nat := 0;
    Begin(data, maxBytes);
    hide *;
    while i < |data|
      invariant start <= i <= |data| && Splitting(data, pieces, start, i, bytes, maxBytes)
      decreases |data| - i
    {
      var width := Utf8Width(CodePointAt(data, i));
      var step := StepAt(data, i);
      if bytes + width > maxBytes {
        CloseAndExtend(data, pieces, start, i, bytes, maxBytes);
        pieces := pieces + [data[start..i]];
        start := i;
        bytes := 0;
      } else {
        Extend(data, pieces, start, i, bytes, maxBytes);
      }
      bytes := bytes + width;
      i := i + step;
    }
    Finish(data, pieces, start, bytes, maxBytes);
    if start < |data| {
      pieces := pieces + [data[start..]];
    }
  }

  lemma Begin(data: JsString, maxBytes: int)
    ensures Splitting(data, [], 0, 0, 0, maxBytes)
  {
  }

  lemma Extend(data: JsString, pieces: seq<JsString>, start: nat, i: nat, bytes: nat, maxBytes: int)
    requires i < |data| && Splitting(data, pieces, start, i, bytes, maxBytes)
    requires start < i ==> bytes + Utf8Width(CodePointAt(data, i)) <= maxBytes
    requires start == i ==> maxBytes >= bytes + Utf8Width(CodePointAt(data, i)) || pieces == []
    ensures Splitting(data, pieces, start, i + StepAt(data, i), bytes + Utf8Width(CodePointAt(data, i)), maxBytes)
  {
    OpenPieceGrows(data, start, i);
  }

  lemma CloseAndExtend(data: JsString, pieces: seq<JsString>, start: nat, i: nat, bytes: nat, maxBytes: int)
    requires i < |data| && Splitting(data, pieces, start, i, bytes, maxBytes)
    requires bytes + Utf8Width(CodePointAt(data, i)) > maxBytes
    ensures Splitting(data, pieces + [data[start..i]], i, i + StepAt(data, i), Utf8Width(CodePointAt(data, i)),
                      maxBytes)
  {
    ClosePiece(pieces, data, start, i, maxBytes);
    OpenPieceGrows(data, i, i);
    assert data[i..i] == [];
  }

  lemma Finish(data: JsString, pieces: seq<JsString>, start: nat, bytes: nat, maxBytes: int)
    requires Splitting(data, pieces, start, |data|, bytes, maxBytes)
    ensures IsSplit(if start < |data| then pieces + [data[start..]] else pieces, data, maxBytes)
  {
    assert data[..|data|] == data && data[start..|data|] == data[start..];
    if start < |data| {
      ClosePiece(pieces, data, start, |data|, maxBytes);
    }
  }

  lemma OpenPieceGrows(data: JsString, start: nat, i: nat)
    requires start <= i < |data| && Boundary(data, i)
    ensures var n := i + StepAt(data, i);
            && Boundary(data, n)
            && Utf8Len(data[start..n]) == Utf8Len(data[start..i]) + Utf8Width(CodePointAt(data, i))
            && data[start..n][0] == data[start]
            && CodePointAt(data[start..n], 0) == CodePointAt(data, start)
            && (start < i ==> CodePointAt(data[start..i], 0) == CodePointAt(data, start))
            && (start == i ==> StepAt(data[start..n], 0) == n - start)
  {
    SliceGrows(data, start, i);
    var t := data[start..i + StepAt(data, i)];
    assert start + 1 == i ==> !PairAt(data, start);
    assert PairAt(t, 0) == PairAt(data, start);
  }

  lemma ClosePiece(pieces: seq<JsString>, data: JsString, start: nat, i: nat, maxBytes: int)
    requires start <= i <= |data|
    requires IsSplit(pieces, data[..start], maxBytes)
    requires PieceOk(data[start..i], maxBytes)
    requires pieces != [] ==> CutOk(pieces[|pieces| - 1], data[start..i], maxBytes)
    ensures IsSplit(pieces + [data[start..i]], data[..i], maxBytes)
  {
    hide Flatten, PieceOk, CutOk;
    FlattenSnoc(pieces, data[start..i]);
    JoinSlices(data, start, i);
  }

  lemma JoinSlices(data: JsString, start: nat, i: nat)
    requires start <= i <= |data|
    ensures data[..start] + data[start..i] == data[..i]
  {
  }
}
