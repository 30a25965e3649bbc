/** The text of a snapshot: as much scrollback as fits the byte cap, or, if not even the screen alone fits, its
    plain rows, as many as fit. */
module SnapshotText {
  import opened Utf16
  import opened Json

  const TERMINAL_SNAPSHOT_BYTES := 256 * 1024
  const SCROLLBACK_LINES := 1000

  /** The visible rows, right-trimmed, and the cursor; `alternate` is the alternate screen. */
  datatype Viewport = Viewport(rows: seq<JsString>, cursorX: nat, cursorY: nat, alternate: bool)

  /** The screen serialized with so many lines of scrollback. */
  type Serializer = nat -> JsString

  predicate Fits(d: JsString) { EncodedLength(d) <= TERMINAL_SNAPSHOT_BYTES }

  /** A text fits if its escape and two quotes take 256 KiB at most. */
  lemma FitsExactly(d: JsString)
    ensures Fits(d) <==> |Escape(d)| + 2 <= 262144
  {
    EncodedLengthIs(d);
  }

  /** The next smaller amount of scrollback tried. */
  function Fewer(lines: nat): (r: nat)
    ensures lines > 0 ==> r < lines
  {
    if lines > 16 then lines / 2 else 0
  }

  /** `k` is tried when the amounts tried begin at `lines`. */
  predicate Tried(k: nat, lines: nat)
    decreases lines
  {
    k == lines || (lines > 0 && Tried(k, Fewer(lines)))
  }

  lemma {:induction false} TriedTrans(a: nat, b: nat, c: nat)
    requires Tried(a, b) && Tried(b, c)
    ensures Tried(a, c)
    decreases c
  {
    if b != c { TriedTrans(a, b, Fewer(c)); }
  }

  /** What is tried is never more than where the trying began, and the screen alone is always tried. */
  lemma {:induction false} TriedDown(k: nat, lines: nat)
    ensures Tried(k, lines) ==> k <= lines
    ensures Tried(0, lines)
    decreases lines
  {
    if lines > 0 { TriedDown(k, Fewer(lines)); }
  }

  /** From `lines` on, only smaller amounts and `lines` itself are tried. */
  lemma {:induction false} TriedNext(k: nat, lines: nat, from: nat)
    requires Tried(lines, from) && Tried(k, from) && k < lines
    ensures Tried(k, Fewer(lines))
    decreases from
  {
    if lines != from {
      TriedDown(lines, Fewer(from));
      TriedNext(k, lines, Fewer(from));
    }
  }

  /** The amounts tried, the largest first. */
  lemma AmountsTried(k: nat)
    ensures Tried(k, SCROLLBACK_LINES) <==> k in {1000, 500, 250, 125, 62, 31, 15, 0}
  {
    assert Tried(k, 15) <==> k in {15, 0};
    assert Tried(k, 31) <==> k == 31 || Tried(k, 15);
    assert Tried(k, 62) <==> k == 62 || Tried(k, 31);
    assert Tried(k, 125) <==> k == 125 || Tried(k, 62);
    assert Tried(k, 250) <==> k == 250 || Tried(k, 125);
    assert Tried(k, 500) <==> k == 500 || Tried(k, 250);
  }

  function Lines(rows: seq<JsString>): JsString {
    if rows == [] then [] else if |rows| == 1 then rows[0] else rows[0] + [0x0D, 0x0A] + Lines(rows[1..])
  }

  /** The plain rows from `dropped` on and a cursor escape. */
  function Plain(v: Viewport, dropped: nat): JsString
    requires dropped <= |v.rows|
  {
    var row := if v.cursorY > dropped then v.cursorY - dropped else 0;
    (if v.alternate then [0x1B, 0x5B, 0x3F, 0x31, 0x30, 0x34, 0x39, 0x68] else [])
      + Lines(v.rows[dropped..]) + [0x1B, 0x5B] + Dec(row + 1) + [0x3B] + Dec(v.cursorX + 1) + [0x48]
  }

  /** The text of `Plain` as a terminal reads it: the alternate screen if it was on, the rows kept from the top down,
      and the cursor at its row among them, counted from 1, or at the first if its own was dropped, and its column. */
  lemma PlainShows(v: Viewport, dropped: nat, row: nat, column: nat)
    requires dropped <= |v.rows|
    requires column == v.cursorX + 1 && row == if v.cursorY < dropped then 1 else v.cursorY - dropped + 1
    ensures var screen := if v.alternate then [0x1B, 0x5B, 0x3F, 0x31, 0x30, 0x34, 0x39, 0x68] else [];
            Plain(v, dropped) ==
            screen + Lines(v.rows[dropped..]) + ([0x1B, 0x5B] + Dec(row) + [0x3B] + Dec(column) + [0x48])
  {
    hide Lines, Dec;
    var screen := if v.alternate then [0x1B, 0x5B, 0x3F, 0x31, 0x30, 0x34, 0x39, 0x68] else [];
    Regroup(screen + Lines(v.rows[dropped..]), [0x1B, 0x5B], Dec(row), [0x3B], Dec(column), [0x48]);
  }

  lemma Regroup(t: JsString, a: JsString, b: JsString, c: JsString, d: JsString, e: JsString)
    ensures t + a + b + c + d + e == t + (a + b + c + d + e)
  {
    assert t + a + b == t + (a + b);
    assert t + (a + b) + c == t + (a + b + c);
    assert t + (a + b + c) + d == t + (a + b + c + d);
  }

  /** The rows stand one below the other, each on its own line. */
  lemma {:induction false} LinesJoin(rows: seq<JsString>, more: seq<JsString>)
    ensures Lines([]) == [] && (forall row :: Lines([row]) == row)
    ensures rows != [] && more != [] ==> Lines(rows + more) == Lines(rows) + [0x0D, 0x0A] + Lines(more)
  {
    if |rows| == 1 && more != [] {
      assert (rows + more)[1..] == more;
    } else if |rows| > 1 && more != [] {
      LinesJoin(rows[1..], more);
      assert (rows + more)[1..] == rows[1..] + more;
      var first := rows[0] + [0x0D, 0x0A];
      assert first + (Lines(rows[1..]) + [0x0D, 0x0A] + Lines(more)) ==
             first + Lines(rows[1..]) + [0x0D, 0x0A] + Lines(more);
    }
  }

  lemma {:induction false} DigitsShort(n: nat)
    ensures |Dec(n)| <= n + 1
  {
    if n >= 10 { DigitsShort(n / 10); }
  }

  /** Without rows, only the cursor escape is left, and for any screen of ordinary size it fits. */
  lemma BareFits(v: Viewport)
    requires v.cursorX <= 10000 && v.cursorY <= |v.rows| + 10000
    ensures Fits(Plain(v, |v.rows|))
  {
    var row := if v.cursorY > |v.rows| then v.cursorY - |v.rows| else 0;
    DigitsShort(row + 1);
    DigitsShort(v.cursorX + 1);
    assert v.rows[|v.rows|..] == [];
    hide Escape, Dec;
    assert |Plain(v, |v.rows|)| <= 8 + 2 + (row + 2) + 1 + (v.cursorX + 2) + 1;
    EscapeShort(Plain(v, |v.rows|));
  }

  method PlainViewport(v: Viewport) returns (d: JsString, ghost dropped: nat)
    requires Fits(Plain(v, |v.rows|))
    ensures dropped <= |v.rows| && d == Plain(v, dropped) && Fits(d)
    ensures forall k | 0 <= k < dropped :: !Fits(Plain(v, k))
  {
    hide Plain, Fits;
    var n := 0;
    d := Plain(v, 0);
    while EncodedLength(d) > TERMINAL_SNAPSHOT_BYTES && n < |v.rows|
      invariant 0 <= n <= |v.rows| && d == Plain(v, n)
      invariant forall k | 0 <= k < n :: !Fits(Plain(v, k))
      decreases |v.rows| - n
    {
      TooLong(d);
      n := n + 1;
      d := Plain(v, n);
    }
    dropped := n;
    if n < |v.rows| { ShortEnough(d); }
  }

  lemma TooLong(d: JsString)
    requires EncodedLength(d) > TERMINAL_SNAPSHOT_BYTES
    ensures !Fits(d)
  {
  }

  lemma ShortEnough(d: JsString)
    requires EncodedLength(d) <= TERMINAL_SNAPSHOT_BYTES
    ensures Fits(d)
  {
  }

  /** The text always fits the cap. It carries the most scrollback, of the amounts tried, that fits; only when
      none does are plain rows sent, with no more dropped from the top than needed. */
  method SerializeBounded(serialize: Serializer, v: Viewport)
    returns (d: JsString, ghost lines: nat, ghost dropped: nat)
    requires Fits(Plain(v, |v.rows|))
    ensures Fits(d)
    ensures Fits(serialize(lines)) ==>
              d == serialize(lines) && Tried(lines, SCROLLBACK_LINES)
              && forall k: nat | Tried(k, SCROLLBACK_LINES) && k > lines :: !Fits(serialize(k))
    ensures !Fits(serialize(lines)) ==>
              && (forall k: nat | Tried(k, SCROLLBACK_LINES) :: !Fits(serialize(k)))
              && dropped <= |v.rows| && d == Plain(v, dropped) && forall k | 0 <= k < dropped :: !Fits(Plain(v, k))
  {
    hide Plain, Tried;
    var n: nat := SCROLLBACK_LINES;
    NoneAbove(n);
    d := serialize(n);
    while EncodedLength(d) > TERMINAL_SNAPSHOT_BYTES && n > 0
      invariant d == serialize(n) && Tried(n, SCROLLBACK_LINES)
      invariant forall k: nat | Tried(k, SCROLLBACK_LINES) && k > n :: !Fits(serialize(k))
      decreases n
    {
      NextTried(n, SCROLLBACK_LINES);
      n := Fewer(n);
      d := serialize(n);
    }
    lines, dropped := n, 0;
    if EncodedLength(d) > TERMINAL_SNAPSHOT_BYTES {
      d, dropped := PlainViewport(v);
    }
  }

  lemma NoneAbove(n: nat)
    ensures Tried(n, n) && forall k: nat | Tried(k, n) :: k <= n
  {
    forall k: nat
      ensures Tried(k, n) ==> k <= n
    {
      TriedDown(k, n);
    }
  }

  lemma NextTried(n: nat, from: nat)
    requires Tried(n, from) && n > 0
    ensures Tried(Fewer(n), from)
    ensures forall k: nat | Tried(k, from) && k < n :: k <= Fewer(n)
  {
    TriedTrans(Fewer(n), n, from);
    forall k: nat | Tried(k, from) && k < n
      ensures k <= Fewer(n)
    {
      TriedNext(k, n, from);
      TriedDown(k, Fewer(n));
    }
  }
}
