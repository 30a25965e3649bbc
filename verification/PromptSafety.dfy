/** Cleaning untrusted text until no tag is left, however deeply split tags are nested, and the fence built
    around it. */
module PromptSafety {
  import opened Options
  import opened Utf16

  type Text = JsString

  const LT: CodeUnit := 0x3C
  const GT: CodeUnit := 0x3E
  const SLASH: CodeUnit := 0x2F
  const LINE_FEED: CodeUnit := 0x0A

  predicate IsControl(c: CodeUnit) {
    c <= 8 || c == 0x0B || c == 0x0C || 0x0E <= c <= 0x1F || c == 0x7F
  }

  predicate IsLetter(c: CodeUnit) { 0x61 <= c <= 0x7A || 0x41 <= c <= 0x5A }

  /** The controls are those below the space but tab, line feed and carriage return, and delete; the letters are
      those of the alphabet. */
  lemma ClassesAre(c: CodeUnit)
    ensures IsControl(c) <==> (c < 0x20 && c != 9 && c != 10 && c != 13) || c == 0x7F
    ensures IsLetter(c) <==> 'a' as int <= c as int <= 'z' as int || 'A' as int <= c as int <= 'Z' as int
  {
  }

  // ---- tags ----

  /** The whole of `t` is a tag: `<`, perhaps `/`, a letter, anything but angle brackets, `>`. */
  predicate IsTag(t: Text) {
    && |t| >= 3 && t[0] == LT && t[|t| - 1] == GT
    && var k := if t[1] == SLASH then 2 else 1;
       k < |t| - 1 && IsLetter(t[k]) && forall i | k < i < |t| - 1 :: t[i] != LT && t[i] != GT
  }

  /** Position of the first angle bracket from `i` on, or the length. */
  function Bracket(s: Text, i: nat): (r: nat)
    requires i <= |s|
    ensures i <= r <= |s| && (r < |s| ==> s[r] == LT || s[r] == GT)
    ensures forall k | i <= k < r :: s[k] != LT && s[k] != GT
    decreases |s| - i
  {
    if i == |s| || s[i] == LT || s[i] == GT then i else Bracket(s, i + 1)
  }

  /** Where the tag that starts at `i` ends, if one does: the regular expression's match. */
  function TagEnd(s: Text, i: nat): (r: Option<nat>)
    requires i <= |s|
    ensures r.Some? ==> i + 3 <= r.value <= |s|
  {
    if i < |s| && s[i] == LT then
      var k := if i + 1 < |s| && s[i + 1] == SLASH then i + 2 else i + 1;
      if k < |s| && IsLetter(s[k]) then
        var e := Bracket(s, k + 1);
        if e < |s| && s[e] == GT then Some(e + 1) else None
      else None
    else None
  }

  /** The scanner finds exactly the tags. */
  lemma TagEndExact(s: Text, i: nat, j: nat)
    requires i <= j <= |s|
    ensures TagEnd(s, i) == Some(j) <==> IsTag(s[i..j])
  {
    var t := s[i..j];
    if IsTag(t) {
      var k := if t[1] == SLASH then 2 else 1;
      assert s[i] == LT && s[i + k] == t[k] && s[i + 1] == t[1];
      assert forall m | i + k < m < j - 1 :: s[m] == t[m - i];
      assert s[j - 1] == GT;
    }
  }

  /** One pass: every match removed, from left to right. */
  function Strip(s: Text, i: nat): (r: Text)
    requires i <= |s|
    ensures |r| <= |s| - i
    decreases |s| - i
  {
    if i == |s| then []
    else if TagEnd(s, i).Some? then Strip(s, TagEnd(s, i).value)
    else [s[i]] + Strip(s, i + 1)
  }

  predicate TagFree(s: Text) { TagFreeFrom(s, 0) }

  predicate TagFreeFrom(s: Text, i: nat) {
    forall k | i <= k <= |s| :: TagEnd(s, k) == None
  }

  lemma TagFreeStep(s: Text, i: nat)
    requires i <= |s|
    ensures TagFreeFrom(s, i) <==> TagEnd(s, i) == None && (i < |s| ==> TagFreeFrom(s, i + 1))
    ensures TagEnd(s, |s|) == None
  {
  }

  /** A pass that finds a tag shortens the text; one that finds none leaves it. */
  lemma {:induction false} StripShrinks(s: Text, i: nat)
    requires i <= |s|
    ensures if TagFreeFrom(s, i) then Strip(s, i) == s[i..] else |Strip(s, i)| < |s| - i
    decreases |s| - i
  {
    hide TagEnd, TagFreeFrom;
    TagFreeStep(s, i);
    if i < |s| && TagEnd(s, i) == None {
      StripShrinks(s, i + 1);
      assert s[i..] == [s[i]] + s[i + 1..];
    }
  }

  lemma UnchangedExactly(s: Text)
    ensures Strip(s, 0) == s <==> TagFree(s)
    ensures !TagFree(s) ==> |Strip(s, 0)| < |s|
  {
    StripShrinks(s, 0);
    assert s[0..] == s;
  }

  /** Stripped until nothing changes. */
  function Clean(s: Text): (r: Text)
    ensures |r| <= |s|
    decreases |s|
  {
    UnchangedExactly(s);
    if Strip(s, 0) == s then s else Clean(Strip(s, 0))
  }

  lemma {:induction false} CleanIsTagFree(s: Text)
    ensures TagFree(Clean(s))
    decreases |s|
  {
    UnchangedExactly(s);
    if Strip(s, 0) != s { CleanIsTagFree(Strip(s, 0)); }
  }

  // ---- control characters ----

  function NoControl(s: Text): (r: Text)
    ensures |r| <= |s| && forall c | c in r :: !IsControl(c)
  {
    if s == [] then [] else (if IsControl(s[0]) then [] else [s[0]]) + NoControl(s[1..])
  }

  /** `a` is `b` with some characters left out. */
  predicate Within(a: Text, b: Text) {
    a == [] || (b != [] && if a[0] == b[0] then Within(a[1..], b[1..]) || Within(a, b[1..]) else Within(a, b[1..]))
  }

  lemma {:induction false} WithinSkip(a: Text, b: Text)
    requires b != [] && Within(a, b[1..])
    ensures Within(a, b)
  {
  }

  lemma {:induction false} WithinDrop(a: Text, b: Text, n: nat)
    requires n <= |b| && Within(a, b[n..])
    ensures Within(a, b)
    decreases n
  {
    if n == 0 {
      assert b[0..] == b;
    } else {
      assert b[n - 1..][1..] == b[n..];
      WithinSkip(a, b[n - 1..]);
      WithinDrop(a, b, n - 1);
    }
  }

  lemma {:induction false} WithinSelf(a: Text)
    ensures Within(a, a)
  {
    if a != [] { WithinSelf(a[1..]); }
  }

  lemma {:induction false} StripWithin(s: Text, i: nat)
    requires i <= |s|
    ensures Within(Strip(s, i), s[i..])
    decreases |s| - i
  {
    if i < |s| {
      if TagEnd(s, i).Some? {
        var e := TagEnd(s, i).value;
        StripWithin(s, e);
        assert s[i..][e - i..] == s[e..];
        WithinDrop(Strip(s, i), s[i..], e - i);
      } else {
        StripWithin(s, i + 1);
        assert s[i..][1..] == s[i + 1..] && Strip(s, i)[1..] == Strip(s, i + 1);
      }
    }
  }

  lemma {:induction false} WithinIn(a: Text, b: Text, c: CodeUnit)
    requires Within(a, b) && c in a
    ensures c in b
    decreases |b|
  {
    if a[0] == b[0] {
      if Within(a[1..], b[1..]) {
        if c != a[0] { WithinIn(a[1..], b[1..], c); }
      } else {
        WithinIn(a, b[1..], c);
      }
    } else {
      WithinIn(a, b[1..], c);
    }
  }

  /** Stripping tags brings no control character back. */
  lemma {:induction false} CleanKeepsOut(s: Text, c: CodeUnit)
    requires c in Clean(s)
    ensures c in s
    decreases |s|
  {
    UnchangedExactly(s);
    if Strip(s, 0) != s {
      CleanKeepsOut(Strip(s, 0), c);
      StripWithin(s, 0);
      assert s[0..] == s;
      WithinIn(Strip(s, 0), s, c);
    }
  }

  // ---- the two functions ----

  /** What cleaned text promises: no control character and no substring that is a tag. */
  ghost predicate IsSafe(s: Text) {
    && (forall c | c in s :: !IsControl(c))
    && forall i, j | 0 <= i <= j <= |s| :: !IsTag(s[i..j])
  }

  lemma TagFreeIsSafe(s: Text)
    requires TagFree(s) && forall c | c in s :: !IsControl(c)
    ensures IsSafe(s)
  {
    forall i, j | 0 <= i <= j <= |s|
      ensures !IsTag(s[i..j])
    {
      TagEndExact(s, i, j);
    }
  }

  /** The pass bound, one more than the length, is never what ends the loop. */
  method SanitizeUntrusted(content: Text) returns (out: Text)
    ensures out == Clean(NoControl(content)) && IsSafe(out)
  {
    out := NoControl(content);
    SanitizedIsSafe(content);
    var maxPasses := |content| + 1;
    var pass := 0;
    while pass < maxPasses
      invariant 0 <= pass <= maxPasses && Clean(out) == Clean(NoControl(content)) && |out| + pass <= |content|
    {
      UnchangedExactly(out);
      var next := Strip(out, 0);
      if next == out { return; }
      out := next;
      pass := pass + 1;
    }
    assert false;
  }

  lemma SanitizedIsSafe(content: Text)
    ensures IsSafe(Clean(NoControl(content)))
  {
    var s := NoControl(content);
    CleanIsTagFree(s);
    forall c | c in Clean(s)
      ensures !IsControl(c)
    {
      CleanKeepsOut(s, c);
    }
    TagFreeIsSafe(Clean(s));
  }

  /** Safe text passes through unchanged, so cleaning twice is cleaning once. */
  lemma SafeIsKept(s: Text)
    requires IsSafe(s)
    ensures Clean(NoControl(s)) == s
  {
    NothingToDrop(s);
    forall i | 0 <= i <= |s|
      ensures TagEnd(s, i) == None
    {
      if TagEnd(s, i).Some? { TagEndExact(s, i, TagEnd(s, i).value); }
    }
    UnchangedExactly(s);
  }

  lemma {:induction false} NothingToDrop(s: Text)
    requires forall c | c in s :: !IsControl(c)
    ensures NoControl(s) == s
  {
    if s != [] {
      NothingToDrop(s[1..]);
      assert [s[0]] + s[1..] == s;
    }
  }

  /** A name a fence may use. */
  predicate IsTagName(tag: Text) {
    tag != [] && IsLetter(tag[0]) && forall i | 0 <= i < |tag| :: tag[i] != LT && tag[i] != GT
  }

  function OpenTag(tag: Text): Text { [LT] + tag + [GT] }

  /** A name makes its opening a tag. */
  lemma NameIs(tag: Text)
    ensures IsTagName(tag) <==> tag != [] && tag[0] != SLASH && IsTag(OpenTag(tag))
  {
    var t := OpenTag(tag);
    assert |t| == |tag| + 2 && t[0] == LT && t[|t| - 1] == GT;
    assert forall i | 0 <= i < |tag| :: t[i + 1] == tag[i];
    if tag != [] && tag[0] != SLASH && IsTag(t) {
      assert t[1] == tag[0];
      forall i | 0 <= i < |tag|
        ensures tag[i] != LT && tag[i] != GT
      {
        assert t[i + 1] == tag[i];
      }
    }
  }

  function CloseTag(tag: Text): Text { [LT, SLASH] + tag + [GT] }

  function Fenced(tag: Text, clean: Text): Text { OpenTag(tag) + [LINE_FEED] + clean + ([LINE_FEED] + CloseTag(tag)) }

  predicate OccursAt(s: Text, i: int, t: Text) {
    0 <= i && i + |t| <= |s| && s[i..i + |t|] == t
  }

  lemma MiddleSlice(a: Text, b: Text, c: Text, i: nat, j: nat)
    requires |a| <= i <= j <= |a| + |b|
    ensures (a + b + c)[i..j] == b[i - |a|..j - |a|]
  {
  }

  /** A tag cannot begin inside the fenced text: it would end there, or run over the closing tag's bracket. */
  lemma NotInside(tag: Text, clean: Text, t: Text, i: nat)
    requires IsTagName(tag) && IsSafe(clean) && IsTag(t) && |OpenTag(tag)| < i <= |OpenTag(tag)| + |clean|
    ensures !OccursAt(Fenced(tag, clean), i, t)
  {
    var f, h, e := Fenced(tag, clean), |OpenTag(tag)| + 1, i + |t|;
    assert f[h + |clean|] == LINE_FEED && f[h + |clean| + 1] == LT;
    if h <= i && e <= h + |clean| { MiddleSlice(OpenTag(tag) + [LINE_FEED], clean, [LINE_FEED] + CloseTag(tag), i, e); }
    if h + |clean| < e <= |f| {
      var k := h + |clean| - i;
      assert f[i..e][k] == LINE_FEED;
      assert k + 1 < |t| ==> f[i..e][k + 1] == LT;
    }
  }

  /** The fence holds its closing tag exactly once, at the end, and its opening tag exactly once, at the start. */
  lemma FenceClosesOnce(tag: Text, content: Text, i: int)
    requires IsTagName(tag)
    ensures var f := Fenced(tag, Clean(NoControl(content)));
            && (OccursAt(f, i, CloseTag(tag)) <==> i == |f| - |CloseTag(tag)|)
            && (OccursAt(f, i, OpenTag(tag)) <==> i == 0)
  {
    hide Clean, NoControl, IsSafe, IsTag, IsTagName;
    var clean := Clean(NoControl(content));
    SanitizedIsSafe(content);
    var f, h := Fenced(tag, clean), |OpenTag(tag)| + 1;
    TagsAreTags(tag);
    FenceEnds(tag, clean);
    if 0 <= i < |f| && f[i] == LT {
      Where(tag, clean, i);
      if h <= i < h + |clean| {
        NotInside(tag, clean, CloseTag(tag), i);
        NotInside(tag, clean, OpenTag(tag), i);
      }
    }
  }

  lemma FenceEnds(tag: Text, clean: Text)
    ensures var f := Fenced(tag, clean);
            f[|f| - |CloseTag(tag)|..] == CloseTag(tag) && f[0..|OpenTag(tag)|] == OpenTag(tag)
  {
  }

  lemma TagsAreTags(tag: Text)
    requires IsTagName(tag)
    ensures IsTag(OpenTag(tag)) && IsTag(CloseTag(tag))
  {
  }

  /** Where angle brackets open in a fence. */
  lemma Where(tag: Text, clean: Text, i: nat)
    requires IsTagName(tag) && i < |Fenced(tag, clean)| && Fenced(tag, clean)[i] == LT
    ensures var h := |OpenTag(tag)| + 1; i == 0 || h <= i < h + |clean| || i == h + |clean| + 1
  {
  }
}
