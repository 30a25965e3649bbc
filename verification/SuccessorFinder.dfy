/** Finds the transcript that took over after `/clear`: a memoised scan that never reads a settled file again,
    proved to answer as a scan from scratch would. Files only grow; a file is named by the session id it
    carries. Ids and records are plain ASCII, so matching the bytes is matching the decoded text. */
module SuccessorFinder {
  import opened Options
  import opened LineTail

  type Id = seq<Byte>

  datatype File = File(birth: int, bytes: seq<Byte>)

  const STAGE1_BYTES := 262144
  const STAGE2_BYTES := 2097152
  const ID_LEN := 36

  function Ascii(s: string): (r: seq<Byte>)
    requires forall i | 0 <= i < |s| :: s[i] as int < 128
    ensures |r| == |s| && forall i | 0 <= i < |s| :: r[i] as int == s[i] as int
  {
    seq(|s|, i requires 0 <= i < |s| => (s[i] as int) as Byte)
  }

  function ClearRecord(): seq<Byte> { Ascii("\"commandRun\":{\"command\":\"clear\"") }

  function ClearTag(): seq<Byte> { Ascii("<command-name>/clear</command-name>") }

  function IdField(): (r: seq<Byte>)
    ensures |r| == 14
  {
    Ascii("\"session_id\":\"")
  }

  const QUOTE: Byte := 0x22

  // ---- what is looked for ----

  predicate At(text: seq<Byte>, i: int, pattern: seq<Byte>) {
    0 <= i && i + |pattern| <= |text| && text[i..i + |pattern|] == pattern
  }

  predicate Contains(text: seq<Byte>, pattern: seq<Byte>) {
    exists i | 0 <= i <= |text| :: At(text, i, pattern)
  }

  predicate HasClear(text: seq<Byte>) { Contains(text, ClearRecord()) || Contains(text, ClearTag()) }

  predicate IdByte(b: Byte) { 0x30 <= b <= 0x39 || 0x61 <= b <= 0x66 || b == 0x2D }

  /** A complete id field starts at `i`. */
  predicate FieldAt(text: seq<Byte>, i: nat) {
    && i + 14 + ID_LEN < |text| && At(text, i, IdField())
    && (forall k | i + 14 <= k < i + 14 + ID_LEN :: IdByte(text[k])) && text[i + 14 + ID_LEN] == QUOTE
  }

  /** The first id other than `own` among the id fields from `i` on, read from left to right without overlap. */
  function Foreign(text: seq<Byte>, own: Id, i: nat): Option<Id>
    decreases |text| - i
  {
    if i >= |text| then None
    else if FieldAt(text, i) then
      var id := text[i + 14..i + 14 + ID_LEN];
      if id != own then Some(id) else Foreign(text, own, i + 14 + ID_LEN + 1)
    else Foreign(text, own, i + 1)
  }

  function Head(bytes: seq<Byte>, n: nat): seq<Byte> { if |bytes| <= n then bytes else bytes[..n] }

  /** The file records a `/clear` in its first window and the first foreign id in its second is the launch id. */
  predicate Qualifies(name: Id, bytes: seq<Byte>, launch: Id) {
    HasClear(Head(bytes, STAGE1_BYTES)) && Foreign(Head(bytes, STAGE2_BYTES), name, 0) == Some(launch)
  }

  /** A scan from scratch: every present file born no earlier than the pinned one that qualifies. */
  predicate IsCandidate(all: map<Id, File>, present: set<Id>, launch: Id, pinned: Id, name: Id) {
    && name in present && name in all && pinned in all && all[name].birth >= all[pinned].birth
    && Qualifies(name, all[name].bytes, launch)
  }

  // ---- the patterns ----

  /** A pattern stands at `i` if it comes after the first `i` bytes. */
  lemma AtIs(text: seq<Byte>, i: nat, pattern: seq<Byte>)
    ensures At(text, i, pattern) <==> i <= |text| && exists rest: seq<Byte> :: text == text[..i] + pattern + rest
  {
    if At(text, i, pattern) { assert text == text[..i] + pattern + text[i + |pattern|..]; }
  }

  /** An id as the pattern writes it. */
  predicate IsId(id: seq<Byte>) {
    |id| == 36 && forall k | 0 <= k < |id| :: id[k] in Ascii("0123456789abcdef-")
  }

  lemma FieldHasId(text: seq<Byte>, i: nat)
    requires FieldAt(text, i)
    ensures IsId(text[i + 14..i + 50])
    ensures At(text, i, Ascii("\"session_id\":\"") + text[i + 14..i + 50] + Ascii("\""))
  {
    hide Ascii;
    PatternBytes();
    var id := text[i + 14..i + 50];
    forall k | 0 <= k < |id|
      ensures id[k] in Ascii("0123456789abcdef-")
    {
      assert IdByte(text[i + 14 + k]);
      IdByteIs(id[k]);
    }
    assert text[i..i + 14] + id + [QUOTE] == text[i..i + 51];
  }

  lemma IdMakesField(text: seq<Byte>, i: nat, id: seq<Byte>)
    requires IsId(id) && At(text, i, Ascii("\"session_id\":\"") + id + Ascii("\""))
    ensures FieldAt(text, i)
  {
    hide Ascii;
    PatternBytes();
    var whole := Ascii("\"session_id\":\"") + id + Ascii("\"");
    assert text[i..i + 51] == whole && text[i..i + 14] == whole[..14];
    forall k | i + 14 <= k < i + 14 + 36
      ensures IdByte(text[k])
    {
      assert text[k] == whole[k - i] && whole[k - i] == id[k - i - 14];
      IdByteIs(text[k]);
    }
    assert text[i + 50] == whole[50];
  }

  /** The id field is the one of the pattern "session_id":"([0-9a-f-]{36})". */
  lemma FieldIs(text: seq<Byte>, i: nat)
    ensures FieldAt(text, i) <==>
              exists id: seq<Byte> :: IsId(id) && At(text, i, Ascii("\"session_id\":\"") + id + Ascii("\""))
  {
    hide Ascii, IsId, At;
    if FieldAt(text, i) { FieldHasId(text, i); }
    if id: seq<Byte> :| IsId(id) && At(text, i, Ascii("\"session_id\":\"") + id + Ascii("\"")) {
      IdMakesField(text, i, id);
    }
  }

  lemma PatternBytes()
    ensures IdField() == Ascii("\"session_id\":\"") && |IdField()| == 14 && ID_LEN == 36 && Ascii("\"") == [QUOTE]
  {
  }

  lemma IdByteIs(b: Byte)
    ensures IdByte(b) <==> b in Ascii("0123456789abcdef-")
  {
    var ids := Ascii("0123456789abcdef-");
    assert ids == [0x30, 0x31, 0x32, 0x33, 0x34, 0x35, 0x36, 0x37, 0x38, 0x39, 0x61, 0x62, 0x63, 0x64, 0x65, 0x66,
                   0x2D];
  }

  /** The fields are looked at from left to right: the first that is not the file's own counts. */
  lemma {:induction false} ForeignFirst(text: seq<Byte>, own: Id, i: nat, j: nat)
    requires i <= j && FieldAt(text, j) && forall k | i <= k < j :: !FieldAt(text, k)
    ensures var id := text[j + 14..j + 14 + 36];
            Foreign(text, own, i) == if id != own then Some(id) else Foreign(text, own, j + 51)
    decreases j - i
  {
    hide FieldAt;
    if i < j {
      assert i < |text| by { FieldInside(text, j); }
      ForeignFirst(text, own, i + 1, j);
    } else {
      FieldInside(text, j);
    }
  }

  lemma FieldInside(text: seq<Byte>, j: nat)
    requires FieldAt(text, j)
    ensures j + 51 <= |text|
  {
  }

  /** Without a field there is none. */
  lemma {:induction false} ForeignNone(text: seq<Byte>, own: Id, i: nat)
    requires forall k | i <= k < |text| :: !FieldAt(text, k)
    ensures Foreign(text, own, i) == None
    decreases |text| - i
  {
    hide FieldAt;
    if i < |text| { ForeignNone(text, own, i + 1); }
  }

  /** A file qualifies exactly if its first 262144 bytes hold the record or the tag of a `/clear`, and the first foreign
      id among its first 2097152 bytes is the launch's. */
  lemma QualifiesExactly(name: Id, bytes: seq<Byte>, launch: Id)
    ensures var head := if |bytes| <= 262144 then bytes else bytes[..262144];
            var more := if |bytes| <= 2097152 then bytes else bytes[..2097152];
            Qualifies(name, bytes, launch) <==>
              && (exists i :: 0 <= i && (At(head, i, Ascii("\"commandRun\":{\"command\":\"clear\""))
                                         || At(head, i, Ascii("<command-name>/clear</command-name>"))))
              && Foreign(more, name, 0) == Some(launch)
  {
    hide Foreign, Ascii;
    var head := Head(bytes, STAGE1_BYTES);
    ClearPatterns();
    if i :| 0 <= i && (At(head, i, ClearRecord()) || At(head, i, ClearTag())) {
      assert i <= |head|;
    }
  }

  lemma ClearPatterns()
    ensures ClearRecord() == Ascii("\"commandRun\":{\"command\":\"clear\"")
    ensures ClearTag() == Ascii("<command-name>/clear</command-name>")
  {
  }

  // ---- appending ----

  lemma ContainsGrows(a: seq<Byte>, b: seq<Byte>, pattern: seq<Byte>)
    requires a <= b && Contains(a, pattern)
    ensures Contains(b, pattern)
  {
    var i :| 0 <= i <= |a| && At(a, i, pattern);
    assert b[i..i + |pattern|] == a[i..i + |pattern|];
    assert At(b, i, pattern);
  }

  lemma FieldGrows(a: seq<Byte>, b: seq<Byte>, i: nat)
    requires a <= b && i + 14 + ID_LEN < |a|
    ensures FieldAt(a, i) <==> FieldAt(b, i)
    ensures a[i + 14..i + 14 + ID_LEN] == b[i + 14..i + 14 + ID_LEN]
  {
    assert a[i..i + 14] == b[i..i + 14];
  }

  lemma {:induction false} NoRoom(a: seq<Byte>, own: Id, i: nat)
    requires i + 14 + ID_LEN >= |a|
    ensures Foreign(a, own, i) == None
    decreases |a| - i
  {
    if i < |a| { NoRoom(a, own, i + 1); }
  }

  /** Once found, the first foreign id never changes as the text grows. */
  lemma {:induction false} ForeignGrows(a: seq<Byte>, b: seq<Byte>, own: Id, i: nat)
    requires a <= b && Foreign(a, own, i).Some?
    ensures Foreign(b, own, i) == Foreign(a, own, i)
    decreases |a| - i
  {
    if i + 14 + ID_LEN >= |a| {
      NoRoom(a, own, i);
    } else {
      FieldGrows(a, b, i);
      hide FieldAt;
      if FieldAt(a, i) {
        if a[i + 14..i + 14 + ID_LEN] == own { ForeignGrows(a, b, own, i + 14 + ID_LEN + 1); }
      } else {
        ForeignGrows(a, b, own, i + 1);
      }
    }
  }

  lemma HeadGrows(a: seq<Byte>, b: seq<Byte>, n: nat)
    requires a <= b
    ensures Head(a, n) <= Head(b, n) && (|a| >= n ==> Head(a, n) == Head(b, n))
  {
  }

  /** It can never qualify: its first window is complete without a `/clear`, or its first foreign id is another,
      or its second window is complete without one. */
  predicate Dead(name: Id, bytes: seq<Byte>, launch: Id) {
    || (|bytes| >= STAGE1_BYTES && !HasClear(Head(bytes, STAGE1_BYTES)))
    || (Foreign(Head(bytes, STAGE2_BYTES), name, 0).Some?
        && Foreign(Head(bytes, STAGE2_BYTES), name, 0) != Some(launch))
    || (|bytes| >= STAGE2_BYTES && Foreign(Head(bytes, STAGE2_BYTES), name, 0) == None)
  }

  /** What was learnt of a file stays true when it grows. */
  lemma Stable(name: Id, a: seq<Byte>, b: seq<Byte>, launch: Id)
    requires a <= b
    ensures HasClear(Head(a, STAGE1_BYTES)) ==> HasClear(Head(b, STAGE1_BYTES))
    ensures Qualifies(name, a, launch) ==> Qualifies(name, b, launch)
    ensures Dead(name, a, launch) ==> Dead(name, b, launch)
  {
    HeadGrows(a, b, STAGE1_BYTES);
    HeadGrows(a, b, STAGE2_BYTES);
    var h, k := Head(a, STAGE1_BYTES), Head(b, STAGE1_BYTES);
    if Contains(h, ClearRecord()) { ContainsGrows(h, k, ClearRecord()); }
    if Contains(h, ClearTag()) { ContainsGrows(h, k, ClearTag()); }
    hide HasClear, Foreign, Head;
    if Foreign(Head(a, STAGE2_BYTES), name, 0).Some? {
      ForeignGrows(Head(a, STAGE2_BYTES), Head(b, STAGE2_BYTES), name, 0);
    }
  }

  lemma DeadNever(name: Id, bytes: seq<Byte>, launch: Id)
    ensures Dead(name, bytes, launch) ==> !Qualifies(name, bytes, launch)
  {
  }

  /** The file named after the launch id never qualifies: its foreign ids are not its own. */
  lemma {:induction false} NotOwn(text: seq<Byte>, own: Id, i: nat)
    ensures Foreign(text, own, i) != Some(own)
    decreases |text| - i
  {
    if i < |text| {
      if FieldAt(text, i) {
        if text[i + 14..i + 14 + ID_LEN] == own { NotOwn(text, own, i + 14 + ID_LEN + 1); }
      } else {
        NotOwn(text, own, i + 1);
      }
    }
  }

  // ---- the caches ----

  datatype Cache = Cache(decided: set<Id>, lastSize: map<Id, nat>, stage1: set<Id>, matches: map<Id, int>)

  /** What the caches say of one file is true; `pinBirth` is the birth of the pinned file. */
  ghost predicate Told(c: Cache, name: Id, f: File, launch: Id, pinBirth: int) {
    && (name in c.decided ==> f.birth < pinBirth || Dead(name, f.bytes, launch))
    && (name in c.lastSize ==> c.lastSize[name] <= |f.bytes| && !Qualifies(name, f.bytes[..c.lastSize[name]], launch))
    && (name in c.stage1 ==> HasClear(Head(f.bytes, STAGE1_BYTES)))
    && (name in c.matches ==> c.matches[name] == f.birth && Qualifies(name, f.bytes, launch))
  }

  ghost predicate CacheOk(c: Cache, all: map<Id, File>, launch: Id, pinBirth: int) {
    && c.decided <= all.Keys && c.lastSize.Keys <= all.Keys && c.stage1 <= all.Keys && c.matches.Keys <= all.Keys
    && forall n | n in all :: Told(c, n, all[n], launch, pinBirth)
  }

  /** The files may only have grown, and new ones may have appeared. */
  ghost predicate Grown(all: map<Id, File>, later: map<Id, File>) {
    forall n | n in all :: n in later && later[n].birth == all[n].birth && all[n].bytes <= later[n].bytes
  }

  lemma TruthGrows(c: Cache, all: map<Id, File>, later: map<Id, File>, launch: Id, pinBirth: int, newer: int)
    requires CacheOk(c, all, launch, pinBirth) && Grown(all, later) && pinBirth <= newer
    ensures CacheOk(c, later, launch, newer)
  {
    forall n | n in later
      ensures Told(c, n, later[n], launch, newer)
    {
      if n in all {
        assert Told(c, n, all[n], launch, pinBirth);
        Stable(n, all[n].bytes, later[n].bytes, launch);
        assert n in c.lastSize ==> all[n].bytes[..c.lastSize[n]] == later[n].bytes[..c.lastSize[n]];
        hide Qualifies, Dead, HasClear;
      }
    }
    hide Told;
  }

  /** The sweep need not look at the file again now: it is a match, or cannot be one as it stands. */
  predicate Known(c: Cache, name: Id, f: File) {
    name in c.decided || name in c.matches || (name in c.lastSize && c.lastSize[name] == |f.bytes|)
  }

  lemma KnownIs(c: Cache, name: Id, f: File, launch: Id, pinBirth: int)
    requires Told(c, name, f, launch, pinBirth) && Known(c, name, f) && f.birth >= pinBirth
    ensures name in c.matches <==> Qualifies(name, f.bytes, launch)
  {
    DeadNever(name, f.bytes, launch);
    assert f.bytes[..|f.bytes|] == f.bytes;
    hide Qualifies, Dead;
  }

  /** One file of the sweep, neither pinned, decided nor matched. */
  method Look(c: Cache, name: Id, f: File, launch: Id, pinBirth: int) returns (r: Cache)
    requires Told(c, name, f, launch, pinBirth) && name !in c.decided && name !in c.matches
    ensures Told(r, name, f, launch, pinBirth) && Known(r, name, f)
    ensures SameElsewhere(c, r, name) && (name in r.matches ==> f.birth >= pinBirth)
  {
    r := c;
    var size := |f.bytes|;
    if f.birth < pinBirth {
      return c.(decided := c.decided + {name});
    }
    if name in c.lastSize && c.lastSize[name] == size { return; }
    assert f.bytes[..size] == f.bytes;
    hide HasClear, Foreign;
    if name !in c.stage1 {
      var head := Head(f.bytes, STAGE1_BYTES);
      if HasClear(head) {
        r := r.(stage1 := r.stage1 + {name});
      } else {
        if size >= STAGE1_BYTES {
          r := r.(decided := r.decided + {name});
        } else {
          r := r.(lastSize := r.lastSize[name := size]);
        }
        return;
      }
    }
    var foreign := Foreign(Head(f.bytes, STAGE2_BYTES), name, 0);
    if foreign.Some? {
      if foreign.value == launch {
        r := r.(matches := r.matches[name := f.birth]);
      } else {
        r := r.(decided := r.decided + {name});
      }
    } else if size >= STAGE2_BYTES {
      r := r.(decided := r.decided + {name});
    } else {
      r := r.(lastSize := r.lastSize[name := size]);
    }
  }

  /** The caches differ at most about `name`. */
  predicate SameElsewhere(c: Cache, r: Cache, name: Id) {
    && c.decided <= r.decided <= c.decided + {name} && c.stage1 <= r.stage1 <= c.stage1 + {name}
    && c.lastSize.Keys <= r.lastSize.Keys <= c.lastSize.Keys + {name}
    && c.matches.Keys <= r.matches.Keys <= c.matches.Keys + {name}
    && (forall n | n in c.lastSize && n != name :: r.lastSize[n] == c.lastSize[n])
    && (forall n | n in c.matches && n != name :: r.matches[n] == c.matches[n])
  }

  lemma Looked(c: Cache, r: Cache, all: map<Id, File>, name: Id, launch: Id, pinBirth: int)
    requires CacheOk(c, all, launch, pinBirth) && name in all && SameElsewhere(c, r, name)
    requires Told(r, name, all[name], launch, pinBirth)
    ensures CacheOk(r, all, launch, pinBirth)
    ensures forall n | n in all && n != name :: Known(c, n, all[n]) <==> Known(r, n, all[n])
  {
    forall n | n in all && n != name
      ensures Told(r, n, all[n], launch, pinBirth)
      ensures Known(c, n, all[n]) <==> Known(r, n, all[n])
    {
      assert Told(c, n, all[n], launch, pinBirth);
      hide Qualifies, Dead, HasClear;
    }
    hide Told;
  }

  const NO_CACHE := Cache({}, map[], {}, map[])

  lemma NothingTold(all: map<Id, File>, launch: Id, pinBirth: int)
    ensures CacheOk(NO_CACHE, all, launch, pinBirth)
  {
  }

  /** Matches whose file is gone are forgotten. */
  function Pruned(c: Cache, present: set<Id>): (r: Cache)
    ensures r.matches.Keys <= present
  {
    c.(matches := map n | n in c.matches && n in present :: c.matches[n])
  }

  lemma PrunedOk(c: Cache, present: set<Id>, all: map<Id, File>, launch: Id, pinBirth: int)
    requires CacheOk(c, all, launch, pinBirth)
    ensures CacheOk(Pruned(c, present), all, launch, pinBirth)
  {
    hide Qualifies, Dead, HasClear;
    forall n | n in all
      ensures Told(Pruned(c, present), n, all[n], launch, pinBirth)
    {
      assert Told(c, n, all[n], launch, pinBirth);
    }
  }

  predicate BornSince(c: Cache, pinBirth: int) { forall n | n in c.matches :: c.matches[n] >= pinBirth }

  /** The sweep over the present files. */
  method Sweep(c: Cache, all: map<Id, File>, present: set<Id>, launch: Id, pinned: Id) returns (r: Cache)
    requires present <= all.Keys && pinned in all && CacheOk(c, all, launch, all[pinned].birth)
             && c.matches.Keys <= present
    ensures CacheOk(r, all, launch, all[pinned].birth) && c.matches.Keys <= r.matches.Keys <= present
    ensures BornSince(c, all[pinned].birth) ==> BornSince(r, all[pinned].birth)
    ensures forall n | n in present && n != pinned :: Known(r, n, all[n])
  {
    hide CacheOk, BornSince, Known;
    r := c;
    var rest := present;
    while rest != {}
      invariant rest <= present && CacheOk(r, all, launch, all[pinned].birth)
                && c.matches.Keys <= r.matches.Keys <= present
      invariant BornSince(c, all[pinned].birth) ==> BornSince(r, all[pinned].birth)
      invariant forall n | n in present && n !in rest && n != pinned :: Known(r, n, all[n])
      decreases |rest|
    {
      var name :| name in rest;
      if name != pinned { r := SweepOne(r, all, name, launch, all[pinned].birth); }
      rest := rest - {name};
    }
  }

  method SweepOne(c: Cache, all: map<Id, File>, name: Id, launch: Id, pinBirth: int) returns (r: Cache)
    requires name in all && CacheOk(c, all, launch, pinBirth)
    ensures CacheOk(r, all, launch, pinBirth) && c.matches.Keys <= r.matches.Keys <= c.matches.Keys + {name}
    ensures BornSince(c, pinBirth) ==> BornSince(r, pinBirth)
    ensures Known(r, name, all[name])
    ensures forall n | n in all && n != name :: Known(c, n, all[n]) <==> Known(r, n, all[n])
  {
    if name in c.decided || name in c.matches { return c; }
    ToldOf(c, all, name, launch, pinBirth);
    hide Told, CacheOk, Known;
    r := Look(c, name, all[name], launch, pinBirth);
    Looked(c, r, all, name, launch, pinBirth);
    MatchBirth(r, all, name, launch, pinBirth);
  }

  lemma ToldOf(c: Cache, all: map<Id, File>, name: Id, launch: Id, pinBirth: int)
    requires CacheOk(c, all, launch, pinBirth) && name in all
    ensures Told(c, name, all[name], launch, pinBirth)
  {
  }

  lemma MatchBirth(c: Cache, all: map<Id, File>, name: Id, launch: Id, pinBirth: int)
    requires CacheOk(c, all, launch, pinBirth) && name in all
    ensures name in c.matches ==> c.matches[name] == all[name].birth
  {
    assert Told(c, name, all[name], launch, pinBirth);
  }

  /** The newest match. */
  method Newest(matches: map<Id, int>) returns (best: Option<Id>)
    ensures best == None <==> matches == map[]
    ensures best.Some? ==> best.value in matches && forall n | n in matches :: matches[n] <= matches[best.value]
  {
    best := None;
    var rest := matches.Keys;
    while rest != {}
      invariant rest <= matches.Keys && (best == None <==> rest == matches.Keys)
      invariant best.Some? ==>
                  best.value in matches && forall n | n in matches && n !in rest :: matches[n] <= matches[best.value]
      decreases |rest|
    {
      var name :| name in rest;
      if best == None || matches[name] > matches[best.value] { best := Some(name); }
      rest := rest - {name};
    }
  }

  ghost predicate DistinctBirths(all: map<Id, File>) {
    forall m, n | m in all && n in all && m != n :: all[m].birth != all[n].birth
  }

  /** After a sweep the candidates are exactly the matches born no earlier than the pinned file. */
  lemma MatchesAreCandidates(c: Cache, all: map<Id, File>, present: set<Id>, launch: Id, pinned: Id, n: Id)
    requires pinned in present && present <= all.Keys && CacheOk(c, all, launch, all[pinned].birth)
             && c.matches.Keys <= present
    requires forall k | k in present && k != pinned :: Known(c, k, all[k])
    requires pinned == launch || pinned in c.matches
    ensures IsCandidate(all, present, launch, pinned, n) <==> n in c.matches && c.matches[n] >= all[pinned].birth
  {
    if n in present {
      assert Told(c, n, all[n], launch, all[pinned].birth);
      if n == launch { NotOwn(Head(all[n].bytes, STAGE2_BYTES), launch, 0); }
      if n != pinned && all[n].birth >= all[pinned].birth {
        KnownIs(c, n, all[n], launch, all[pinned].birth);
      }
    }
  }

  /** The answer of a scan from scratch: the newest-born candidate, if any. */
  ghost predicate Answer(all: map<Id, File>, present: set<Id>, launch: Id, pinned: Id, r: Option<Id>) {
    && (r == None ==> forall n :: !IsCandidate(all, present, launch, pinned, n))
    && (r.Some? ==> IsCandidate(all, present, launch, pinned, r.value)
                    && forall n | n != r.value && IsCandidate(all, present, launch, pinned, n) ::
                         all[n].birth < all[r.value].birth)
  }

  lemma NewestAnswers(c: Cache, all: map<Id, File>, present: set<Id>, launch: Id, pinned: Id, best: Option<Id>)
    requires pinned in present && present <= all.Keys && CacheOk(c, all, launch, all[pinned].birth)
             && c.matches.Keys <= present
    requires forall k | k in present && k != pinned :: Known(c, k, all[k])
    requires if pinned == launch then BornSince(c, all[pinned].birth) else pinned in c.matches
    requires best == None <==> c.matches == map[]
    requires best.Some? ==>
               best.value in c.matches && forall n | n in c.matches :: c.matches[n] <= c.matches[best.value]
    requires DistinctBirths(all)
    ensures Answer(all, present, launch, pinned, best)
    ensures best.Some? ==> all[best.value].birth >= all[pinned].birth && best.value != launch
  {
    if best == Some(launch) && launch in all { NotOwn(Head(all[launch].bytes, STAGE2_BYTES), launch, 0); }
    forall n
      ensures IsCandidate(all, present, launch, pinned, n) <==> n in c.matches && c.matches[n] >= all[pinned].birth
      ensures n in c.matches ==> c.matches[n] == all[n].birth
    {
      MatchesAreCandidates(c, all, present, launch, pinned, n);
      if n in all { MatchBirth(c, all, n, launch, all[pinned].birth); }
    }
    hide CacheOk, IsCandidate, Known;
  }

  /** What holds between calls: nothing is remembered before the first sweep for a launch id; later the caches
      are true of the files, and the pinned file is the launch's own or a match. */
  ghost predicate Remembers(c: Cache, all: map<Id, File>, launch: Id, pin: Option<Id>, result: Option<Id>) {
    if pin == None then c == NO_CACHE && result == None
    else
      && pin.value in all && CacheOk(c, all, launch, all[pin.value].birth)
      && (if pin.value == launch then BornSince(c, all[pin.value].birth) else pin.value in c.matches)
      && (result.Some? ==>
            result.value in c.matches && result.value in all && all[result.value].birth >= all[pin.value].birth
            && result.value != launch)
  }

  lemma StillRemembers(c: Cache, all: map<Id, File>, files: map<Id, File>, launch: Id, pin: Option<Id>,
                       result: Option<Id>)
    requires Remembers(c, all, launch, pin, result) && Grown(all, files)
    ensures Remembers(c, files, launch, pin, None)
  {
    if pin.Some? { TruthGrows(c, all, files, launch, all[pin.value].birth, all[pin.value].birth); }
    hide CacheOk, BornSince;
  }

  lemma CatchUp(c: Cache, all: map<Id, File>, files: map<Id, File>, present: set<Id>, launch: Id, pin: Option<Id>,
                result: Option<Id>, pinned: Id)
    requires Remembers(c, all, launch, pin, result) && Grown(all, files) && pinned in present && pinned in files
    requires if pin == None then pinned == launch else pinned == pin.value || Some(pinned) == result
    ensures CacheOk(Pruned(c, present), files, launch, files[pinned].birth)
    ensures if pinned == launch then BornSince(Pruned(c, present), files[pinned].birth)
            else pinned in Pruned(c, present).matches
  {
    if pin.Some? {
      TruthGrows(c, all, files, launch, all[pin.value].birth, files[pinned].birth);
    } else {
      NothingTold(files, launch, files[pinned].birth);
    }
    hide CacheOk, BornSince;
    PrunedOk(c, present, files, launch, files[pinned].birth);
    PrunedBorn(c, present, files[pinned].birth);
  }

  lemma PrunedBorn(c: Cache, present: set<Id>, pinBirth: int)
    ensures BornSince(c, pinBirth) ==> BornSince(Pruned(c, present), pinBirth)
    ensures BornSince(NO_CACHE, pinBirth)
  {
  }

  class SuccessorFinder {
    var lastLaunch: Option<Id>
    var cache: Cache
    ghost var all: map<Id, File>    // every file there has been
    ghost var pin: Option<Id>       // the pinned file of the last sweep since this launch id was first seen
    ghost var result: Option<Id>    // what the last call returned

    ghost predicate Valid()
      reads this
    {
      if lastLaunch == None then cache == NO_CACHE && pin == None && result == None
      else Remembers(cache, all, lastLaunch.value, pin, result)
    }

    constructor ()
      ensures Valid() && lastLaunch == None && all == map[]
    {
      lastLaunch, cache, all, pin, result := None, NO_CACHE, map[], None, None;
    }

    /** What a caller may pin: at first the launch's own file, then the last pin or the last answer. */
    ghost predicate MayPin(launch: Id, pinned: Id)
      reads this
    {
      if lastLaunch != Some(launch) || pin == None then pinned == launch
      else pinned == pin.value || Some(pinned) == result
    }

    /** `files` are the files by now, `present` those listed; the pinned file can be looked at if it is listed. */
    method Find(files: map<Id, File>, present: set<Id>, launch: Id, pinned: Id) returns (r: Option<Id>)
      requires Valid() && Grown(all, files) && present <= files.Keys && DistinctBirths(files) && MayPin(launch, pinned)
      modifies this
      ensures Valid() && lastLaunch == Some(launch) && all == files && result == r
      ensures if pinned in present then Answer(files, present, launch, pinned, r) && pin == Some(pinned) else r == None
    {
      hide CacheOk, BornSince, DistinctBirths, Answer, Known, Grown, Pruned;
      if lastLaunch != Some(launch) {
        lastLaunch, cache := Some(launch), NO_CACHE;
        pin, result := None, None;
      }
      if pinned !in present {
        StillRemembers(cache, all, files, launch, pin, result);
        all, result := files, None;
        return None;
      }
      CatchUp(cache, all, files, present, launch, pin, result, pinned);
      cache := Sweep(Pruned(cache, present), files, present, launch, pinned);
      r := Newest(cache.matches);
      NewestAnswers(cache, files, present, launch, pinned, r);
      all, pin, result := files, Some(pinned), r;
    }
  }
}
