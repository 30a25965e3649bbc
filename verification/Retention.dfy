/** Hook events from spool file to row to daily rollup: where every event is counted at any moment, and exactly how
    much the two interruptions that break the count add to it. */
module Retention {
  import opened Options

  datatype EventName = PreToolUse | PostToolUse | Notification | Stop

  /** What is counted: the event and its tool, if any (never an empty name). */
  datatype Kind = Kind(name: EventName, tool: Option<nat>)

  /** A row of `events`. */
  datatype Event = Event(kind: Kind, at: int)

  datatype Key = Key(day: int, kind: Kind)

  /** What a spooled line decodes to; a line that can never be ingested yields nothing. */
  type Decoder = nat -> Option<Kind>

  const DAY_MS := 86400000
  const RETENTION_WINDOW_MS := 30 * DAY_MS

  function KeyOf(e: Event): Key { Key(e.at / DAY_MS, e.kind) }

  // ---- counting ----

  /** Events of the kind among spooled lines. */
  function CountLines(lines: seq<nat>, k: Kind, decode: Decoder): nat {
    if lines == [] then 0
    else CountLines(lines[..|lines| - 1], k, decode) + if decode(lines[|lines| - 1]) == Some(k) then 1 else 0
  }

  function CountRows(rows: seq<Event>, key: Key): nat {
    if rows == [] then 0 else CountRows(rows[..|rows| - 1], key) + if KeyOf(rows[|rows| - 1]) == key then 1 else 0
  }

  function CountKind(rows: seq<Event>, k: Kind): nat {
    if rows == [] then 0 else CountKind(rows[..|rows| - 1], k) + if rows[|rows| - 1].kind == k then 1 else 0
  }

  function RolledUp(rollups: map<Key, nat>, key: Key): nat { if key in rollups then rollups[key] else 0 }

  lemma {:induction false} LinesConcat(a: seq<nat>, b: seq<nat>, k: Kind, decode: Decoder)
    ensures CountLines(a + b, k, decode) == CountLines(a, k, decode) + CountLines(b, k, decode)
  {
    if b == [] {
      assert a + b == a;
    } else {
      assert (a + b)[..|a + b| - 1] == a + b[..|b| - 1];
      LinesConcat(a, b[..|b| - 1], k, decode);
    }
  }

  lemma {:induction false} RowsConcat(a: seq<Event>, b: seq<Event>, key: Key)
    ensures CountRows(a + b, key) == CountRows(a, key) + CountRows(b, key)
  {
    if b == [] {
      assert a + b == a;
    } else {
      assert (a + b)[..|a + b| - 1] == a + b[..|b| - 1];
      RowsConcat(a, b[..|b| - 1], key);
    }
  }

  lemma {:induction false} KindsConcat(a: seq<Event>, b: seq<Event>, k: Kind)
    ensures CountKind(a + b, k) == CountKind(a, k) + CountKind(b, k)
  {
    if b == [] {
      assert a + b == a;
    } else {
      assert (a + b)[..|a + b| - 1] == a + b[..|b| - 1];
      KindsConcat(a, b[..|b| - 1], k);
    }
  }

  lemma RowSnoc(rows: seq<Event>, e: Event, key: Key)
    ensures CountRows(rows + [e], key) == CountRows(rows, key) + if KeyOf(e) == key then 1 else 0
  {
    assert (rows + [e])[..|rows|] == rows;
  }

  lemma KindSnoc(rows: seq<Event>, e: Event, k: Kind)
    ensures CountKind(rows + [e], k) == CountKind(rows, k) + if e.kind == k then 1 else 0
  {
    assert (rows + [e])[..|rows|] == rows;
  }

  // ---- the spool ----

  datatype File = File(name: nat, lines: seq<nat>)

  function AllLines(spool: seq<File>): seq<nat> {
    if spool == [] then [] else AllLines(spool[..|spool| - 1]) + spool[|spool| - 1].lines
  }

  lemma {:induction false} AllLinesConcat(a: seq<File>, b: seq<File>)
    ensures AllLines(a + b) == AllLines(a) + AllLines(b)
  {
    if b == [] {
      assert a + b == a;
    } else {
      assert (a + b)[..|a + b| - 1] == a + b[..|b| - 1];
      AllLinesConcat(a, b[..|b| - 1]);
    }
  }

  /** The events of a file's lines, all received now. */
  function Decoded(lines: seq<nat>, decode: Decoder, now: int): seq<Event> {
    if lines == [] then []
    else
      var n := |lines| - 1;
      var before := Decoded(lines[..n], decode, now);
      if decode(lines[n]).Some? then before + [Event(decode(lines[n]).value, now)] else before
  }

  lemma {:induction false} DecodedCounts(lines: seq<nat>, decode: Decoder, now: int, k: Kind)
    ensures CountKind(Decoded(lines, decode, now), k) == CountLines(lines, k, decode)
  {
    if lines != [] {
      var n := |lines| - 1;
      DecodedCounts(lines[..n], decode, now, k);
      if decode(lines[n]).Some? { KindSnoc(Decoded(lines[..n], decode, now), Event(decode(lines[n]).value, now), k); }
    }
  }

  /** No line holds an event. */
  predicate Plain(lines: seq<nat>, decode: Decoder) {
    lines == [] || (decode(lines[|lines| - 1]) == None && Plain(lines[..|lines| - 1], decode))
  }

  lemma {:induction false} PlainBoth(a: seq<nat>, b: seq<nat>, decode: Decoder)
    ensures Plain(a + b, decode) <==> Plain(a, decode) && Plain(b, decode)
  {
    if b == [] {
      assert a + b == a;
    } else {
      assert (a + b)[..|a + b| - 1] == a + b[..|b| - 1];
      PlainBoth(a, b[..|b| - 1], decode);
    }
  }

  lemma {:induction false} DecodedNone(lines: seq<nat>, decode: Decoder, now: int)
    ensures Decoded(lines, decode, now) == [] <==> Plain(lines, decode)
  {
    if lines != [] { DecodedNone(lines[..|lines| - 1], decode, now); }
  }

  lemma {:induction false} EventCounted(lines: seq<nat>, decode: Decoder) returns (k: Kind)
    requires !Plain(lines, decode)
    ensures CountLines(lines, k, decode) > 0
  {
    var n := |lines| - 1;
    if decode(lines[n]).Some? { k := decode(lines[n]).value; } else { k := EventCounted(lines[..n], decode); }
  }

  lemma {:induction false} PlainUncounted(lines: seq<nat>, k: Kind, decode: Decoder)
    requires Plain(lines, decode)
    ensures CountLines(lines, k, decode) == 0
  {
    if lines != [] { PlainUncounted(lines[..|lines| - 1], k, decode); }
  }

  /** Every well-formed event ever spooled is either still in its file or was ingested, once. */
  ghost predicate EachOnce(spool: seq<File>, ingested: seq<Event>, produced: seq<nat>, decode: Decoder) {
    forall k: Kind :: CountLines(AllLines(spool), k, decode) + CountKind(ingested, k) == CountLines(produced, k, decode)
  }

  /** Every ingested event is either one row or counted once in its rollup. */
  ghost predicate AllCounted(rows: seq<Event>, rollups: map<Key, nat>, ingested: seq<Event>) {
    forall key: Key :: CountRows(rows, key) + RolledUp(rollups, key) == CountRows(ingested, key)
  }

  /** How one file fared: it could not be read, the database refused the write, or it was committed and its
      deletion worked or not. */
  datatype Fate = Unreadable | Refused | Deleted | DeletionFailed

  /** One file of a pass; `before` and `after` are the files around it. */
  lemma FileTailed(before: seq<File>, f: File, after: seq<File>, ingested: seq<Event>, produced: seq<nat>,
                   decode: Decoder, now: int)
    requires EachOnce(before + [f] + after, ingested, produced, decode)
    ensures EachOnce(before + after, ingested + Decoded(f.lines, decode, now), produced, decode)
  {
    forall k: Kind
      ensures CountLines(AllLines(before + after), k, decode) + CountKind(ingested + Decoded(f.lines, decode, now), k)
              == CountLines(produced, k, decode)
    {
      AllLinesConcat(before + [f], after);
      AllLinesConcat(before, [f]);
      AllLinesConcat(before, after);
      assert AllLines([f]) == f.lines by { assert [f][..0] == []; assert [] + f.lines == f.lines; }
      LinesConcat(AllLines(before) + f.lines, AllLines(after), k, decode);
      LinesConcat(AllLines(before), f.lines, k, decode);
      LinesConcat(AllLines(before), AllLines(after), k, decode);
      KindsConcat(ingested, Decoded(f.lines, decode, now), k);
      DecodedCounts(f.lines, decode, now, k);
    }
  }

  /** A file that stays behind after its events were committed is spooled once more, in effect. */
  lemma CountedAgain(spool: seq<File>, f: File, ingested: seq<Event>, produced: seq<nat>, decode: Decoder, now: int)
    requires EachOnce(spool, ingested, produced, decode)
    ensures EachOnce(spool, ingested + Decoded(f.lines, decode, now), produced + f.lines, decode)
  {
    forall k: Kind
      ensures CountLines(AllLines(spool), k, decode) + CountKind(ingested + Decoded(f.lines, decode, now), k)
              == CountLines(produced + f.lines, k, decode)
    {
      LinesConcat(produced, f.lines, k, decode);
      KindsConcat(ingested, Decoded(f.lines, decode, now), k);
      DecodedCounts(f.lines, decode, now, k);
    }
  }

  /** Lines counted again leave the count of what was produced right exactly if they hold no event. */
  lemma EachOnceExactly(spool: seq<File>, ingested: seq<Event>, produced: seq<nat>, again: seq<nat>, decode: Decoder)
    requires EachOnce(spool, ingested, produced + again, decode)
    ensures EachOnce(spool, ingested, produced, decode) <==> Plain(again, decode)
  {
    forall k: Kind
      ensures CountLines(produced + again, k, decode) == CountLines(produced, k, decode) + CountLines(again, k, decode)
    {
      LinesConcat(produced, again, k, decode);
    }
    if Plain(again, decode) {
      forall k: Kind ensures CountLines(again, k, decode) == 0 { PlainUncounted(again, k, decode); }
    } else {
      var k := EventCounted(again, decode);
      assert CountLines(produced + again, k, decode) > CountLines(produced, k, decode);
    }
  }

  /** Events counted twice leave the count of what was ingested right exactly if there are none. */
  lemma AllCountedExactly(rows: seq<Event>, rollups: map<Key, nat>, ingested: seq<Event>, twice: seq<Event>)
    requires AllCounted(rows, rollups, ingested + twice)
    ensures AllCounted(rows, rollups, ingested) <==> twice == []
  {
    if twice == [] {
      assert ingested + twice == ingested;
    } else {
      var key := KeyOf(twice[|twice| - 1]);
      RowsConcat(ingested, twice, key);
      assert CountRows(rows, key) + RolledUp(rollups, key) == CountRows(ingested + twice, key);
    }
  }

  // ---- one pass over the spool ----

  /** The events are written, or there are none to write. */
  predicate Commits(f: File, fate: Fate, decode: Decoder, now: int) {
    fate == Deleted || fate == DeletionFailed || (fate == Refused && Decoded(f.lines, decode, now) == [])
  }

  /** The file is kept because its events could not be written. */
  predicate Refuses(f: File, fate: Fate, decode: Decoder, now: int) {
    fate == Refused && Decoded(f.lines, decode, now) != []
  }

  /** What the pass over the first `n` files commits, which of them it leaves, and whose lines it will see again. */
  function Taken(spool: seq<File>, fates: seq<Fate>, n: nat, decode: Decoder, now: int): seq<Event>
    requires n <= |spool| == |fates|
  {
    if n == 0 then []
    else
      var before := Taken(spool, fates, n - 1, decode, now);
      if Commits(spool[n - 1], fates[n - 1], decode, now) then before + Decoded(spool[n - 1].lines, decode, now)
      else before
  }

  function Left(spool: seq<File>, fates: seq<Fate>, n: nat, decode: Decoder, now: int): seq<File>
    requires n <= |spool| == |fates|
  {
    if n == 0 then []
    else
      var before := Left(spool, fates, n - 1, decode, now);
      if fates[n - 1] == DeletionFailed || !Commits(spool[n - 1], fates[n - 1], decode, now)
      then before + [spool[n - 1]] else before
  }

  function Again(spool: seq<File>, fates: seq<Fate>, n: nat): seq<nat>
    requires n <= |spool| == |fates|
  {
    if n == 0 then []
    else
      var before := Again(spool, fates, n - 1);
      if fates[n - 1] == DeletionFailed then before + spool[n - 1].lines else before
  }

  /** Nothing with an event in it is seen again exactly if every file that could not be deleted is without events. */
  lemma {:induction false} AgainPlain(spool: seq<File>, fates: seq<Fate>, n: nat, decode: Decoder, now: int)
    requires n <= |spool| == |fates|
    ensures Plain(Again(spool, fates, n), decode)
            <==> forall i | 0 <= i < n && fates[i] == DeletionFailed :: Decoded(spool[i].lines, decode, now) == []
  {
    hide Decoded, Plain;
    if n > 0 {
      AgainPlain(spool, fates, n - 1, decode, now);
      DecodedNone(spool[n - 1].lines, decode, now);
      PlainBoth(Again(spool, fates, n - 1), spool[n - 1].lines, decode);
    } else {
      NoLinesPlain(decode);
    }
  }

  lemma NoLinesPlain(decode: Decoder)
    ensures Plain([], decode)
  {
  }

  lemma RowsIngested(rows: seq<Event>, rollups: map<Key, nat>, ingested: seq<Event>, twice: seq<Event>, d: seq<Event>)
    requires AllCounted(rows, rollups, ingested + twice)
    ensures AllCounted(rows + d, rollups, ingested + d + twice)
  {
    forall key: Key
      ensures CountRows(rows + d, key) + RolledUp(rollups, key) == CountRows(ingested + d + twice, key)
    {
      RowsConcat(rows, d, key);
      RowsConcat(ingested, twice, key);
      RowsConcat(ingested + d, twice, key);
      RowsConcat(ingested, d, key);
    }
  }

  method DecodeLines(lines: seq<nat>, decode: Decoder, now: int) returns (events: seq<Event>)
    ensures events == Decoded(lines, decode, now)
  {
    events := [];
    var i := 0;
    while i < |lines|
      invariant 0 <= i <= |lines| && events == Decoded(lines[..i], decode, now)
    {
      assert lines[..i + 1][..i] == lines[..i];
      var kind := decode(lines[i]);
      if kind.Some? { events := events + [Event(kind.value, now)]; }
      i := i + 1;
    }
    assert lines[..|lines|] == lines;
  }

  /** The files kept so far and those to come. */
  function Waiting(kept: seq<File>, spool: seq<File>, i: nat): seq<File>
    requires i <= |spool|
  {
    kept + spool[i..]
  }

  lemma Regroup(kept: seq<File>, spool: seq<File>, i: nat)
    requires i < |spool|
    ensures Waiting(kept, spool, i) == Waiting(kept + [spool[i]], spool, i + 1) == kept + [spool[i]] + spool[i + 1..]
    ensures Waiting(kept, spool, i + 1) == kept + spool[i + 1..]
  {
  }

  /** The files of the pass that are done, and those kept because the database refused their events. */
  ghost function Processed(spool: seq<File>, fates: seq<Fate>, n: nat, decode: Decoder, now: int): set<nat>
    requires n <= |spool| == |fates|
  {
    set i: nat | i < n && Commits(spool[i], fates[i], decode, now)
  }

  ghost function Retained(spool: seq<File>, fates: seq<Fate>, n: nat, decode: Decoder, now: int): set<nat>
    requires n <= |spool| == |fates|
  {
    set i: nat | i < n && Refuses(spool[i], fates[i], decode, now)
  }

  lemma NoFiles(spool: seq<File>, fates: seq<Fate>, decode: Decoder, now: int)
    requires |spool| == |fates|
    ensures Processed(spool, fates, 0, decode, now) == {} && Retained(spool, fates, 0, decode, now) == {}
  {
  }

  lemma OneMoreDone(spool: seq<File>, fates: seq<Fate>, n: nat, decode: Decoder, now: int)
    requires n < |spool| == |fates|
    ensures |Processed(spool, fates, n + 1, decode, now)| ==
            |Processed(spool, fates, n, decode, now)| + if Commits(spool[n], fates[n], decode, now) then 1 else 0
  {
    hide Commits;
    var before, after := Processed(spool, fates, n, decode, now), Processed(spool, fates, n + 1, decode, now);
    if Commits(spool[n], fates[n], decode, now) {
      assert n in after && after - {n} == before;
    } else {
      assert after == before;
    }
  }

  lemma OneMoreLeft(spool: seq<File>, fates: seq<Fate>, n: nat, decode: Decoder, now: int)
    requires n < |spool| == |fates|
    ensures |Retained(spool, fates, n + 1, decode, now)| ==
            |Retained(spool, fates, n, decode, now)| + if Refuses(spool[n], fates[n], decode, now) then 1 else 0
  {
    hide Refuses;
    var before, after := Retained(spool, fates, n, decode, now), Retained(spool, fates, n + 1, decode, now);
    if Refuses(spool[n], fates[n], decode, now) {
      assert n in after && after - {n} == before;
    } else {
      assert after == before;
    }
  }

  /** Where a pass stands after `n` files: what it kept, and what it added to the rows, the events and the lines to be
      seen again. */
  ghost predicate Passed(spool: seq<File>, fates: seq<Fate>, n: nat, decode: Decoder, now: int, kept: seq<File>,
                         before: seq<Event>, rows: seq<Event>, was: seq<Event>, ingested: seq<Event>, seen: seq<nat>,
                         again: seq<nat>, count: nat)
  {
    && n <= |spool| == |fates|
    && kept == Left(spool, fates, n, decode, now) && again == seen + Again(spool, fates, n)
    && rows == before + Taken(spool, fates, n, decode, now) && ingested == was + Taken(spool, fates, n, decode, now)
    && count == |Taken(spool, fates, n, decode, now)|
  }

  lemma PassedOne(spool: seq<File>, fates: seq<Fate>, n: nat, decode: Decoder, now: int, kept: seq<File>,
                  before: seq<Event>, rows: seq<Event>, rows': seq<Event>, was: seq<Event>, ingested: seq<Event>,
                  ingested': seq<Event>, seen: seq<nat>, again: seq<nat>, again': seq<nat>, count: nat, more: nat)
    requires n < |spool| && Passed(spool, fates, n, decode, now, kept, before, rows, was, ingested, seen, again, count)
    requires var events := Decoded(spool[n].lines, decode, now);
             if Commits(spool[n], fates[n], decode, now)
             then rows' == rows + events && ingested' == ingested + events
                  && more == |events|
             else rows' == rows && ingested' == ingested && more == 0
    requires again' == if fates[n] == DeletionFailed then again + spool[n].lines else again
    ensures Passed(spool, fates, n + 1, decode, now,
                   if fates[n] == DeletionFailed || !Commits(spool[n], fates[n], decode, now) then kept + [spool[n]]
                   else kept,
                   before, rows', was, ingested', seen, again', count + more)
  {
    hide Commits, Decoded;
    var taken, events := Taken(spool, fates, n, decode, now), Decoded(spool[n].lines, decode, now);
    Associate(before, taken, events);
    Associate(was, taken, events);
    Associate(seen, Again(spool, fates, n), spool[n].lines);
  }

  lemma Associate<T>(a: seq<T>, b: seq<T>, c: seq<T>)
    ensures a + b + c == a + (b + c)
  {
  }

  // ---- the rollup ----

  function Stale(rows: seq<Event>, cutoff: int): seq<Event> {
    if rows == [] then []
    else
      var before, row := Stale(rows[..|rows| - 1], cutoff), rows[|rows| - 1];
      if row.at < cutoff then before + [row] else before
  }

  function Kept(rows: seq<Event>, cutoff: int): seq<Event> {
    if rows == [] then []
    else
      var before, row := Kept(rows[..|rows| - 1], cutoff), rows[|rows| - 1];
      if row.at >= cutoff then before + [row] else before
  }

  lemma {:induction false} StaleAndKept(rows: seq<Event>, cutoff: int, key: Key)
    ensures CountRows(rows, key) == CountRows(Stale(rows, cutoff), key) + CountRows(Kept(rows, cutoff), key)
  {
    hide CountRows, KeyOf;
    if rows == [] {
      NoRows(key);
    } else {
      var n := |rows| - 1;
      StaleAndKept(rows[..n], cutoff, key);
      assert rows == rows[..n] + [rows[n]];
      RowSnoc(rows[..n], rows[n], key);
      RowSnoc(Stale(rows[..n], cutoff), rows[n], key);
      RowSnoc(Kept(rows[..n], cutoff), rows[n], key);
    }
  }

  lemma NoRows(key: Key)
    ensures CountRows([], key) == 0
  {
  }

  /** The groups of some rows, in order of first appearance. */
  function GroupKeys(rows: seq<Event>): seq<Key> {
    if rows == [] then []
    else
      var keys, key := GroupKeys(rows[..|rows| - 1]), KeyOf(rows[|rows| - 1]);
      if key in keys then keys else keys + [key]
  }

  /** The rows in some groups. */
  function Among(rows: seq<Event>, keys: seq<Key>): seq<Event> {
    if rows == [] then []
    else
      var before, row := Among(rows[..|rows| - 1], keys), rows[|rows| - 1];
      if KeyOf(row) in keys then before + [row] else before
  }

  lemma {:induction false} AmongCounts(rows: seq<Event>, keys: seq<Key>, key: Key)
    ensures CountRows(Among(rows, keys), key) == if key in keys then CountRows(rows, key) else 0
  {
    if rows != [] {
      var n := |rows| - 1;
      AmongCounts(rows[..n], keys, key);
      if KeyOf(rows[n]) in keys { RowSnoc(Among(rows[..n], keys), rows[n], key); }
    }
  }

  /** The groups' sizes. */
  ghost predicate Grouped(rows: seq<Event>, keys: seq<Key>, counts: map<Key, nat>) {
    && keys == GroupKeys(rows)
    && (forall i, j | 0 <= i < j < |keys| :: keys[i] != keys[j])
    && (forall key: Key :: key in keys <==> key in counts)
    && forall key: Key :: CountRows(rows, key) == RolledUp(counts, key)
  }

  lemma GroupedOne(rows: seq<Event>, keys: seq<Key>, counts: map<Key, nat>, e: Event)
    requires Grouped(rows, keys, counts)
    ensures Grouped(rows + [e], if KeyOf(e) in counts then keys else keys + [KeyOf(e)],
                    counts[KeyOf(e) := RolledUp(counts, KeyOf(e)) + 1])
  {
    assert (rows + [e])[..|rows|] == rows;
    forall key: Key
      ensures CountRows(rows + [e], key) == CountRows(rows, key) + if KeyOf(e) == key then 1 else 0
    {
      RowSnoc(rows, e, key);
    }
    hide CountRows, KeyOf;
  }

  lemma NoneGrouped()
    ensures Grouped([], [], map[])
  {
  }

  method Group(rows: seq<Event>) returns (keys: seq<Key>, counts: map<Key, nat>)
    ensures Grouped(rows, keys, counts)
  {
    hide Grouped, CountRows, KeyOf, GroupKeys, RolledUp;
    keys, counts := [], map[];
    NoneGrouped();
    var i := 0;
    while i < |rows|
      invariant 0 <= i <= |rows| && Grouped(rows[..i], keys, counts)
    {
      GroupedOne(rows[..i], keys, counts, rows[i]);
      assert rows[..i] + [rows[i]] == rows[..i + 1];
      var key := KeyOf(rows[i]);
      if key !in counts { keys := keys + [key]; }
      counts := counts[key := RolledUp(counts, key) + 1];
      i := i + 1;
    }
    assert rows[..|rows|] == rows;
  }

  /** The rollups after the first `n` groups were added. */
  ghost predicate Added(before: map<Key, nat>, after: map<Key, nat>, keys: seq<Key>, counts: map<Key, nat>, n: nat) {
    n <= |keys|
    && forall key: Key :: RolledUp(after, key) == RolledUp(before, key) + if key in keys[..n] then RolledUp(counts, key)
                                                                          else 0
  }

  lemma AddedOne(before: map<Key, nat>, after: map<Key, nat>, keys: seq<Key>, counts: map<Key, nat>, n: nat)
    requires Added(before, after, keys, counts, n) && n < |keys| && keys[n] in counts
    requires forall i, j | 0 <= i < j < |keys| :: keys[i] != keys[j]
    ensures Added(before, after[keys[n] := RolledUp(after, keys[n]) + counts[keys[n]]], keys, counts, n + 1)
  {
    assert keys[..n + 1] == keys[..n] + [keys[n]];
  }

  /** What an interrupted compaction counts twice: the stale rows of the groups added before it died. */
  function Doubled(rows: seq<Event>, cutoff: int, dies: Option<nat>): seq<Event> {
    var stale := Stale(rows, cutoff);
    if dies.Some? && dies.value <= |GroupKeys(stale)| then Among(stale, GroupKeys(stale)[..dies.value]) else []
  }

  /** Rolls up and deletes the rows before `cutoff`. The steps are not one transaction: `dies` is how many groups
      are added before the process dies, if it does. It finishes exactly if it does not die by then. */
  method RollUp(rows: seq<Event>, rollups: map<Key, nat>, cutoff: int, dies: Option<nat>, ghost ingested: seq<Event>)
    returns (rows': seq<Event>, rollups': map<Key, nat>, finished: bool)
    requires AllCounted(rows, rollups, ingested)
    ensures finished <==> dies == None || dies.value > |GroupKeys(Stale(rows, cutoff))|
    ensures rows' == if finished then Kept(rows, cutoff) else rows
    ensures AllCounted(rows', rollups', ingested + Doubled(rows, cutoff, dies))
  {
    hide AllCounted, Grouped, Added, Stale, Kept, CountRows, KeyOf, GroupKeys, Doubled;
    var stale := Stale(rows, cutoff);
    var keys, counts := Group(stale);
    rows', rollups', finished := rows, rollups, false;
    NoneAdded(rollups, keys, counts);
    GroupedKeys(stale, keys, counts);
    var i := 0;
    while i < |keys|
      invariant 0 <= i <= |keys| && Added(rollups, rollups', keys, counts, i) && rows' == rows
      invariant dies.Some? ==> i <= dies.value
    {
      if dies == Some(i) {
        DiedAfter(rows, rollups, rollups', ingested, cutoff, keys, counts, i);
        return;
      }
      AddedOne(rollups, rollups', keys, counts, i);
      rollups' := rollups'[keys[i] := RolledUp(rollups', keys[i]) + counts[keys[i]]];
      i := i + 1;
    }
    if dies == Some(|keys|) {
      DiedAfter(rows, rollups, rollups', ingested, cutoff, keys, counts, i);
      return;
    }
    RolledUpAll(rows, rollups, rollups', ingested, cutoff, keys, counts, dies);
    rows' := Kept(rows, cutoff);
    finished := true;
  }

  lemma NoneAdded(rollups: map<Key, nat>, keys: seq<Key>, counts: map<Key, nat>)
    ensures Added(rollups, rollups, keys, counts, 0)
  {
    assert keys[..0] == [];
  }

  lemma GroupedKeys(rows: seq<Event>, keys: seq<Key>, counts: map<Key, nat>)
    requires Grouped(rows, keys, counts)
    ensures keys == GroupKeys(rows)
    ensures forall i | 0 <= i < |keys| :: keys[i] in counts
    ensures forall i, j | 0 <= i < j < |keys| :: keys[i] != keys[j]
  {
  }

  lemma RolledUpAll(rows: seq<Event>, before: map<Key, nat>, after: map<Key, nat>, ingested: seq<Event>, cutoff: int,
                    keys: seq<Key>, counts: map<Key, nat>, dies: Option<nat>)
    requires AllCounted(rows, before, ingested) && Grouped(Stale(rows, cutoff), keys, counts)
             && Added(before, after, keys, counts, |keys|)
    requires dies.Some? ==> dies.value > |keys|
    ensures AllCounted(Kept(rows, cutoff), after, ingested + Doubled(rows, cutoff, dies))
  {
    assert keys[..|keys|] == keys && ingested + [] == ingested;
    hide GroupKeys, KeyOf;
    forall key: Key
      ensures CountRows(Kept(rows, cutoff), key) + RolledUp(after, key) == CountRows(ingested, key)
    {
      StaleAndKept(rows, cutoff, key);
    }
  }

  /** A death after `n` groups were added and before the rows are deleted counts every stale row of those groups once
      more, and nothing else. */
  lemma DiedAfter(rows: seq<Event>, before: map<Key, nat>, after: map<Key, nat>, ingested: seq<Event>, cutoff: int,
                  keys: seq<Key>, counts: map<Key, nat>, n: nat)
    requires AllCounted(rows, before, ingested) && Grouped(Stale(rows, cutoff), keys, counts)
             && Added(before, after, keys, counts, n)
    ensures AllCounted(rows, after, ingested + Doubled(rows, cutoff, Some(n)))
  {
    var doubled := Among(Stale(rows, cutoff), keys[..n]);
    assert doubled == Doubled(rows, cutoff, Some(n));
    forall key: Key
      ensures CountRows(rows, key) + RolledUp(after, key) == CountRows(ingested + doubled, key)
    {
      AmongCounts(Stale(rows, cutoff), keys[..n], key);
      RowsConcat(ingested, doubled, key);
    }
  }

  /** Something is counted twice exactly if at least one group was added before the death. */
  lemma DoubledExactly(rows: seq<Event>, cutoff: int, dies: Option<nat>)
    ensures Doubled(rows, cutoff, dies) == [] <==>
              dies == None || dies == Some(0) || dies.value > |GroupKeys(Stale(rows, cutoff))|
  {
    var stale := Stale(rows, cutoff);
    if dies.Some? && dies.value <= |GroupKeys(stale)| {
      var keys := GroupKeys(stale)[..dies.value];
      if dies.value == 0 {
        AmongNone(stale);
        assert keys == [];
      } else {
        FirstKey(stale);
        AmongCounts(stale, keys, KeyOf(stale[0]));
        RowCounted(stale, 0);
        assert keys[0] in keys;
      }
    }
  }

  lemma {:induction false} AmongNone(rows: seq<Event>)
    ensures Among(rows, []) == []
  {
    if rows != [] { AmongNone(rows[..|rows| - 1]); }
  }

  lemma {:induction false} FirstKey(rows: seq<Event>)
    ensures GroupKeys(rows) == [] <==> rows == []
    ensures rows != [] ==> GroupKeys(rows)[0] == KeyOf(rows[0])
  {
    if rows != [] { FirstKey(rows[..|rows| - 1]); }
  }

  lemma {:induction false} RowCounted(rows: seq<Event>, i: nat)
    requires i < |rows|
    ensures CountRows(rows, KeyOf(rows[i])) > 0
  {
    if i < |rows| - 1 { RowCounted(rows[..|rows| - 1], i); }
  }

  class EventStore {
    const decode: Decoder
    var spool: seq<File>
    var rows: seq<Event>
    var rollups: map<Key, nat>
    ghost var produced: seq<nat>      // every line ever spooled
    ghost var ingested: seq<Event>    // every event ever committed
    ghost var again: seq<nat>         // lines of files that stayed behind after their events were committed
    ghost var twice: seq<Event>       // events in groups that a death left counted twice

    /** Every event is where it should be, and nothing is counted more often than `again` and `twice` say. */
    ghost predicate Valid()
      reads this
    {
      EachOnce(spool, ingested, produced + again, decode) && AllCounted(rows, rollups, ingested + twice)
    }

    /** What the counts promise: every event is counted once. */
    ghost predicate Right()
      reads this
    {
      EachOnce(spool, ingested, produced, decode) && AllCounted(rows, rollups, ingested)
    }

    /** The counts are right exactly if no event was ever left behind or doubled. */
    lemma RightExactly()
      requires Valid()
      ensures Right() <==> Plain(again, decode) && twice == []
    {
      EachOnceExactly(spool, ingested, produced, again, decode);
      AllCountedExactly(rows, rollups, ingested, twice);
    }

    lemma Counts(key: Key)
      requires Valid()
      ensures CountRows(rows, key) + RolledUp(rollups, key) == CountRows(ingested + twice, key)
    {
    }

    constructor (decode: Decoder)
      ensures Valid() && Right() && spool == [] && rows == [] && rollups == map[]
      ensures this.decode == decode && produced == [] && ingested == [] && again == [] && twice == []
    {
      this.decode, spool, rows, rollups, produced, ingested, again, twice := decode, [], [], map[], [], [], [], [];
    }

    /** A hook wrote another complete file. */
    method Spool(f: File)
      requires Valid()
      modifies this`spool, this`produced
      ensures Valid() && (old(Right()) ==> Right()) && spool == old(spool) + [f] && produced == old(produced) + f.lines
    {
      hide EachOnce, AllCounted;
      RightExactly();
      Spooled(spool, f, ingested, produced, again, decode);
      spool, produced := spool + [f], produced + f.lines;
      RightExactly();
    }

    /** One pass over the spool; `fates[i]` is how its file `i` fares. The counts stay right if and only if every file
        whose deletion fails is without events; otherwise its events are counted again. */
    method TailSpoolOnce(fates: seq<Fate>, now: int)
      returns (filesProcessed: nat, linesIngested: nat, filesRetained: nat)
      requires Valid() && |fates| == |spool|
      modifies this`spool, this`rows, this`ingested, this`again
      ensures Valid()
      ensures var n := |fates|;
              && spool == Left(old(spool), fates, n, decode, now) && again == old(again) + Again(old(spool), fates, n)
              && rows == old(rows) + Taken(old(spool), fates, n, decode, now)
              && ingested == old(ingested) + Taken(old(spool), fates, n, decode, now)
              && linesIngested == |Taken(old(spool), fates, n, decode, now)|
              && filesProcessed == |set i: nat | i < n && Commits(old(spool)[i], fates[i], decode, now)|
              && filesRetained == |set i: nat | i < n && Refuses(old(spool)[i], fates[i], decode, now)|
      ensures old(Right()) ==>
                (Right() <==>
                 forall i | 0 <= i < |fates| && fates[i] == DeletionFailed ::
                   Decoded(old(spool)[i].lines, decode, now) == [])
    {
      hide EachOnce, AllCounted, Decoded, Plain, Again, Taken, Left;
      RightExactly();
      AgainPlain(spool, fates, |fates|, decode, now);
      PlainBoth(again, Again(spool, fates, |fates|), decode);
      var kept;
      kept, filesProcessed, linesIngested, filesRetained := TailFiles(fates, now);
      spool := kept;
      RightExactly();
    }

    /** The files of the pass, one after the other. */
    method TailFiles(fates: seq<Fate>, now: int)
      returns (kept: seq<File>, filesProcessed: nat, linesIngested: nat, filesRetained: nat)
      requires Valid() && |fates| == |spool|
      modifies this`rows, this`ingested, this`again
      ensures EachOnce(kept, ingested, produced + again, decode) && AllCounted(rows, rollups, ingested + twice)
      ensures var n := |fates|;
              && kept == Left(spool, fates, n, decode, now) && again == old(again) + Again(spool, fates, n)
              && rows == old(rows) + Taken(spool, fates, n, decode, now)
              && ingested == old(ingested) + Taken(spool, fates, n, decode, now)
              && linesIngested == |Taken(spool, fates, n, decode, now)|
              && filesProcessed == |Processed(spool, fates, n, decode, now)|
              && filesRetained == |Retained(spool, fates, n, decode, now)|
    {
      hide EachOnce, AllCounted, Decoded, Commits, Refuses, Passed, Waiting, Processed, Retained;
      NoFiles(spool, fates, decode, now);
      ghost var before, was, seen := rows, ingested, again;
      kept, filesProcessed, linesIngested, filesRetained := [], 0, 0, 0;
      PassBegins(spool, fates, rows, ingested, again, decode, now);
      var i := 0;
      while i < |spool|
        invariant 0 <= i <= |spool| && filesProcessed == |Processed(spool, fates, i, decode, now)|
        invariant filesRetained == |Retained(spool, fates, i, decode, now)|
        invariant Passed(spool, fates, i, decode, now, kept, before, rows, was, ingested, seen, again, linesIngested)
        invariant AllCounted(rows, rollups, ingested + twice)
        invariant EachOnce(Waiting(kept, spool, i), ingested, produced + again, decode)
      {
        Regroup(kept, spool, i);
        OneMoreDone(spool, fates, i, decode, now);
        OneMoreLeft(spool, fates, i, decode, now);
        ghost var r, g, a := rows, ingested, again;
        var keep, done, refused, n := TailFile(spool[i], fates[i], now, kept, spool[i + 1..]);
        PassedOne(spool, fates, i, decode, now, kept, before, r, rows, was, g, ingested, seen, a, again, linesIngested,
                  n);
        if keep { kept := kept + [spool[i]]; }
        if done { filesProcessed := filesProcessed + 1; }
        if refused { filesRetained := filesRetained + 1; }
        linesIngested := linesIngested + n;
        i := i + 1;
      }
      PassEnds(spool, fates, decode, now, kept, before, rows, was, ingested, seen, again, linesIngested);
    }

    /** One file of the pass, between the files kept so far and those to come. */
    method TailFile(f: File, fate: Fate, now: int, ghost kept: seq<File>, ghost rest: seq<File>)
      returns (keep: bool, done: bool, refused: bool, n: nat)
      requires AllCounted(rows, rollups, ingested + twice)
               && EachOnce(kept + [f] + rest, ingested, produced + again, decode)
      modifies this`rows, this`ingested, this`again
      ensures AllCounted(rows, rollups, ingested + twice)
      ensures EachOnce(if keep then kept + [f] + rest else kept + rest, ingested, produced + again, decode)
      ensures var events := Decoded(f.lines, decode, now);
              if Commits(f, fate, decode, now)
              then rows == old(rows) + events && ingested == old(ingested) + events
                   && n == |events|
              else rows == old(rows) && ingested == old(ingested) && n == 0
      ensures again == if fate == DeletionFailed then old(again) + f.lines else old(again)
      ensures (keep <==> fate == DeletionFailed || !Commits(f, fate, decode, now))
      ensures done <==> Commits(f, fate, decode, now)
      ensures refused <==> Refuses(f, fate, decode, now)
    {
      hide EachOnce, AllCounted, Decoded;
      if fate == Unreadable { return true, false, false, 0; }
      var events := DecodeLines(f.lines, decode, now);
      if fate == Refused && events != [] { return true, false, true, 0; }
      RowsIngested(rows, rollups, ingested, twice, events);
      if fate == DeletionFailed {
        CountedAgain(kept + [f] + rest, f, ingested, produced + again, decode, now);
        assert produced + again + f.lines == produced + (again + f.lines);
        again := again + f.lines;
      } else {
        FileTailed(kept, f, rest, ingested, produced + again, decode, now);
      }
      rows, ingested := rows + events, ingested + events;
      keep, done, refused, n := fate == DeletionFailed, true, false, |events|;
    }

    /** Compaction at `now`. It finishes exactly if it does not die while adding the groups or before deleting their
        rows. Right counts stay right if and only if it finishes or dies before adding the first group; otherwise the
        stale rows of the groups added are counted twice. */
    method Compact(now: int, dies: Option<nat>) returns (finished: bool)
      requires Valid()
      modifies this`rows, this`rollups, this`twice
      ensures Valid()
      ensures var cutoff := now - RETENTION_WINDOW_MS;
              && (finished <==> dies == None || dies.value > |GroupKeys(Stale(old(rows), cutoff))|)
              && rows == (if finished then Kept(old(rows), cutoff) else old(rows))
              && twice == old(twice) + Doubled(old(rows), cutoff, dies)
      ensures old(Right()) ==> (Right() <==> finished || dies == Some(0))
    {
      hide EachOnce, AllCounted, Doubled, Stale, Kept, GroupKeys;
      RightExactly();
      var cutoff := now - RETENTION_WINDOW_MS;
      DoubledExactly(rows, cutoff, dies);
      ghost var doubled := Doubled(rows, cutoff, dies);
      rows, rollups, finished := RollUp(rows, rollups, cutoff, dies, ingested + twice);
      assert ingested + twice + doubled == ingested + (twice + doubled);
      twice := twice + doubled;
      RightExactly();
    }
  }

  lemma Spooled(spool: seq<File>, f: File, ingested: seq<Event>, produced: seq<nat>, again: seq<nat>, decode: Decoder)
    requires EachOnce(spool, ingested, produced + again, decode)
    ensures EachOnce(spool + [f], ingested, produced + f.lines + again, decode)
  {
    forall k: Kind
      ensures CountLines(AllLines(spool + [f]), k, decode) + CountKind(ingested, k) ==
              CountLines(produced + f.lines + again, k, decode)
    {
      assert (spool + [f])[..|spool|] == spool;
      LinesConcat(AllLines(spool), f.lines, k, decode);
      LinesConcat(produced, f.lines, k, decode);
      LinesConcat(produced + f.lines, again, k, decode);
      LinesConcat(produced, again, k, decode);
    }
  }

  lemma PassBegins(spool: seq<File>, fates: seq<Fate>, rows: seq<Event>, ingested: seq<Event>, again: seq<nat>,
                   decode: Decoder, now: int)
    requires |fates| == |spool|
    ensures Waiting([], spool, 0) == spool
    ensures Passed(spool, fates, 0, decode, now, [], rows, rows, ingested, ingested, again, again, 0)
  {
    assert rows + [] == rows && ingested + [] == ingested && again + [] == again;
  }

  lemma PassEnds(spool: seq<File>, fates: seq<Fate>, decode: Decoder, now: int, kept: seq<File>, before: seq<Event>,
                 rows: seq<Event>, was: seq<Event>, ingested: seq<Event>, seen: seq<nat>, again: seq<nat>, count: nat)
    requires Passed(spool, fates, |spool|, decode, now, kept, before, rows, was, ingested, seen, again, count)
    ensures Waiting(kept, spool, |spool|) == kept
    ensures var n := |fates|;
            && kept == Left(spool, fates, n, decode, now) && again == seen + Again(spool, fates, n)
            && rows == before + Taken(spool, fates, n, decode, now)
            && ingested == was + Taken(spool, fates, n, decode, now)
            && count == |Taken(spool, fates, n, decode, now)|
  {
  }

  /** One event, one failed deletion, one good pass: two rows. */
  method DeletionFailsOnce(kind: Kind) returns (spooled: nat, counted: nat)
    ensures spooled == 1 && counted == 2
  {
    hide *;
    var store := new EventStore((line: nat) => Some(kind));
    var f := File(0, [0]);
    store.Spool(f);
    assert store.spool == [f];
    OneEvent(store.decode, kind, 0);
    var _, _, _ := store.TailSpoolOnce([DeletionFailed], 0);
    OneEvent(store.decode, kind, 1);
    var _, _, _ := store.TailSpoolOnce([Deleted], 1);
    spooled, counted := |f.lines|, |store.rows|;
  }

  lemma OneEvent(decode: Decoder, kind: Kind, now: int)
    requires decode(0) == Some(kind)
    ensures Decoded([0], decode, now) == [Event(kind, now)]
    ensures Left([File(0, [0])], [DeletionFailed], 1, decode, now) == [File(0, [0])]
    ensures forall fate | fate == Deleted || fate == DeletionFailed ::
              Taken([File(0, [0])], [fate], 1, decode, now) == [Event(kind, now)]
  {
    assert Decoded([0][..0], decode, now) == [];
  }

  /** One event, one death between adding its group and deleting it, one good compaction: a count of two. */
  method CompactionDiesOnce(kind: Kind) returns (spooled: nat, counted: nat)
    ensures spooled == 1 && counted == 2
  {
    hide *;
    var store := new EventStore((line: nat) => Some(kind));
    var f := File(0, [0]);
    ghost var e := Event(kind, 0);
    store.Spool(f);
    assert store.spool == [f];
    OneEvent(store.decode, kind, 0);
    OneStale(kind);
    var _, _, _ := store.TailSpoolOnce([Deleted], 0);
    assert store.rows == [e] && store.ingested == [e] && store.twice == [];
    var _ := store.Compact(RETENTION_WINDOW_MS + 1, Some(1));
    assert store.rows == [e] && store.twice == [e];
    var _ := store.Compact(RETENTION_WINDOW_MS + 1, None);
    assert store.rows == [] && store.twice == [e];
    store.Counts(KeyOf(e));
    spooled, counted := |f.lines|, RolledUp(store.rollups, KeyOf(Event(kind, 0)));
  }

  lemma OneStale(kind: Kind)
    ensures var e := Event(kind, 0);
            && Stale([e], 1) == [e] && Kept([e], 1) == [] && GroupKeys([e]) == [KeyOf(e)]
            && Doubled([e], 1, Some(1)) == [e] && Doubled([e], 1, None) == []
            && CountRows([e] + [e], KeyOf(e)) == 2 && CountRows([], KeyOf(e)) == 0
  {
    var e := Event(kind, 0);
    assert [e][..0] == [];
    assert GroupKeys([e]) == [KeyOf(e)] && [KeyOf(e)][..1] == [KeyOf(e)];
    assert Among([e], [KeyOf(e)]) == [e];
    RowSnoc([], e, KeyOf(e));
    assert [] + [e] == [e];
    RowSnoc([e], e, KeyOf(e));
  }
}
