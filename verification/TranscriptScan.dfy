/** Exactly-once ingestion of transcripts by offset: whatever was appended, scanned, aborted or restarted, the
    usage rows of a file are those of the lines before its recorded offset. */
module TranscriptScan {
  import opened Options
  import opened LineTail
  import opened TranscriptTailer
  import opened Utf16
  import opened Utf8

  datatype Path = Main(dir: nat, session: nat) | Sub(dir: nat, session: nat, file: nat)

  /** A usage row's columns. */
  type Usage = nat

  datatype UsageRow = UsageRow(path: Path, usage: Usage)

  /** Which usage, if any, a line yields when parsed. */
  type Parser = JsString -> Option<Usage>

  // ---- rows ----

  function UsagesOf(lines: seq<JsString>, parse: Parser): seq<Usage> {
    if lines == [] then []
    else
      var n := |lines| - 1;
      UsagesOf(lines[..n], parse) + if parse(lines[n]).Some? then [parse(lines[n]).value] else []
  }

  lemma {:induction false} UsagesConcat(a: seq<JsString>, b: seq<JsString>, parse: Parser)
    ensures UsagesOf(a + b, parse) == UsagesOf(a, parse) + UsagesOf(b, parse)
  {
    if b == [] {
      assert a + b == a;
    } else {
      var n := |b| - 1;
      assert (a + b)[..|a + b| - 1] == a + b[..n];
      UsagesConcat(a, b[..n], parse);
    }
  }

  /** The usages recorded for a file, in order of insertion. */
  function RowsOf(rows: seq<UsageRow>, path: Path): seq<Usage> {
    if rows == [] then []
    else
      var n := |rows| - 1;
      RowsOf(rows[..n], path) + if rows[n].path == path then [rows[n].usage] else []
  }

  lemma RowAdded(rows: seq<UsageRow>, row: UsageRow, path: Path)
    ensures RowsOf(rows + [row], path) == RowsOf(rows, path) + if row.path == path then [row.usage] else []
  {
    assert (rows + [row])[..|rows|] == rows;
  }

  function OffsetOf(offsets: map<Path, nat>, path: Path): nat { if path in offsets then offsets[path] else 0 }

  /** The offset is right, and the rows of the file are exactly the usages of the lines before it, each once and in
      order. */
  ghost predicate Ingested(rows: seq<UsageRow>, path: Path, bytes: seq<Byte>, offset: nat, parse: Parser) {
    RightAt(bytes, offset) && RowsOf(rows, path) == UsagesOf(TextLines(bytes, 0, offset), parse)
  }

  lemma IngestedGrows(rows: seq<UsageRow>, path: Path, bytes: seq<Byte>, more: seq<Byte>, offset: nat, parse: Parser)
    requires Ingested(rows, path, bytes, offset, parse) && bytes <= more
    ensures Ingested(rows, path, more, offset, parse)
  {
    RightStays(bytes, more, offset);
  }

  /** After a read from where the rows were right the offset is just past the last newline if and only if decoding
      keeps the length of every complete line; and then the rows are right again. */
  lemma ReadKeeps(rows: seq<UsageRow>, rows': seq<UsageRow>, path: Path, bytes: seq<Byte>, offset: nat,
                  lines: seq<JsString>, newOffset: nat, parse: Parser)
    requires Ingested(rows, path, bytes, offset, parse) && ReadFrom(bytes, offset, lines, newOffset)
    requires RowsOf(rows', path) == RowsOf(rows, path) + UsagesOf(lines, parse)
    ensures newOffset == LineStart(bytes, |bytes|) <==> Clean(bytes)
    ensures Clean(bytes) ==> Ingested(rows', path, bytes, newOffset, parse)
  {
    hide ReadFrom, TextLines, LineStart, KeepsLength, UsagesOf, RowsOf, Clean;
    ReadRight(bytes, offset, lines, newOffset);
    UsagesConcat(TextLines(bytes, 0, offset), lines, parse);
  }

  // ---- a pass ----

  /** One listed transcript with its subagents' transcripts; a file may be unreadable, and if the main one is
      its subagents are not visited. */
  datatype Listed = Listed(session: Path, readable: bool, subagents: seq<(Path, bool)>)

  /** The rows of every file whose length decoding keeps are those of its lines before its offset. */
  ghost predicate AllIngested(rows: seq<UsageRow>, offsets: map<Path, nat>, files: map<Path, seq<Byte>>,
                              parse: Parser) {
    && offsets.Keys <= files.Keys && (forall r | r in rows :: r.path in files)
    && forall p | p in files && Clean(files[p]) :: Ingested(rows, p, files[p], OffsetOf(offsets, p), parse)
  }

  /** Files are only appended to, and new ones appear. */
  ghost predicate Appended(files: map<Path, seq<Byte>>, later: map<Path, seq<Byte>>) {
    forall p | p in files :: p in later && files[p] <= later[p]
  }

  /** The file is read through its last newline. */
  ghost predicate ReadOut(offsets: map<Path, nat>, files: map<Path, seq<Byte>>, path: Path) {
    path in files && OffsetOf(offsets, path) == LineStart(files[path], |files[path]|)
  }

  /** The file is read through its last newline unless decoding changed its length. */
  ghost predicate Done(offsets: map<Path, nat>, files: map<Path, seq<Byte>>, path: Path) {
    path in files && (Clean(files[path]) ==> ReadOut(offsets, files, path))
  }

  lemma {:induction false} NoRows(rows: seq<UsageRow>, path: Path)
    requires forall r | r in rows :: r.path != path
    ensures RowsOf(rows, path) == []
  {
    if rows != [] {
      var n := |rows| - 1;
      assert rows[n] in rows;
      NoRows(rows[..n], path);
    }
  }

  lemma AppendKeeps(rows: seq<UsageRow>, offsets: map<Path, nat>, files: map<Path, seq<Byte>>,
                    later: map<Path, seq<Byte>>, parse: Parser)
    requires AllIngested(rows, offsets, files, parse) && Appended(files, later)
    ensures AllIngested(rows, offsets, later, parse)
  {
    hide Ingested, Clean;
    forall p | p in later && Clean(later[p])
      ensures Ingested(rows, p, later[p], OffsetOf(offsets, p), parse)
    {
      if p in files {
        CleanBefore(files[p], later[p]);
        IngestedGrows(rows, p, files[p], later[p], OffsetOf(offsets, p), parse);
      } else {
        NothingIngested(rows, p, later[p], parse);
      }
    }
  }

  lemma NothingIngested(rows: seq<UsageRow>, path: Path, bytes: seq<Byte>, parse: Parser)
    requires forall r | r in rows :: r.path != path
    ensures Ingested(rows, path, bytes, 0, parse)
  {
    NoRows(rows, path);
  }

  lemma OneIngested(rows: seq<UsageRow>, more: seq<UsageRow>, path: Path, offsets: map<Path, nat>, newOffset: nat,
                    files: map<Path, seq<Byte>>, parse: Parser)
    requires AllIngested(rows, offsets, files, parse) && path in files
    requires Clean(files[path]) ==> Ingested(more, path, files[path], newOffset, parse)
    requires forall p | p != path :: RowsOf(more, p) == RowsOf(rows, p)
    requires forall row | row in more :: row in rows || row.path == path
    ensures AllIngested(more, offsets[path := newOffset], files, parse)
  {
    hide TextLines, UsagesOf, AtBoundary, RowsOf, Clean, KeepsLength;
    forall p | p in files && Clean(files[p])
      ensures Ingested(more, p, files[p], OffsetOf(offsets[path := newOffset], p), parse)
    {
      assert p != path ==> Ingested(rows, p, files[p], OffsetOf(offsets, p), parse);
    }
  }

  /** A line was completed at or after the offset. */
  predicate HasNews(bytes: seq<Byte>, offset: nat) {
    exists k | offset <= k < |bytes| :: bytes[k] == NL
  }

  /** A read finds something exactly if there is news, and leaves none. */
  lemma NewsRead(bytes: seq<Byte>, offset: nat, lines: seq<JsString>, newOffset: nat)
    requires ReadFrom(bytes, offset, lines, newOffset)
    ensures (lines == [] && newOffset == offset) <==> !HasNews(bytes, offset)
    ensures !HasNews(bytes, newOffset)
  {
    if offset < |bytes| {
      var rest := bytes[offset..];
      var n := LineStart(rest, |rest|);
      PlainSinceStart(rest, |rest|);
      if n > 0 { assert bytes[offset + n - 1] == NL; }
      forall k | newOffset <= k < |bytes|
        ensures bytes[k] != NL
      {
        assert bytes[k] == rest[k - offset];
      }
      if n == 0 {
        forall k | offset <= k < |bytes|
          ensures bytes[k] != NL
        {
          assert bytes[k] == rest[k - offset];
        }
      }
    }
  }

  /** One read's lines were added to the file's rows, and its offset noted. */
  ghost predicate ReadOnce(path: Path, bytes: seq<Byte>, before: map<Path, nat>, after: map<Path, nat>,
                           rows: seq<UsageRow>, more: seq<UsageRow>, parse: Parser) {
    exists lines: seq<JsString> ::
      && ReadFrom(bytes, OffsetOf(before, path), lines, OffsetOf(after, path))
      && RowsOf(more, path) == RowsOf(rows, path) + UsagesOf(lines, parse)
  }

  lemma OneRead(path: Path, bytes: seq<Byte>, before: map<Path, nat>, newOffset: nat, rows: seq<UsageRow>,
                more: seq<UsageRow>, lines: seq<JsString>, parse: Parser)
    requires ReadFrom(bytes, OffsetOf(before, path), lines, newOffset)
    requires RowsOf(more, path) == RowsOf(rows, path) + UsagesOf(lines, parse)
    ensures ReadOnce(path, bytes, before, before[path := newOffset], rows, more, parse)
    ensures newOffset == OffsetOf(before, path) ==> ReadOnce(path, bytes, before, before, rows, more, parse)
  {
    hide ReadFrom, RowsOf, UsagesOf;
    assert OffsetOf(before[path := newOffset], path) == newOffset;
  }

  /** A file read again, its new usages added: exactly if it is clean the offset is right. */
  lemma FileRead(rows: seq<UsageRow>, more: seq<UsageRow>, path: Path, offsets: map<Path, nat>, newOffset: nat,
                 lines: seq<JsString>, files: map<Path, seq<Byte>>, parse: Parser)
    requires AllIngested(rows, offsets, files, parse) && path in files
    requires ReadFrom(files[path], OffsetOf(offsets, path), lines, newOffset)
    requires RowsOf(more, path) == RowsOf(rows, path) + UsagesOf(lines, parse)
    requires forall p | p != path :: RowsOf(more, p) == RowsOf(rows, p)
    requires forall row | row in more :: row in rows || row.path == path
    ensures AllIngested(more, offsets[path := newOffset], files, parse)
    ensures Done(offsets[path := newOffset], files, path)
    ensures Ingested(rows, path, files[path], OffsetOf(offsets, path), parse) ==>
              (ReadOut(offsets[path := newOffset], files, path) <==> Clean(files[path]))
  {
    hide Ingested, Clean, ReadFrom, LineStart, RowsOf, UsagesOf;
    if Ingested(rows, path, files[path], OffsetOf(offsets, path), parse) {
      ReadKeeps(rows, more, path, files[path], OffsetOf(offsets, path), lines, newOffset, parse);
    }
    OneIngested(rows, more, path, offsets, newOffset, files, parse);
  }

  // ---- where a pass ends ----

  /** The files of one listed session by position: its own, then its subagents'. */
  function PathAt(l: Listed, k: nat): Path
    requires k <= |l.subagents|
  {
    if k == 0 then l.session else l.subagents[k - 1].0
  }

  predicate Visited(l: Listed, k: nat) {
    l.readable && k <= |l.subagents| && (k > 0 ==> l.subagents[k - 1].1)
  }

  /** A transaction fails at position `k`: it is one of the failing ones, and it is begun, because the file has news
      and was not read already at an earlier position. */
  ghost predicate Trips(l: Listed, k: nat, fails: set<nat>, offsets: map<Path, nat>, files: map<Path, seq<Byte>>) {
    && Visited(l, k) && k in fails && PathAt(l, k) in files
    && HasNews(files[PathAt(l, k)], OffsetOf(offsets, PathAt(l, k)))
    && forall j | 0 <= j < k && Visited(l, j) :: PathAt(l, j) != PathAt(l, k)
  }

  /** The first `n` positions were visited and none tripped: their files have no news left, no other offset moved. */
  ghost predicate Passed(l: Listed, n: nat, fails: set<nat>, before: map<Path, nat>, now: map<Path, nat>,
                         files: map<Path, seq<Byte>>) {
    && (forall k: nat | k < n ::
          && !Trips(l, k, fails, before, files)
          && (Visited(l, k) && PathAt(l, k) in files ==> !HasNews(files[PathAt(l, k)], OffsetOf(now, PathAt(l, k)))))
    && forall p | (forall k: nat | k < n && Visited(l, k) :: PathAt(l, k) != p) ::
                     OffsetOf(now, p) == OffsetOf(before, p)
  }

  lemma NonePassed(l: Listed, fails: set<nat>, before: map<Path, nat>, files: map<Path, seq<Byte>>)
    ensures Passed(l, 0, fails, before, before, files)
  {
  }

  /** A position without a readable file is passed over. */
  lemma PassedOver(l: Listed, n: nat, fails: set<nat>, before: map<Path, nat>, now: map<Path, nat>,
                   files: map<Path, seq<Byte>>)
    requires Passed(l, n, fails, before, now, files) && !Visited(l, n)
    ensures Passed(l, n + 1, fails, before, now, files)
  {
    forall p | forall k: nat | k < n + 1 && Visited(l, k) :: PathAt(l, k) != p
      ensures OffsetOf(now, p) == OffsetOf(before, p)
    {
      assert forall k: nat | k < n && Visited(l, k) :: PathAt(l, k) != p;
    }
  }

  /** Whether a transaction fails at the next position, and that it is passed if not. */
  lemma PassedOne(l: Listed, n: nat, fails: set<nat>, before: map<Path, nat>, now: map<Path, nat>,
                  after: map<Path, nat>, files: map<Path, seq<Byte>>, rows: seq<UsageRow>, more: seq<UsageRow>)
    requires Passed(l, n, fails, before, now, files) && Visited(l, n) && PathAt(l, n) in files
    requires forall k: nat | k <= n && Visited(l, k) :: PathAt(l, k) in files
    requires OthersSame(PathAt(l, n), now, after, rows, more)
    ensures n in fails && HasNews(files[PathAt(l, n)], OffsetOf(now, PathAt(l, n))) <==>
              Trips(l, n, fails, before, files)
    ensures !Trips(l, n, fails, before, files) && !HasNews(files[PathAt(l, n)], OffsetOf(after, PathAt(l, n))) ==>
              Passed(l, n + 1, fails, before, after, files)
  {
    hide HasNews, RowsOf;
    var path := PathAt(l, n);
    if j: nat :| j < n && Visited(l, j) && PathAt(l, j) == path {
      assert !HasNews(files[path], OffsetOf(now, path));
    } else {
      assert OffsetOf(now, path) == OffsetOf(before, path);
    }
    if !Trips(l, n, fails, before, files) && !HasNews(files[path], OffsetOf(after, path)) {
      forall p | forall k: nat | k < n + 1 && Visited(l, k) :: PathAt(l, k) != p
        ensures OffsetOf(after, p) == OffsetOf(before, p)
      {
        assert Visited(l, n) && PathAt(l, n) != p;
        assert forall k: nat | k < n && Visited(l, k) :: PathAt(l, k) != p;
      }
    }
  }

  /** No file of an earlier session stands at this position. */
  ghost predicate FirstIn(listing: seq<Listed>, i: nat, k: nat)
    requires i < |listing| && Visited(listing[i], k)
  {
    forall j: nat, m: nat | j < i && Visited(listing[j], m) :: PathAt(listing[j], m) != PathAt(listing[i], k)
  }

  /** A transaction of the pass fails in session `i`. */
  ghost predicate TripsIn(listing: seq<Listed>, i: nat, fails: seq<set<nat>>, offsets: map<Path, nat>,
                          files: map<Path, seq<Byte>>)
    requires |fails| == |listing|
  {
    i < |listing| && exists k: nat :: Trips(listing[i], k, fails[i], offsets, files) && FirstIn(listing, i, k)
  }

  /** The first `n` sessions were visited and nothing failed. */
  ghost predicate PassedAll(listing: seq<Listed>, n: nat, fails: seq<set<nat>>, before: map<Path, nat>,
                            now: map<Path, nat>, files: map<Path, seq<Byte>>)
    requires n <= |listing| == |fails|
  {
    && (forall i: nat | i < n :: !TripsIn(listing, i, fails, before, files))
    && (forall i: nat, k: nat | i < n && Visited(listing[i], k) && PathAt(listing[i], k) in files ::
          !HasNews(files[PathAt(listing[i], k)], OffsetOf(now, PathAt(listing[i], k))))
    && forall p | (forall i: nat, k: nat | i < n && Visited(listing[i], k) :: PathAt(listing[i], k) != p) ::
         OffsetOf(now, p) == OffsetOf(before, p)
  }

  /** The next session trips exactly if a transaction of the pass fails in it. */
  lemma TripsNow(listing: seq<Listed>, n: nat, fails: seq<set<nat>>, before: map<Path, nat>, now: map<Path, nat>,
                 files: map<Path, seq<Byte>>)
    requires n < |listing| == |fails| && PassedAll(listing, n, fails, before, now, files)
    requires forall l | l in listing :: ListedOk(l, files)
    ensures (exists k: nat :: Trips(listing[n], k, fails[n], now, files)) <==> TripsIn(listing, n, fails, before, files)
  {
    hide HasNews;
    forall k: nat | Visited(listing[n], k) && PathAt(listing[n], k) in files
      ensures Trips(listing[n], k, fails[n], now, files) <==>
                Trips(listing[n], k, fails[n], before, files) && FirstIn(listing, n, k)
    {
      var path := PathAt(listing[n], k);
      if FirstIn(listing, n, k) {
        assert OffsetOf(now, path) == OffsetOf(before, path);
      } else {
        assert !HasNews(files[path], OffsetOf(now, path));
      }
    }
  }

  lemma PassedSession(listing: seq<Listed>, n: nat, fails: seq<set<nat>>, before: map<Path, nat>, now: map<Path, nat>,
                      after: map<Path, nat>, files: map<Path, seq<Byte>>)
    requires n < |listing| == |fails| && PassedAll(listing, n, fails, before, now, files)
    requires !TripsIn(listing, n, fails, before, files)
    requires Passed(listing[n], |listing[n].subagents| + 1, fails[n], now, after, files)
    ensures PassedAll(listing, n + 1, fails, before, after, files)
  {
    hide HasNews, Trips;
    var l := listing[n];
    forall i: nat, k: nat | i < n + 1 && Visited(listing[i], k) && PathAt(listing[i], k) in files
      ensures !HasNews(files[PathAt(listing[i], k)], OffsetOf(after, PathAt(listing[i], k)))
    {
      var path := PathAt(listing[i], k);
      if m: nat :| m < |l.subagents| + 1 && Visited(l, m) && PathAt(l, m) == path {
      } else {
        assert i < n && OffsetOf(after, path) == OffsetOf(now, path);
      }
    }
    forall p | forall i: nat, k: nat | i < n + 1 && Visited(listing[i], k) :: PathAt(listing[i], k) != p
      ensures OffsetOf(after, p) == OffsetOf(before, p)
    {
      assert forall k: nat | k < |l.subagents| + 1 && Visited(l, k) :: PathAt(listing[n], k) != p;
      assert forall i: nat, k: nat | i < n && Visited(listing[i], k) :: PathAt(listing[i], k) != p;
    }
  }

  class TranscriptScan {
    const parse: Parser
    var offsets: map<Path, nat>
    var rows: seq<UsageRow>
    ghost var files: map<Path, seq<Byte>>

    ghost predicate Valid()
      reads this
    {
      AllIngested(rows, offsets, files, parse)
    }

    constructor (parse: Parser)
      ensures Valid() && files == map[] && rows == [] && offsets == map[] && this.parse == parse
    {
      this.parse, offsets, rows, files := parse, map[], [], map[];
    }

    /** One file in one transaction: the usage rows of its new lines and its new offset land together, or, if
        the transaction `fails`, not at all. A file without new lines needs no transaction. */
    method IngestFile(path: Path, bytes: seq<Byte>, fails: bool) returns (count: nat, threw: bool)
      requires Valid() && path in files && bytes == files[path]
      modifies this`offsets, this`rows
      ensures Valid() && count + |old(rows)| == |rows|
      ensures threw <==> fails && HasNews(bytes, OffsetOf(old(offsets), path))
      ensures !threw ==> !HasNews(bytes, OffsetOf(offsets, path))
      ensures !threw ==> ReadOnce(path, bytes, old(offsets), offsets, old(rows), rows, parse)
      ensures threw ==> offsets == old(offsets) && rows == old(rows)
      ensures !threw ==> Done(offsets, files, path)
      ensures !threw && Ingested(old(rows), path, bytes, OffsetOf(old(offsets), path), parse) ==>
                (ReadOut(offsets, files, path) <==> Clean(bytes))
      ensures OthersSame(path, old(offsets), offsets, old(rows), rows)
    {
      hide AllIngested, Ingested, Done, ReadOut, OffsetOf, OthersSame, RowsOf, UsagesOf, ReadFrom, Clean, LineStart,
           HasNews, ReadOnce;
      var offset := OffsetOf(offsets, path);
      var lines, newOffset := ReadNewLines(bytes, offset);
      NewsRead(bytes, offset, lines, newOffset);
      if lines == [] && newOffset == offset {
        NothingRead(rows, path, offsets, files, parse);
        NoUsages(rows, path, parse);
        OneRead(path, bytes, offsets, newOffset, rows, rows, lines, parse);
        return 0, false;
      }
      if fails {
        OthersAreSame(path, offsets, newOffset, rows, rows);
        return 0, true;
      }
      threw := false;
      var more;
      more, count := AddUsages(rows, path, lines, parse);
      FileRead(rows, more, path, offsets, newOffset, lines, files, parse);
      OthersAreSame(path, offsets, newOffset, rows, more);
      OneRead(path, bytes, offsets, newOffset, rows, more, lines, parse);
      OffsetNoted(offsets, path, newOffset);
      rows, offsets := more, offsets[path := newOffset];
    }

    /** A session's file and, if it could be read, its subagents' files. `fails` are the positions, counted in
        visited files, at which a transaction fails: that ends the pass. */
    method VisitSession(l: Listed, now: map<Path, seq<Byte>>, fails: set<nat>) returns (count: nat, threw: bool)
      requires Valid() && now == files && ListedOk(l, files)
      modifies this`offsets, this`rows
      ensures Valid() && count + |old(rows)| == |rows|
      ensures threw <==> exists k: nat :: Trips(l, k, fails, old(offsets), files)
      ensures !threw ==> Passed(l, |l.subagents| + 1, fails, old(offsets), offsets, files)
      ensures !threw ==> SessionDone(l, offsets, files)
      ensures forall p :: Done(old(offsets), files, p) ==> Done(offsets, files, p)
    {
      hide AllIngested, RowsOf, Done, Clean, ReadOut, Ingested, HasNews, OffsetOf, ReadOnce, OthersSame, Trips, Passed,
           Visited;
      count, threw := 0, false;
      if !l.readable {
        NothingVisited(l, fails, offsets, files);
        return;
      }
      OwnVisited(l);
      NonePassed(l, fails, offsets, files);
      count, threw := IngestFile(l.session, now[l.session], 0 in fails);
      StaysDone(old(offsets), offsets, files, l.session, old(rows), rows);
      PassedOne(l, 0, fails, old(offsets), old(offsets), offsets, files, old(rows), rows);
      if threw { return; }
      var i := 0;
      while i < |l.subagents|
        invariant 0 <= i <= |l.subagents| && Valid() && count + |old(rows)| == |rows| && !threw
        invariant Done(offsets, files, l.session)
        invariant forall k | 0 <= k < i && l.subagents[k].1 :: Done(offsets, files, l.subagents[k].0)
        invariant forall p :: Done(old(offsets), files, p) ==> Done(offsets, files, p)
        invariant Passed(l, i + 1, fails, old(offsets), offsets, files)
      {
        var (path, readable) := l.subagents[i];
        SubagentVisited(l, i, files);
        if readable {
          ghost var before, was := offsets, rows;
          var n;
          n, threw := IngestFile(path, now[path], i + 1 in fails);
          StaysDone(before, offsets, files, path, was, rows);
          PassedOne(l, i + 1, fails, old(offsets), before, offsets, files, was, rows);
          count := count + n;
          if threw { return; }
        } else {
          PassedOver(l, i + 1, fails, old(offsets), offsets, files);
        }
        i := i + 1;
      }
      PassedTripless(l, fails, old(offsets), offsets, files);
    }

    /** One pass over everything listed, the files being `later` by now. */
    method ScanTranscriptsOnce(later: map<Path, seq<Byte>>, listing: seq<Listed>, fails: seq<set<nat>>)
      returns (count: nat, finished: bool)
      requires Valid() && Appended(files, later) && |fails| == |listing|
               && forall l | l in listing :: ListedOk(l, later)
      modifies this
      ensures Valid() && files == later && count + |old(rows)| == |rows|
      ensures finished <==> forall i | 0 <= i < |listing| :: !TripsIn(listing, i, fails, old(offsets), files)
      ensures finished ==> PassedAll(listing, |listing|, fails, old(offsets), offsets, files)
      ensures finished ==> forall l | l in listing :: SessionDone(l, offsets, files)
    {
      AppendKeeps(rows, offsets, files, later, parse);
      files := later;
      hide AllIngested, ListedOk, Done, TripsIn, PassedAll, Passed, Trips;
      count, finished := 0, false;
      NoSessionPassed(listing, fails, offsets, files);
      var i := 0;
      while i < |listing|
        invariant 0 <= i <= |listing| && files == later && Valid() && count + |old(rows)| == |rows|
        invariant PassedAll(listing, i, fails, old(offsets), offsets, files)
        invariant forall k | 0 <= k < i :: SessionDone(listing[k], offsets, files)
      {
        ghost var before := offsets;
        TripsNow(listing, i, fails, old(offsets), offsets, files);
        var n, threw := VisitSession(listing[i], later, fails[i]);
        count := count + n;
        if threw { return; }
        PassedSession(listing, i, fails, old(offsets), before, offsets, files);
        i := i + 1;
      }
      finished := true;
      PassedNoTrip(listing, fails, old(offsets), offsets, files);
    }
  }

  lemma OwnVisited(l: Listed)
    requires l.readable
    ensures Visited(l, 0) && PathAt(l, 0) == l.session
  {
  }

  lemma SubagentVisited(l: Listed, i: nat, files: map<Path, seq<Byte>>)
    requires l.readable && i < |l.subagents| && ListedOk(l, files)
    ensures PathAt(l, i + 1) == l.subagents[i].0 && (Visited(l, i + 1) <==> l.subagents[i].1)
    ensures forall k: nat | k <= i + 1 && Visited(l, k) :: PathAt(l, k) in files
  {
  }

  /** An unreadable session has no position to visit. */
  lemma NothingVisited(l: Listed, fails: set<nat>, offsets: map<Path, nat>, files: map<Path, seq<Byte>>)
    requires !l.readable
    ensures Passed(l, |l.subagents| + 1, fails, offsets, offsets, files)
    ensures !exists k: nat :: Trips(l, k, fails, offsets, files)
  {
  }

  lemma PassedTripless(l: Listed, fails: set<nat>, before: map<Path, nat>, now: map<Path, nat>,
                       files: map<Path, seq<Byte>>)
    requires Passed(l, |l.subagents| + 1, fails, before, now, files)
    ensures !exists k: nat :: Trips(l, k, fails, before, files)
  {
  }

  lemma NoSessionPassed(listing: seq<Listed>, fails: seq<set<nat>>, offsets: map<Path, nat>,
                        files: map<Path, seq<Byte>>)
    requires |fails| == |listing|
    ensures PassedAll(listing, 0, fails, offsets, offsets, files)
  {
  }

  lemma PassedNoTrip(listing: seq<Listed>, fails: seq<set<nat>>, before: map<Path, nat>, now: map<Path, nat>,
                     files: map<Path, seq<Byte>>)
    requires |fails| == |listing| && PassedAll(listing, |listing|, fails, before, now, files)
    ensures forall i | 0 <= i < |listing| :: !TripsIn(listing, i, fails, before, files)
  {
  }

  ghost predicate ListedOk(l: Listed, files: map<Path, seq<Byte>>) {
    && (l.readable ==> l.session in files)
    && forall k | 0 <= k < |l.subagents| && l.subagents[k].1 :: l.subagents[k].0 in files
  }

  ghost predicate SessionDone(l: Listed, offsets: map<Path, nat>, files: map<Path, seq<Byte>>) {
    l.readable ==>
      && Done(offsets, files, l.session)
      && forall k | 0 <= k < |l.subagents| && l.subagents[k].1 :: Done(offsets, files, l.subagents[k].0)
  }

  /** A clean file that a finished pass has read holds each of its complete lines' usages once. */
  lemma DoneMeansAll(rows: seq<UsageRow>, offsets: map<Path, nat>, files: map<Path, seq<Byte>>, parse: Parser,
                     path: Path)
    requires AllIngested(rows, offsets, files, parse) && Done(offsets, files, path) && Clean(files[path])
    ensures var data := files[path]; RowsOf(rows, path) == UsagesOf(TextLines(data, 0, LineStart(data, |data|)), parse)
  {
    hide Clean, LineStart, TextLines, UsagesOf, RowsOf;
    assert Ingested(rows, path, files[path], OffsetOf(offsets, path), parse);
  }

  lemma NoUsages(rows: seq<UsageRow>, path: Path, parse: Parser)
    ensures RowsOf(rows, path) == RowsOf(rows, path) + UsagesOf([], parse)
  {
  }

  lemma OffsetNoted(offsets: map<Path, nat>, path: Path, newOffset: nat)
    ensures OffsetOf(offsets[path := newOffset], path) == newOffset
  {
  }

  /** Only what belongs to `path` may differ. */
  ghost predicate OthersSame(path: Path, before: map<Path, nat>, after: map<Path, nat>, rows: seq<UsageRow>,
                             more: seq<UsageRow>) {
    forall p | p != path :: OffsetOf(after, p) == OffsetOf(before, p) && RowsOf(more, p) == RowsOf(rows, p)
  }

  lemma OthersAreSame(path: Path, offsets: map<Path, nat>, newOffset: nat, rows: seq<UsageRow>, more: seq<UsageRow>)
    requires forall p | p != path :: RowsOf(more, p) == RowsOf(rows, p)
    ensures OthersSame(path, offsets, offsets[path := newOffset], rows, more)
    ensures OthersSame(path, offsets, offsets, rows, rows)
  {
  }

  /** A read that finds nothing new found the file read out, if it was right before. */
  lemma NothingRead(rows: seq<UsageRow>, path: Path, offsets: map<Path, nat>, files: map<Path, seq<Byte>>,
                    parse: Parser)
    requires AllIngested(rows, offsets, files, parse) && path in files
    requires ReadFrom(files[path], OffsetOf(offsets, path), [], OffsetOf(offsets, path))
    ensures Done(offsets, files, path) && OthersSame(path, offsets, offsets, rows, rows)
    ensures Ingested(rows, path, files[path], OffsetOf(offsets, path), parse) ==>
              (ReadOut(offsets, files, path) <==> Clean(files[path]))
  {
    hide Ingested, Clean, ReadFrom, LineStart, RowsOf;
    if Ingested(rows, path, files[path], OffsetOf(offsets, path), parse) {
      ReadKeeps(rows, rows, path, files[path], OffsetOf(offsets, path), [], OffsetOf(offsets, path), parse);
    }
  }

  lemma StaysDone(before: map<Path, nat>, after: map<Path, nat>, files: map<Path, seq<Byte>>, path: Path,
                  rows: seq<UsageRow>, more: seq<UsageRow>)
    requires OthersSame(path, before, after, rows, more)
    requires Done(after, files, path) || after == before
    ensures forall p :: Done(before, files, p) ==> Done(after, files, p)
  {
    hide Clean, RowsOf;
  }

  method AddUsages(rows: seq<UsageRow>, path: Path, lines: seq<JsString>, parse: Parser)
    returns (r: seq<UsageRow>, count: nat)
    ensures RowsOf(r, path) == RowsOf(rows, path) + UsagesOf(lines, parse)
    ensures forall p | p != path :: RowsOf(r, p) == RowsOf(rows, p)
    ensures count + |rows| == |r| && forall row | row in r :: row in rows || row.path == path
  {
    r, count := rows, 0;
    var i := 0;
    while i < |lines|
      invariant 0 <= i <= |lines| && count + |rows| == |r|
      invariant RowsOf(r, path) == RowsOf(rows, path) + UsagesOf(lines[..i], parse)
      invariant forall p | p != path :: RowsOf(r, p) == RowsOf(rows, p)
      invariant forall row | row in r :: row in rows || row.path == path
    {
      assert lines[..i + 1][..i] == lines[..i];
      var usage := parse(lines[i]);
      if usage.Some? {
        forall p
          ensures RowsOf(r + [UsageRow(path, usage.value)], p) == RowsOf(r, p) + if p == path then [usage.value] else []
        {
          RowAdded(r, UsageRow(path, usage.value), p);
        }
        r, count := r + [UsageRow(path, usage.value)], count + 1;
      }
      i := i + 1;
    }
    assert lines[..|lines|] == lines;
  }
}
