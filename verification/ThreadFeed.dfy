/** The thread feed: one poll-tail at a time over the pinned session's transcript, broadcast as numbered
    frames to the attached taps. Every await of the feed is a method of its own, so that attaching, detaching and
    throwing taps may fall between them. */
module ThreadFeed {
  import opened Options
  import opened LineTail
  import opened ThreadRing

  datatype Frame =
    | Snap(q: nat, attached: bool, events: seq<ThreadEvent>)
    | Events(q: nat, events: seq<ThreadEvent>)
    | State(q: nat)

  /** One client. `throwsOn` is the first frame, counted from 0, on which it throws, if any. */
  datatype Tap = Tap(throwsOn: Option<nat>, live: bool, got: seq<Frame>)

  /** What a client does with a frame: it starts its list over at a snapshot and appends every events frame. */
  function Absorbed(held: seq<ThreadEvent>, f: Frame): seq<ThreadEvent> {
    if f.Snap? then f.events else if f.Events? then held + f.events else held
  }

  /** The list a client has built. */
  function Held(got: seq<Frame>): seq<ThreadEvent> {
    if got == [] then [] else Absorbed(Held(got[..|got| - 1]), got[|got| - 1])
  }

  /** The first frame is a snapshot and the numbers rise by exactly one from there to `q`. */
  predicate Rising(got: seq<Frame>, q: nat) {
    && got != [] && got[0].Snap? && got[|got| - 1].q == q
    && forall i | 0 < i < |got| :: got[i].q == got[i - 1].q + 1
  }

  /** What a live client can rely on. */
  predicate TapOk(t: Tap, q: nat, ring: seq<ThreadEvent>) {
    t.live ==>
      && Rising(t.got, q) && IsSuffix(SnapshotOf(ring), Held(t.got))
      && (t.throwsOn.Some? ==> t.throwsOn.value >= |t.got|)
  }

  predicate TapsOk(taps: seq<Tap>, q: nat, ring: seq<ThreadEvent>) {
    forall i | 0 <= i < |taps| :: TapOk(taps[i], q, ring)
  }

  predicate AnyLive(taps: seq<Tap>) {
    exists i | 0 <= i < |taps| :: taps[i].live
  }

  function Told(t: Tap, f: Frame): Tap {
    t.(got := t.got + [f], live := t.throwsOn != Some(|t.got|))
  }

  function AllTold(taps: seq<Tap>, f: Frame): (r: seq<Tap>)
    ensures |r| == |taps|
    ensures forall i | 0 <= i < |r| :: r[i] == if taps[i].live then Told(taps[i], f) else taps[i]
  {
    seq(|taps|, i requires 0 <= i < |taps| => if taps[i].live then Told(taps[i], f) else taps[i])
  }

  method SendAll(taps: seq<Tap>, f: Frame) returns (r: seq<Tap>)
    ensures r == AllTold(taps, f)
  {
    r := taps;
    var i := 0;
    while i < |taps|
      invariant 0 <= i <= |taps| == |r|
      invariant forall k | 0 <= k < |r| :: r[k] == (if k < i then AllTold(taps, f) else taps)[k]
    {
      if taps[i].live { r := r[i := Told(taps[i], f)]; }
      i := i + 1;
    }
  }

  lemma HeldSnoc(got: seq<Frame>, f: Frame)
    ensures Held(got + [f]) == Absorbed(Held(got), f)
  {
    assert (got + [f])[..|got|] == got;
  }

  lemma RisingSnoc(got: seq<Frame>, q: nat, f: Frame)
    requires Rising(got, q) && f.q == q + 1
    ensures Rising(got + [f], q + 1)
  {
  }

  /** A snapshot frame brings any live client to exactly the current snapshot. */
  lemma SnapTold(t: Tap, q: nat, ring: seq<ThreadEvent>, attached: bool, ring': seq<ThreadEvent>)
    requires t.live && TapOk(t, q, ring)
    ensures TapOk(Told(t, Snap(q + 1, attached, SnapshotOf(ring'))), q + 1, ring')
  {
    hide Held, Rising, SnapshotOf;
    var f := Snap(q + 1, attached, SnapshotOf(ring'));
    HeldSnoc(t.got, f);
    RisingSnoc(t.got, q, f);
  }

  /** An events frame keeps a live client's list ending in the current snapshot. */
  lemma EventsTold(t: Tap, q: nat, ring: seq<ThreadEvent>, evs: seq<ThreadEvent>)
    requires t.live && TapOk(t, q, ring)
    ensures TapOk(Told(t, Events(q + 1, evs)), q + 1, Last(ring + evs, SNAPSHOT_MAX_EVENTS))
  {
    hide Held, Rising, SnapshotOf, IsSuffix, Last;
    HeldSnoc(t.got, Events(q + 1, evs));
    RisingSnoc(t.got, q, Events(q + 1, evs));
    ClientFollows(Held(t.got), ring, evs);
  }

  lemma StateTold(t: Tap, q: nat, ring: seq<ThreadEvent>)
    requires t.live && TapOk(t, q, ring)
    ensures TapOk(Told(t, State(q + 1)), q + 1, ring)
  {
    hide Held, Rising, SnapshotOf, IsSuffix;
    HeldSnoc(t.got, State(q + 1));
    RisingSnoc(t.got, q, State(q + 1));
  }

  lemma SnapKeeps(taps: seq<Tap>, q: nat, ring: seq<ThreadEvent>, attached: bool, ring': seq<ThreadEvent>)
    requires TapsOk(taps, q, ring)
    ensures TapsOk(AllTold(taps, Snap(q + 1, attached, SnapshotOf(ring'))), q + 1, ring')
  {
    var ts := AllTold(taps, Snap(q + 1, attached, SnapshotOf(ring')));
    forall i | 0 <= i < |ts|
      ensures TapOk(ts[i], q + 1, ring')
    {
      assert TapOk(taps[i], q, ring);
      if taps[i].live { SnapTold(taps[i], q, ring, attached, ring'); }
    }
  }

  lemma EventsKeep(taps: seq<Tap>, q: nat, ring: seq<ThreadEvent>, evs: seq<ThreadEvent>)
    requires TapsOk(taps, q, ring)
    ensures TapsOk(AllTold(taps, Events(q + 1, evs)), q + 1, Last(ring + evs, SNAPSHOT_MAX_EVENTS))
  {
    var ts := AllTold(taps, Events(q + 1, evs));
    forall i | 0 <= i < |ts|
      ensures TapOk(ts[i], q + 1, Last(ring + evs, SNAPSHOT_MAX_EVENTS))
    {
      assert TapOk(taps[i], q, ring);
      if taps[i].live { EventsTold(taps[i], q, ring, evs); }
    }
  }

  lemma StateKeeps(taps: seq<Tap>, q: nat, ring: seq<ThreadEvent>)
    requires TapsOk(taps, q, ring)
    ensures TapsOk(AllTold(taps, State(q + 1)), q + 1, ring)
  {
    var ts := AllTold(taps, State(q + 1));
    forall i | 0 <= i < |ts|
      ensures TapOk(ts[i], q + 1, ring)
    {
      assert TapOk(taps[i], q, ring);
      if taps[i].live { StateTold(taps[i], q, ring); }
    }
  }

  /** The events of some parsed lines, in order; a line that fails to parse yields none. */
  function Parsed(lines: seq<Line>, parse: Line -> seq<ThreadEvent>): seq<ThreadEvent> {
    if lines == [] then [] else Parsed(lines[..|lines| - 1], parse) + parse(lines[|lines| - 1])
  }

  lemma {:induction false} ParsedConcat(a: seq<Line>, b: seq<Line>, parse: Line -> seq<ThreadEvent>)
    ensures Parsed(a + b, parse) == Parsed(a, parse) + Parsed(b, parse)
  {
    if b == [] {
      assert a + b == a;
    } else {
      var n := |b| - 1;
      ParsedConcat(a, b[..n], parse);
      assert (a + b)[..|a + b| - 1] == a + b[..n];
    }
  }

  method ParseLines(lines: seq<Line>, parse: Line -> seq<ThreadEvent>) returns (evs: seq<ThreadEvent>)
    ensures evs == Parsed(lines, parse)
  {
    evs := [];
    var i := 0;
    while i < |lines|
      invariant 0 <= i <= |lines| && evs == Parsed(lines[..i], parse)
    {
      assert lines[..i + 1][..i] == lines[..i];
      evs := evs + parse(lines[i]);
      i := i + 1;
    }
    assert lines[..|lines|] == lines;
  }

  /** Where a running tick waits: for the bytes to seed a session with, for a stat of the followed file, for a
      range of it, or only for its own end. `epoch` is the feed's epoch when the tick began. */
  datatype Flight =
    | Seeding(epoch: nat, id: nat)
    | Statting(epoch: nat, id: nat)
    | Reading(epoch: nat, start: nat, length: nat, jump: bool)
    | Ending(epoch: nat)

  /** What stat returns: the file's identity and size. */
  datatype Stat = Stat(identity: nat, size: nat)

  /** What reading the seed came to. */
  datatype SeedRead = NoStat | NoRead(stat: Stat) | Got(stat: Stat, bytes: seq<Byte>)

  /** The ring holds the last events of the lines read since the session was attached, and the tailer has
      read them as the reference would. */
  ghost predicate FollowsFile(ring: seq<ThreadEvent>, tail: Tail, scan: Scan, parse: Line -> seq<ThreadEvent>) {
    && ring == Last(Parsed(scan.lines, parse), SNAPSHOT_MAX_EVENTS)
    && Tracks(tail, scan) && Unfinished(scan)
  }

  /** Bounding early loses nothing of the final bound. */
  lemma LastOfLast(all: seq<ThreadEvent>, more: seq<ThreadEvent>, n: nat)
    ensures Last(Last(all, n) + more, n) == Last(all + more, n)
  {
    if |all| > n {
      var d := |all| - n;
      assert Last(all, n) + more == (all + more)[d..];
      assert (all + more)[d..][|more|..] == (all + more)[d + |more|..];
    }
  }

  lemma FollowsOn(ring: seq<ThreadEvent>, tail: Tail, scan: Scan, parse: Line -> seq<ThreadEvent>, lines: seq<Line>,
                  tail': Tail, scan': Scan)
    requires FollowsFile(ring, tail, scan, parse)
    requires scan'.lines == scan.lines + lines && Tracks(tail', scan') && Unfinished(scan')
    ensures FollowsFile(Last(ring + Parsed(lines, parse), SNAPSHOT_MAX_EVENTS), tail', scan', parse)
  {
    hide Parsed, Tracks, Unfinished, Last, IsSuffix;
    ParsedConcat(scan.lines, lines, parse);
    LastOfLast(Parsed(scan.lines, parse), Parsed(lines, parse), SNAPSHOT_MAX_EVENTS);
  }

  /** A read that begins at `start`; from a position past 0 the first, possibly partial, line is not kept. */
  function FreshScan(start: nat): Scan { Begun(start, start > 0) }

  /** The bounded list of events a file's bytes from `start` on amount to. */
  function EventsFrom(start: nat, bytes: seq<Byte>, parse: Line -> seq<ThreadEvent>): seq<ThreadEvent> {
    Last(Parsed(Read(FreshScan(start), bytes).lines, parse), SNAPSHOT_MAX_EVENTS)
  }

  /** One read's worth of following: consume the chunk, parse its lines, bound the list. */
  method Advanced(ring: seq<ThreadEvent>, tail: Tail, ghost scan: Scan, chunk: seq<Byte>,
                  parse: Line -> seq<ThreadEvent>)
    returns (evs: seq<ThreadEvent>, tail': Tail)
    requires FollowsFile(ring, tail, scan, parse)
    ensures FollowsFile(Last(ring + evs, SNAPSHOT_MAX_EVENTS), tail', Read(scan, chunk), parse)
    ensures Parsed(Read(scan, chunk).lines, parse) == Parsed(scan.lines, parse) + evs
  {
    FollowsTracks(ring, tail, scan, parse);
    hide *;
    var lines;
    tail', lines := Consume(tail, chunk, scan);
    evs := ParseLines(lines, parse);
    FollowsOn(ring, tail, scan, parse, lines, tail', Read(scan, chunk));
    ParsedConcat(scan.lines, lines, parse);
  }

  method Seeded(start: nat, seed: seq<Byte>, parse: Line -> seq<ThreadEvent>)
    returns (ring: seq<ThreadEvent>, tail: Tail)
    ensures ring == EventsFrom(start, seed, parse)
    ensures FollowsFile(ring, tail, Read(FreshScan(start), seed), parse)
  {
    FollowsFresh(start, start > 0, parse);
    var evs;
    hide Read, Parsed, Tracks, Unfinished, Last, IsSuffix;
    evs, tail := Advanced([], Tail(start, [], start > 0), FreshScan(start), seed, parse);
    ring := PushRing([], evs);
  }

  class ThreadFeed {
    const parse: Line -> seq<ThreadEvent>
    const seedBytes: nat
    const maxReadBytes: nat
    var taps: seq<Tap>             // every tap ever attached
    var timer: bool
    var flight: Option<Flight>
    var epoch: nat
    var q: nat                     // feed-wide, +1 per emitted frame
    var currentId: Option<nat>
    var attached: bool
    var ring: seq<ThreadEvent>
    var tail: Tail
    var unreadable: bool
    var identity: Option<nat>
    ghost var scan: Scan           // what the reference has read since the session was attached

    /** The running tick, if any, is not from the future; if it is not stale somebody listens, and the range
        it is reading begins where the tailer stands, unless it skips ahead. */
    ghost predicate FlightOk()
      reads this
    {
      flight.Some? ==>
        && flight.value.epoch <= epoch
        && (flight.value.epoch == epoch ==>
              && AnyLive(taps)
              && (flight.value.Reading? ==>
                    if flight.value.jump then flight.value.start > tail.offset else flight.value.start == tail.offset))
    }

    ghost predicate Valid()
      reads this
    {
      && TapsOk(taps, q, ring) && FollowsFile(ring, tail, scan, parse) && FlightOk()
      && (timer <==> AnyLive(taps)) && (!timer ==> Forgotten())
    }

    /** The running tick began before the last time nobody listened. */
    predicate Stale()
      reads this
    {
      flight.Some? && flight.value.epoch != epoch
    }

    /** Nothing is left of the session. */
    ghost predicate Forgotten()
      reads this
    {
      !timer && ring == [] && currentId == None && !attached && identity == None
    }

    constructor (parse: Line -> seq<ThreadEvent>, seedBytes: nat, maxReadBytes: nat)
      ensures Valid() && taps == [] && flight == None && q == 0 && !timer && !unreadable
      ensures this.parse == parse && this.seedBytes == seedBytes && this.maxReadBytes == maxReadBytes
    {
      hide TapsOk, FollowsFile, AnyLive;
      NoneLive([], 0, []);
      FollowsFresh(0, false, parse);
      this.parse, this.seedBytes, this.maxReadBytes := parse, seedBytes, maxReadBytes;
      taps, timer, flight, epoch, q, currentId, attached := [], false, None, 0, 0, None, false;
      ring, tail, unreadable, identity, scan := [], Tail(0, [], false), false, None, Scan([], [], 0, false);
    }

    /** Once nobody listens the timer stops, the session is forgotten and a running tick becomes stale. */
    method StopIfIdle()
      requires TapsOk(taps, q, ring) && FollowsFile(ring, tail, scan, parse)
      modifies this`timer, this`epoch, this`ring, this`tail, this`scan, this`currentId, this`attached, this`unreadable,
               this`identity
      ensures TapsOk(taps, q, ring) && FollowsFile(ring, tail, scan, parse)
      ensures AnyLive(taps) ==> unchanged(this)
      ensures !AnyLive(taps) ==> Forgotten() && epoch == old(epoch) + 1 && !unreadable
    {
      hide TapsOk, FollowsFile;
      if AnyLive(taps) { return; }
      hide AnyLive;
      timer := false;
      epoch := epoch + 1;
      ring, tail, scan := [], Tail(0, [], false), Scan([], [], 0, false);
      currentId, attached, unreadable, identity := None, false, false, None;
      NoneLive(taps, q, ring);
      FollowsFresh(0, false, parse);
    }

    /** One frame to every live tap; those that throw are dropped. */
    method Broadcast(f: Frame)
      requires FollowsFile(ring, tail, scan, parse) && TapsOk(AllTold(taps, f), q, ring)
      modifies this`taps, this`timer, this`epoch, this`ring, this`tail, this`scan, this`currentId, this`attached,
               this`unreadable, this`identity
      ensures TapsOk(taps, q, ring) && FollowsFile(ring, tail, scan, parse)
      ensures taps == AllTold(old(taps), f)
      ensures AnyLive(taps) ==>
                unchanged(`timer, `epoch, `ring, `tail, `scan, `currentId, `attached, `unreadable, `identity)
      ensures !AnyLive(taps) ==> Forgotten() && epoch == old(epoch) + 1
    {
      hide TapsOk, FollowsFile, AnyLive;
      taps := SendAll(taps, f);
      StopIfIdle();
    }

    /** The synchronous commit of a session: reset, seed, publish. */
    method CommitSession(id: Option<nat>, ident: Option<nat>, seedStart: nat, seed: seq<Byte>)
      requires TapsOk(taps, q, ring)
      modifies this
      ensures TapsOk(taps, q, ring) && FollowsFile(ring, tail, scan, parse)
      ensures flight == old(flight) && q == old(q) + 1
      ensures taps == AllTold(old(taps), Snap(q, id.Some?, SnapshotOf(EventsFrom(seedStart, seed, parse))))
      ensures AnyLive(taps) ==>
                && epoch == old(epoch) && timer == old(timer) && currentId == id && identity == ident
                && attached == id.Some?
                && unreadable == old(unreadable) && scan == Read(FreshScan(seedStart), seed)
                && ring == EventsFrom(seedStart, seed, parse)
      ensures !AnyLive(taps) ==> Forgotten() && epoch == old(epoch) + 1
    {
      hide TapsOk, FollowsFile, AnyLive, Read, SnapshotOf, AllTold, EventsFrom, FreshScan;
      ghost var before := ring;
      currentId, identity, attached := id, ident, id.Some?;
      ring, tail := Seeded(seedStart, seed, parse);
      scan := Read(FreshScan(seedStart), seed);
      EmitSnap(before);
    }

    /** One snapshot frame to everyone; `before` is the list the clients knew. */
    method EmitSnap(ghost before: seq<ThreadEvent>)
      requires TapsOk(taps, q, before) && FollowsFile(ring, tail, scan, parse)
      modifies this`taps, this`q, this`timer, this`epoch, this`ring, this`tail, this`scan, this`currentId,
               this`attached, this`unreadable, this`identity
      ensures TapsOk(taps, q, ring) && FollowsFile(ring, tail, scan, parse)
      ensures q == old(q) + 1 && taps == AllTold(old(taps), Snap(q, old(attached), SnapshotOf(old(ring))))
      ensures AnyLive(taps) ==>
                unchanged(`timer, `epoch, `ring, `tail, `scan, `currentId, `attached, `unreadable, `identity)
      ensures !AnyLive(taps) ==> Forgotten() && epoch == old(epoch) + 1
    {
      hide TapsOk, FollowsFile, AnyLive, SnapshotOf, AllTold;
      var snapshot := SnapshotEvents(ring);
      SnapKeeps(taps, q, before, attached, ring);
      q := q + 1;
      Broadcast(Snap(q, attached, snapshot));
    }

    /** A tick begins, unless one is running or nobody listens. `session` is what resolving found;
        `resolveFails` that it threw. */
    method TickStart(session: Option<nat>, resolveFails: bool)
      requires Valid()
      modifies this
      ensures Valid()
      ensures old(flight).Some? || !old(timer) ==> unchanged(this)
      ensures old(flight) == None && old(timer) ==>
                flight == Some(if resolveFails || session == None then Ending(old(epoch))
                               else if session == old(currentId) then Statting(old(epoch), session.value)
                               else Seeding(old(epoch), session.value))
      ensures unreadable == old(unreadable) || resolveFails || (session == None && old(currentId).Some?)
      ensures old(flight) == None && old(timer) && resolveFails ==> unreadable
      ensures resolveFails || session.Some? || old(currentId) == None ==>
                unchanged(`taps, `timer, `epoch, `q, `currentId, `attached, `ring, `tail, `identity, `scan)
    {
      hide TapsOk, FollowsFile, AnyLive, FreshScan, EventsFrom, SnapshotOf;
      if flight.Some? || !timer { return; }
      if resolveFails {
        unreadable := true;
        flight := Some(Ending(epoch));
      } else if session == currentId {
        flight := Some(if session.Some? then Statting(epoch, session.value) else Ending(epoch));
      } else if session.Some? {
        flight := Some(Seeding(epoch, session.value));
      } else {
        flight := Some(Ending(epoch));
        CommitSession(None, None, 0, []);
      }
    }

    /** The seed has been read, or not. A stale tick commits nothing but the log flag `unreadable`, which tells
        whether the read failed: the feed is unchanged if and only if the flag said so already. Otherwise every tap
        gets one snapshot of the seed. If that is the end of the file `data`, it shows the last events of exactly the
        good lines that begin after the seed's first byte, or from the start if the seed is the whole file. */
    method SeedDone(read: SeedRead, ghost data: seq<Byte>)
      requires Valid() && flight.Some? && flight.value.Seeding?
      requires read.Got? ==> |read.bytes| <= read.stat.size && |read.bytes| <= seedBytes
      modifies this
      ensures Valid() && flight == Some(Ending(old(flight).value.epoch))
      ensures old(Stale()) ==>
                unchanged(`taps, `timer, `epoch, `q, `currentId, `attached, `ring, `tail, `identity, `scan)
      ensures old(Stale()) ==> unreadable == !read.Got?
      ensures old(Stale()) ==> (unchanged(`unreadable) <==> (read.Got? <==> !old(unreadable)))
      ensures !old(Stale()) ==>
                && q == old(q) + 1
                && taps == AllTold(old(taps),
                                   Snap(q, true,
                                        SnapshotOf(EventsFrom(SeedStart(read, seedBytes), SeedBytes(read), parse))))
                && (AnyLive(taps) ==> currentId == Some(old(flight).value.id) && attached && epoch == old(epoch))
                && (!AnyLive(taps) ==> Forgotten())
      ensures !old(Stale()) && AnyLive(taps) ==>
                unreadable == !read.Got? && identity == (if read.NoStat? then None else Some(read.stat.identity))
      ensures !old(Stale()) && IsSeed(read, data, seedBytes) ==>
                exists lines: seq<Line> ::
                  && GoodLines(lines, data, |data| - |read.bytes| + (if |read.bytes| < |data| then 1 else 0),
                               |data| - |read.bytes|, |data|)
                  && taps == AllTold(old(taps), Snap(q, true, SnapshotOf(Last(Parsed(lines, parse), 200))))
                  && (AnyLive(taps) ==>
                        tail.offset == |data| && InFile(scan, data) && ring == Last(Parsed(lines, parse), 200))
      ensures !old(Stale()) && !read.Got? ==>
                taps == AllTold(old(taps), Snap(q, true, [])) && (AnyLive(taps) ==> tail.offset == 0 && ring == [])
    {
      hide TapsOk, FollowsFile, AnyLive, FreshScan, EventsFrom, SnapshotOf, SeedStart, SeedBytes, AllTold, IsSeed,
           GoodLines, InFile, Read, Last, Parsed;
      SeedTells(read, data, seedBytes, parse);
      var stale := Stale();
      var id := flight.value.id;
      unreadable := !read.Got?;
      flight := Some(Ending(flight.value.epoch));
      if stale { return; }
      CommitSession(Some(id), if read.NoStat? then None else Some(read.stat.identity), SeedStart(read, seedBytes),
                    SeedBytes(read));
      FollowsOffset(ring, tail, scan, parse);
    }

    /** The followed file has been looked at; `None` means that stat threw. A file that was replaced or cut
        short is attached afresh. No frame is sent. A stale tick leaves the feed unchanged if and only if stat did not
        throw or the log flag was set already. */
    method StatDone(stat: Option<Stat>)
      requires Valid() && flight.Some? && flight.value.Statting?
      modifies this`flight, this`identity, this`unreadable
      ensures Valid() && flight.Some? && flight.value.epoch == old(flight).value.epoch
      ensures old(Stale()) ==>
                flight.value.Ending? && identity == old(identity) && unreadable == (old(unreadable) || stat == None)
      ensures old(Stale()) ==> (unchanged(`unreadable) <==> stat.Some? || old(unreadable))
      ensures !old(Stale()) && stat.Some? ==>
                var replaced := old(identity).Some? && old(identity) != Some(stat.value.identity);
                && identity == (if replaced then old(identity) else Some(stat.value.identity))
                && (flight.value.Seeding? <==> replaced || stat.value.size < tail.offset)
                && (flight.value.Ending? <==> !replaced && stat.value.size == tail.offset)
                && unreadable == (old(unreadable) && !flight.value.Ending?)
                && (flight.value.Reading? ==>
                      && flight.value.length ==
                         (if flight.value.jump then maxReadBytes else stat.value.size - tail.offset)
                      && flight.value.length <= maxReadBytes
                      && flight.value.start + flight.value.length == stat.value.size
                      && (flight.value.jump <==> stat.value.size - tail.offset > maxReadBytes))
      ensures stat == None ==> flight.value.Ending? && unreadable && identity == old(identity)
    {
      hide TapsOk, FollowsFile, AnyLive;
      var e, id := flight.value.epoch, flight.value.id;
      if stat == None {
        unreadable := true;
        flight := Some(Ending(e));
        return;
      }
      if Stale() {
        flight := Some(Ending(e));
        return;
      }
      var size := stat.value.size;
      if identity.Some? && identity != Some(stat.value.identity) {
        flight := Some(Seeding(e, id));
        return;
      }
      identity := Some(stat.value.identity);
      if size < tail.offset {
        flight := Some(Seeding(e, id));
      } else if size == tail.offset {
        unreadable := false;
        flight := Some(Ending(e));
      } else {
        var jump := size - tail.offset > maxReadBytes;
        var start := if jump then size - maxReadBytes else tail.offset;
        var end := if jump || size < tail.offset + maxReadBytes then size else tail.offset + maxReadBytes;
        flight := Some(Reading(e, start, end - start, jump));
      }
    }

    method PublishEvents(evs: seq<ThreadEvent>)
      requires TapsOk(taps, q, ring) && FollowsFile(Last(ring + evs, SNAPSHOT_MAX_EVENTS), tail, scan, parse)
      modifies this`taps, this`timer, this`epoch, this`q, this`ring, this`tail, this`scan, this`currentId,
               this`attached, this`unreadable, this`identity
      ensures TapsOk(taps, q, ring) && FollowsFile(ring, tail, scan, parse)
      ensures q == old(q) + 1 && taps == AllTold(old(taps), Events(q, evs))
      ensures AnyLive(taps) ==> unchanged(`timer, `epoch, `tail, `scan, `currentId, `attached, `unreadable, `identity)
      ensures !AnyLive(taps) ==> Forgotten() && epoch == old(epoch) + 1
    {
      hide TapsOk, FollowsFile, AnyLive, Last, AllTold;
      EventsKeep(taps, q, ring, evs);
      ring := PushRing(ring, evs);
      q := q + 1;
      Broadcast(Events(q, evs));
    }

    method TakeChunk(f: Flight, chunk: seq<Byte>) returns (evs: seq<ThreadEvent>)
      requires TapsOk(taps, q, ring) && FollowsFile(ring, tail, scan, parse) && AnyLive(taps) && f.Reading?
      modifies this`taps, this`timer, this`epoch, this`q, this`ring, this`tail, this`scan, this`currentId,
               this`attached, this`unreadable, this`identity
      ensures TapsOk(taps, q, ring) && FollowsFile(ring, tail, scan, parse)
      ensures Parsed(Read(Behind(old(scan), f), chunk).lines, parse) == Parsed(old(scan).lines, parse) + evs
      ensures if evs == [] then taps == old(taps) && q == old(q)
              else q == old(q) + 1 && taps == AllTold(old(taps), Events(q, evs))
      ensures AnyLive(taps) ==>
                && unchanged(`timer, `epoch, `currentId, `attached, `identity)
                && scan == Read(Behind(old(scan), f), chunk)
      ensures !AnyLive(taps) ==> Forgotten() && epoch == old(epoch) + 1
    {
      hide TapsOk, FollowsFile, AnyLive, Last, Read, AllTold, Parsed;
      unreadable := false;
      if f.jump {
        tail := Tail(f.start, [], true);
      }
      FollowsBehind(ring, old(tail), scan, parse, f.start, f.jump);
      RingBounded(ring, old(tail), scan, parse);
      scan := Behind(scan, f);
      evs, tail := Advanced(ring, tail, scan, chunk, parse);
      scan := Read(scan, chunk);
      if evs != [] { PublishEvents(evs); }
    }

    /** The range has been read; `None` means that reading threw. The events of the lines it completes go into the
        ring and out as one frame. A stale tick leaves the feed unchanged if and only if reading did not throw or the
        log flag was set already. If the range is one of the file `data`, and the tailer stands in it or skips ahead,
        the events are those of exactly the good lines that the range completes. */
    method ReadDone(chunk: Option<seq<Byte>>, ghost data: seq<Byte>) returns (evs: seq<ThreadEvent>)
      requires Valid() && flight.Some? && flight.value.Reading?
      requires chunk.Some? ==> |chunk.value| <= flight.value.length
      modifies this
      ensures Valid() && flight == Some(Ending(old(flight).value.epoch))
      ensures old(Stale()) || chunk == None ==>
                unchanged(`taps, `timer, `epoch, `q, `currentId, `attached, `ring, `tail, `identity, `scan)
      ensures old(Stale()) || chunk == None ==> unreadable == (old(unreadable) || chunk == None)
      ensures old(Stale()) ==> (unchanged(`unreadable) <==> chunk.Some? || old(unreadable))
      ensures !old(Stale()) && chunk.Some? ==>
                && Parsed(Read(Behind(old(scan), old(flight).value), chunk.value).lines, parse) ==
                   Parsed(old(scan).lines, parse) + evs
                && (evs == [] ==> taps == old(taps) && q == old(q))
                && (evs != [] ==> q == old(q) + 1 && taps == AllTold(old(taps), Events(q, evs)))
                && (AnyLive(taps) ==>
                    scan == Read(Behind(old(scan), old(flight).value), chunk.value) && currentId == old(currentId))
                && (!AnyLive(taps) ==> Forgotten())
      ensures !old(Stale()) && chunk.Some? && IsRange(old(flight).value, old(scan), chunk.value, data) ==>
                var start, end := old(flight).value.start, old(flight).value.start + |chunk.value|;
                && (exists lines: seq<Line> ::
                      && GoodLines(lines, data, if old(flight).value.jump then start + 1 else SeenFrom(old(scan)),
                                   start, end)
                      && evs == Parsed(lines, parse))
                && (AnyLive(taps) ==> tail.offset == end && InFile(scan, data))
    {
      hide TapsOk, FollowsFile, AnyLive, Read, AllTold, Parsed, Behind, IsRange, GoodLines, InFile, SeenFrom;
      FollowsTracks(ring, tail, scan, parse);
      var f := flight.value;
      flight := Some(Ending(f.epoch));
      evs := [];
      if chunk == None {
        unreadable := true;
      } else if f.epoch == epoch {
        evs := TakeChunk(f, chunk.value);
        RangeTells(f, old(scan), chunk.value, data, evs, parse);
        FollowsOffset(ring, tail, scan, parse);
      }
    }

    /** The tick is over; if the working state `changed` meanwhile and the tick is not stale, one frame says so. */
    method EndTick(changed: bool)
      requires Valid() && flight.Some? && flight.value.Ending?
      modifies this
      ensures Valid() && flight == None
      ensures changed && !old(Stale()) ==>
                && q == old(q) + 1 && taps == AllTold(old(taps), State(q))
                && (AnyLive(taps) ==> unchanged(`timer, `epoch, `currentId, `attached, `ring, `tail, `identity, `scan))
                && (!AnyLive(taps) ==> Forgotten())
      ensures !changed || old(Stale()) ==>
                unchanged(`taps, `timer, `epoch, `q, `currentId, `attached, `ring, `tail, `identity, `scan, `unreadable)
    {
      hide TapsOk, FollowsFile, AnyLive, AllTold;
      var stale := Stale();
      flight := None;
      if stale || !changed { return; }
      StateKeeps(taps, q, ring);
      q := q + 1;
      Broadcast(State(q));
    }

    /** A client attaches and gets the current snapshot at once; if it throws on it, nothing happened. The first
        one starts a tick and the timer (a tick that begins with nothing attached cannot stop the timer, so
        setting it first is the same). */
    method Attach(throwsOn: Option<nat>, session: Option<nat>, resolveFails: bool)
      requires Valid()
      modifies this
      ensures Valid() && unchanged(`q, `epoch, `ring, `tail, `scan, `currentId, `attached, `identity)
      ensures throwsOn == Some(0) ==> unchanged(this)
      ensures throwsOn != Some(0) ==>
                timer && taps == old(taps) + [Tap(throwsOn, true, [Snap(q, attached, SnapshotOf(ring))])]
      ensures old(timer) ==> flight == old(flight)
      ensures throwsOn != Some(0) && !old(timer) && old(flight) == None ==>
                flight == Some(if resolveFails || session == None then Ending(epoch) else Seeding(epoch, session.value))
      ensures unreadable ==
              (old(unreadable) || (resolveFails && throwsOn != Some(0) && !old(timer) && old(flight) == None))
    {
      hide TapsOk, FollowsFile, SnapshotOf;
      var snapshot := SnapshotEvents(ring);
      if throwsOn == Some(0) { return; }
      var tap := Tap(throwsOn, true, [Snap(q, attached, snapshot)]);
      Joins(taps, q, ring, tap);
      taps := taps + [tap];
      if !timer {
        timer := true;
        hide AnyLive;
        TickStart(session, resolveFails);
      }
    }

    /** A client leaves; the last one to leave stops the feed. */
    method Detach(i: nat)
      requires Valid() && i < |taps|
      modifies this
      ensures Valid() && unchanged(`q, `flight)
      ensures taps == old(taps)[i := old(taps)[i].(live := false)]
      ensures AnyLive(taps) ==>
                unchanged(`timer, `epoch, `ring, `tail, `scan, `currentId, `attached, `identity, `unreadable)
      ensures !AnyLive(taps) ==> Forgotten() && (flight.Some? ==> Stale()) && (old(AnyLive(taps)) ==> !unreadable)
    {
      hide TapsOk, FollowsFile;
      if !taps[i].live {
        assert taps[i := taps[i].(live := false)] == taps;
        return;
      }
      Leaves(taps, q, ring, i);
      taps := taps[i := taps[i].(live := false)];
      hide AnyLive;
      StopIfIdle();
    }
  }

  lemma OnlyOne(taps: seq<Tap>)
    requires |taps| == 1
    ensures AnyLive(taps) <==> taps[0].live
  {
  }

  /** A run in which a stale tick does change the feed: a client attaches, leaves while its session is being read, and
      then the read fails. Nobody listens and nothing is followed, yet the log flag is set. */
  method StaleTickSetsFlag(parse: Line -> seq<ThreadEvent>, id: nat) returns (before: bool, stale: bool, after: bool)
    ensures !before && stale && after
  {
    hide *;
    var feed := new ThreadFeed(parse, 0, 0);
    feed.Attach(None, Some(id), false);
    OnlyOne(feed.taps);
    feed.Detach(0);
    OnlyOne(feed.taps);
    before, stale := feed.unreadable, feed.Stale();
    feed.SeedDone(NoStat, []);
    after := feed.unreadable;
  }

  function SeedStart(read: SeedRead, seedBytes: nat): nat {
    if read.Got? && read.stat.size > seedBytes then read.stat.size - seedBytes else 0
  }

  function SeedBytes(read: SeedRead): seq<Byte> { if read.Got? then read.bytes else [] }

  /** The bytes read are the end of the file, `seedBytes` long, or the whole file if it is no longer. */
  ghost predicate IsSeed(read: SeedRead, data: seq<Byte>, seedBytes: nat) {
    && read.Got? && read.stat.size == |data| && |read.bytes| == (if |data| <= seedBytes then |data| else seedBytes)
    && read.bytes == data[|data| - |read.bytes|..]
  }

  /** What a seed amounts to. */
  lemma SeedTells(read: SeedRead, data: seq<Byte>, seedBytes: nat, parse: Line -> seq<ThreadEvent>)
    ensures var evs, scan := EventsFrom(SeedStart(read, seedBytes), SeedBytes(read), parse),
                             Read(FreshScan(SeedStart(read, seedBytes)), SeedBytes(read));
            && (IsSeed(read, data, seedBytes) ==>
                  && scan.at == |data| && InFile(scan, data)
                  && exists lines: seq<Line> ::
                       && GoodLines(lines, data, |data| - |read.bytes| + (if |read.bytes| < |data| then 1 else 0),
                                    |data| - |read.bytes|, |data|)
                       && evs == Last(Parsed(lines, parse), 200))
            && (!read.Got? ==> scan.at == 0 && evs == [] && SnapshotOf(evs) == [])
  {
    if IsSeed(read, data, seedBytes) {
      hide GoodLines, Parsed, Last;
      var s := FreshScan(SeedStart(read, seedBytes));
      assert s.at == |data| - |read.bytes| && data[s.at..s.at + |read.bytes|] == read.bytes && data[s.at..s.at] == [];
      var lines := ChunkGoodLines(s, data, read.bytes);
      assert [] + lines == lines;
    }
  }

  /** The range read is one of the file, and the tailer stands in it or skips ahead. */
  ghost predicate IsRange(f: Flight, scan: Scan, chunk: seq<Byte>, data: seq<Byte>)
    requires f.Reading?
  {
    && f.start + |chunk| <= |data| && chunk == data[f.start..f.start + |chunk|]
    && (f.jump || (InFile(scan, data) && scan.at == f.start))
  }

  /** What a range amounts to. */
  lemma RangeTells(f: Flight, scan: Scan, chunk: seq<Byte>, data: seq<Byte>, evs: seq<ThreadEvent>,
                   parse: Line -> seq<ThreadEvent>)
    requires f.Reading? && Unfinished(scan)
    requires Parsed(Read(Behind(scan, f), chunk).lines, parse) == Parsed(scan.lines, parse) + evs
    ensures var r := Read(Behind(scan, f), chunk);
            IsRange(f, scan, chunk, data) ==>
              && r.at == f.start + |chunk| && InFile(r, data)
              && exists lines: seq<Line> ::
                   && GoodLines(lines, data, if f.jump then f.start + 1 else SeenFrom(scan), f.start, f.start + |chunk|)
                   && evs == Parsed(lines, parse)
  {
    if IsRange(f, scan, chunk, data) {
      hide GoodLines, Parsed, Read;
      var s := Behind(scan, f);
      assert f.jump ==> data[s.at..s.at] == [];
      var lines := ChunkGoodLines(s, data, chunk);
      ParsedConcat(scan.lines, lines, parse);
      SameRest(Parsed(scan.lines, parse), evs, Parsed(lines, parse));
    }
  }

  lemma SameRest(a: seq<ThreadEvent>, b: seq<ThreadEvent>, c: seq<ThreadEvent>)
    requires a + b == a + c
    ensures b == c
  {
    assert b == (a + b)[|a|..] && c == (a + c)[|a|..];
  }

  lemma FollowsOffset(ring: seq<ThreadEvent>, tail: Tail, scan: Scan, parse: Line -> seq<ThreadEvent>)
    requires FollowsFile(ring, tail, scan, parse)
    ensures tail.offset == scan.at
  {
  }

  /** Skipping ahead gives up the unfinished line and begins inside another. */
  function Behind(scan: Scan, f: Flight): Scan
    requires f.Reading?
  {
    if f.jump then Scan(scan.lines, [], f.start, true) else scan
  }

  lemma FollowsBehind(ring: seq<ThreadEvent>, tail: Tail, scan: Scan, parse: Line -> seq<ThreadEvent>, start: nat,
                      jump: bool)
    requires FollowsFile(ring, tail, scan, parse)
    ensures jump ==> FollowsFile(ring, Tail(start, [], true), Scan(scan.lines, [], start, true), parse)
  {
  }

  lemma Joins(taps: seq<Tap>, q: nat, ring: seq<ThreadEvent>, tap: Tap)
    requires TapsOk(taps, q, ring) && tap.live && tap.throwsOn != Some(0)
    requires |tap.got| == 1 && tap.got[0].Snap? && tap.got[0].q == q && tap.got[0].events == SnapshotOf(ring)
    ensures TapsOk(taps + [tap], q, ring) && AnyLive(taps + [tap])
  {
    hide SnapshotOf;
    assert tap.got[..0] == [];
    assert (taps + [tap])[|taps|].live;
    assert Held(tap.got) == SnapshotOf(ring);
  }

  lemma Leaves(taps: seq<Tap>, q: nat, ring: seq<ThreadEvent>, i: nat)
    requires TapsOk(taps, q, ring) && i < |taps| && taps[i].live
    ensures TapsOk(taps[i := taps[i].(live := false)], q, ring) && AnyLive(taps)
  {
    var left := taps[i := taps[i].(live := false)];
    forall k | 0 <= k < |left|
      ensures TapOk(left[k], q, ring)
    {
      hide Rising, Held, SnapshotOf, IsSuffix;
      assert TapOk(taps[k], q, ring);
    }
  }

  lemma NoneLive(taps: seq<Tap>, q: nat, ring: seq<ThreadEvent>)
    requires taps == [] || !AnyLive(taps)
    ensures TapsOk(taps, q, ring) && !AnyLive(taps)
  {
    forall i | 0 <= i < |taps|
      ensures TapOk(taps[i], q, ring)
    {
      assert !taps[i].live;
    }
  }

  lemma FollowsFresh(base: nat, torn: bool, parse: Line -> seq<ThreadEvent>)
    ensures FollowsFile([], Tail(base, [], torn), Scan([], [], base, torn), parse)
  {
  }

  lemma FollowsTracks(ring: seq<ThreadEvent>, tail: Tail, scan: Scan, parse: Line -> seq<ThreadEvent>)
    requires FollowsFile(ring, tail, scan, parse)
    ensures Tracks(tail, scan) && Unfinished(scan)
  {
  }

  lemma RingBounded(ring: seq<ThreadEvent>, tail: Tail, scan: Scan, parse: Line -> seq<ThreadEvent>)
    requires FollowsFile(ring, tail, scan, parse)
    ensures Last(ring + [], SNAPSHOT_MAX_EVENTS) == ring
  {
    assert ring + [] == ring;
  }
}
