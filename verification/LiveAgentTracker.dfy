/** The live tracker: one pinned transcript tailed by serialized asynchronous ticks, with a generation that a
    respawn bumps so that a tick it overtakes writes nothing. Every await is a method of its own. */
module LiveAgentTracker {
  import opened Options
  import opened LineTail
  import opened TranscriptTailer
  import opened Utf16
  import opened Utf8

  type FileId = nat

  datatype Tokens = Tokens(cacheRead: nat, input: nat)

  /** The tokens of one line, zero if it carries no usage. */
  type Count = JsString -> Tokens

  function SumOf(lines: seq<JsString>, count: Count): Tokens {
    if lines == [] then Tokens(0, 0)
    else
      var n := |lines| - 1;
      var s, t := SumOf(lines[..n], count), count(lines[n]);
      Tokens(s.cacheRead + t.cacheRead, s.input + t.input)
  }

  lemma SumSnoc(lines: seq<JsString>, line: JsString, count: Count)
    ensures SumOf(lines + [line], count)
            == Tokens(SumOf(lines, count).cacheRead + count(line).cacheRead,
                      SumOf(lines, count).input + count(line).input)
  {
    assert (lines + [line])[..|lines|] == lines;
  }

  /** The running sums after some more lines. */
  method AddTokens(sums: Tokens, lines: seq<JsString>, count: Count, ghost fed: seq<JsString>) returns (r: Tokens)
    requires sums == SumOf(fed, count)
    ensures r == SumOf(fed + lines, count)
  {
    r := sums;
    assert fed + lines[..0] == fed;
    var i := 0;
    while i < |lines|
      invariant 0 <= i <= |lines| && r == SumOf(fed + lines[..i], count)
    {
      SumSnoc(fed + lines[..i], lines[i], count);
      assert fed + lines[..i] + [lines[i]] == fed + lines[..i + 1];
      var t := count(lines[i]);
      r := Tokens(r.cacheRead + t.cacheRead, r.input + t.input);
      i := i + 1;
    }
    assert lines[..|lines|] == lines;
  }

  /** What is remembered of the session: `fed` are the lines handed to the open-dispatch, open-work and history
      folds since they were last reset. */
  datatype Session = Session(spawnedAt: Option<int>, sessionId: Option<nat>, pinned: Option<FileId>, offset: nat,
                             fed: seq<JsString>, sums: Tokens)

  function Blank(spawnedAt: Option<int>, sessionId: Option<nat>, pinned: Option<FileId>): Session {
    Session(spawnedAt, sessionId, pinned, 0, [], Tokens(0, 0))
  }

  /** Where the running tick waits, and the generation it began in. */
  datatype Run = Finding(gen: nat) | Reading(gen: nat, file: FileId, offset: nat) | Scanning(gen: nat, file: FileId)

  /** The sums are those of what the folds saw. That is exactly the lines of the pinned file before the offset, each
      once, if decoding keeps the length of the file's lines. */
  ghost predicate SessionOk(s: Session, files: map<FileId, seq<Byte>>, count: Count) {
    && s.sums == SumOf(s.fed, count)
    && (s.pinned == None ==> s.offset == 0 && s.fed == [])
    && (s.pinned.Some? ==>
          && s.pinned.value in files
          && (Clean(files[s.pinned.value]) ==> FedTo(s.fed, files[s.pinned.value], s.offset)))
  }

  /** Reading came as far as `offset`, and what was fed is every line before it. */
  ghost predicate FedTo(fed: seq<JsString>, data: seq<Byte>, offset: nat) {
    RightAt(data, offset) && fed == TextLines(data, 0, offset)
  }

  /** A tick of the current generation finds the session as it left it. */
  predicate RunOk(r: Run, s: Session, generation: nat) {
    && r.gen <= generation
    && (r.gen == generation ==>
          match r
          case Finding(_) => s.pinned == None
          case Reading(_, file, offset) => s.pinned == Some(file) && s.offset == offset
          case Scanning(_, file) => s.pinned == Some(file) && s.sessionId.Some?)
  }

  ghost predicate Appended(files: map<FileId, seq<Byte>>, later: map<FileId, seq<Byte>>) {
    forall f | f in files :: f in later && files[f] <= later[f]
  }

  lemma SessionLater(s: Session, files: map<FileId, seq<Byte>>, later: map<FileId, seq<Byte>>, count: Count)
    requires SessionOk(s, files, count) && Appended(files, later)
    ensures SessionOk(s, later, count)
  {
    hide Clean, TextLines, KeepsLength;
    if s.pinned.Some? && Clean(later[s.pinned.value]) {
      CleanBefore(files[s.pinned.value], later[s.pinned.value]);
      RightStays(files[s.pinned.value], later[s.pinned.value], s.offset);
    }
  }

  /** A read of the pinned file, or of what it was at some moment, feeds the lines it completes. It leaves the offset
      right if and only if decoding keeps the length of the lines read so far. */
  lemma Advanced(fed: seq<JsString>, data: seq<Byte>, now: seq<Byte>, offset: nat, lines: seq<JsString>, newOffset: nat)
    requires FedTo(fed, now, offset) && data <= now && ReadFrom(data, offset, lines, newOffset)
    ensures offset <= |data| ==> (newOffset == LineStart(data, |data|) <==> Clean(data))
    ensures Clean(now) ==> FedTo(fed + lines, now, newOffset)
    ensures offset > |data| ==> lines == [] && newOffset == offset
  {
    hide Clean, RightAt, TextLines, LineStart, ReadMakes;
    if offset <= |data| {
      RightStays(data, now, offset);
      hide ReadFrom;
      ReadRight(data, offset, lines, newOffset);
      if Clean(now) {
        CleanBefore(data, now);
        StartWithin(data);
        RightStays(data, now, newOffset);
      }
    } else {
      assert fed + [] == fed;
    }
  }

  lemma StartWithin(data: seq<Byte>)
    ensures LineStart(data, |data|) <= |data|
  {
  }

  class LiveAgentTracker {
    const count: Count
    const scanInterval: nat
    var generation: nat
    var session: Session
    var lastScan: int
    var running: Option<Run>
    var waiting: nat                          // ticks asked for behind the running one
    ghost var files: map<FileId, seq<Byte>>

    ghost predicate Valid()
      reads this
    {
      && SessionOk(session, files, count)
      && (running.Some? ==> RunOk(running.value, session, generation)) && (waiting > 0 ==> running.Some?)
    }

    /** The running tick began before the latest respawn. */
    predicate Stale()
      reads this
    {
      running.Some? && running.value.gen != generation
    }

    constructor (count: Count, scanInterval: nat)
      ensures Valid() && running == None && session == Blank(None, None, None) && files == map[]
      ensures this.count == count && this.scanInterval == scanInterval && lastScan == 0 && generation == 0
    {
      this.count, this.scanInterval := count, scanInterval;
      generation, session, lastScan, running, waiting, files := 0, Blank(None, None, None), 0, None, 0, map[];
    }

    /** Files only grow. */
    ghost method FilesGrow(later: map<FileId, seq<Byte>>)
      requires Valid() && Appended(files, later)
      modifies this`files
      ensures Valid() && files == later
    {
      SessionLater(session, files, later, count);
      files := later;
    }

    /** The app respawned the terminal: a running tick becomes stale, the session starts over. */
    method NotifyPtySpawned(at: int, sessionId: Option<nat>)
      requires Valid()
      modifies this`generation, this`session, this`lastScan
      ensures Valid() && generation == old(generation) + 1 && session == Blank(Some(at), sessionId, None)
      ensures running.Some? ==> Stale()
    {
      generation, lastScan, session := generation + 1, 0, Blank(Some(at), sessionId, None);
    }

    /** A tick is asked for; it runs now or waits behind the others. */
    method Tick()
      requires Valid()
      modifies this`running, this`waiting
      ensures Valid()
      ensures old(running).Some? ==> running == old(running) && waiting == old(waiting) + 1
      ensures old(running) == None ==> running == NextRun() && waiting == 0
    {
      if running.Some? {
        waiting := waiting + 1;
      } else {
        Begin();
      }
    }

    /** What a tick that runs now does first: it reads on in the pinned file, or looks for one if the terminal was
        spawned. */
    ghost function NextRun(): (r: Option<Run>)
      reads this
      ensures session.pinned.Some? ==> r == Some(Reading(generation, session.pinned.value, session.offset))
      ensures session.pinned == None && session.spawnedAt.Some? ==> r == Some(Finding(generation))
      ensures session.pinned == None && session.spawnedAt == None ==> r == None
    {
      if session.pinned.Some? then Some(Reading(generation, session.pinned.value, session.offset))
      else if session.spawnedAt.Some? then Some(Finding(generation)) else None
    }

    /** Begins one run, as far as its first await; without a spawn there is nothing to do. */
    method Begin()
      requires Valid() && running == None && waiting == 0
      modifies this`running
      ensures Valid()
      ensures running == NextRun() && (running.Some? ==> running.value.gen == generation)
    {
      if session.pinned.Some? {
        running := Some(Reading(generation, session.pinned.value, session.offset));
      } else if session.spawnedAt.Some? {
        running := Some(Finding(generation));
      }
    }

    /** The run is over; the next waiting one begins. A waiting tick with nothing to do is over at once. */
    method Finish()
      requires SessionOk(session, files, count) && running.Some?
      modifies this`running, this`waiting
      ensures Valid()
      ensures running.Some? ==> running.value.gen == generation && waiting == old(waiting) - 1
      ensures running == if old(waiting) > 0 then NextRun() else None
    {
      var n := waiting;
      running, waiting := None, 0;
      if n > 0 {
        Begin();
        if running.Some? { waiting := n - 1; }
      }
    }

    /** The search for the session's file ends; `failed`: it threw. */
    method FindDone(found: Option<FileId>, failed: bool)
      requires Valid() && running.Some? && running.value.Finding? && (found.Some? ==> found.value in files)
      modifies this`session, this`running, this`waiting
      ensures Valid()
      ensures old(Stale()) || failed || found == None ==>
                session == old(session) && running == if old(waiting) > 0 then NextRun() else None
      ensures !(old(Stale()) || failed || found == None) ==>
                && session == Blank(old(session).spawnedAt, old(session).sessionId, found)
                && running == Some(Reading(generation, found.value, 0)) && waiting == old(waiting)
    {
      if failed || running.value.gen != generation || found == None {
        Finish();
        return;
      }
      session := session.(pinned := found, offset := 0);
      running := Some(Reading(generation, found.value, 0));
    }

    /** The read of the pinned file ends; `bytes` is the file as it was when it was read; `failed`: it threw. From a
        right offset it is right again if and only if decoding keeps the length of the lines read. */
    method ReadDone(bytes: seq<Byte>, failed: bool, now: int)
      requires Valid() && running.Some? && running.value.Reading?
      requires running.value.file in files && bytes <= files[running.value.file]
      modifies this`session, this`running, this`waiting, this`lastScan
      ensures Valid()
      ensures old(Stale()) || failed ==>
                && session == old(session) && lastScan == old(lastScan)
                && running == if old(waiting) > 0 then NextRun() else None
      ensures !old(Stale()) && !failed ==>
                if session.sessionId.Some? && now - old(lastScan) >= scanInterval
                then session.pinned.Some? && running == Some(Scanning(generation, session.pinned.value))
                     && lastScan == now
                else running == (if old(waiting) > 0 then NextRun() else None) && lastScan == old(lastScan)
      ensures !old(Stale()) && !failed ==>
                exists lines: seq<JsString>, newOffset: nat ::
                  && ReadFrom(bytes, old(running).value.offset, lines, newOffset)
                  && session.fed == old(session).fed + lines && session.offset == newOffset
      ensures !old(Stale()) && !failed ==>
                && session == old(session).(offset := session.offset, fed := session.fed, sums := session.sums)
                && old(session).fed <= session.fed
                && (FedTo(old(session).fed, bytes, old(session).offset) ==>
                      && (session.offset == LineStart(bytes, |bytes|) <==> Clean(bytes))
                      && (Clean(bytes) ==> session.fed == TextLines(bytes, 0, LineStart(bytes, |bytes|))))
    {
      hide FedTo, Clean, LineStart, ReadFrom, SumOf;
      var r := running.value;
      if failed || r.gen != generation {
        Finish();
        return;
      }
      var lines, newOffset := ReadNewLines(bytes, r.offset);
      ReadKeeps(session.fed, bytes, files[r.file], r.offset, lines, newOffset);
      if lines == [] {
        NoneNoMove(bytes, r.offset, lines, newOffset);
        assert session.fed + lines == session.fed;
      } else {
        var sums := AddTokens(session.sums, lines, count, session.fed);
        session := session.(offset := newOffset, fed := session.fed + lines, sums := sums);
      }
      StartScan(now);
    }

    /** After the read, perhaps a scan for a successor of the pinned file. */
    method StartScan(now: int)
      requires SessionOk(session, files, count) && running.Some? && running.value.gen == generation
               && session.pinned.Some?
      modifies this`running, this`waiting, this`lastScan
      ensures Valid()
      ensures if session.sessionId.Some? && now - old(lastScan) >= scanInterval
              then running == Some(Scanning(generation, session.pinned.value)) && lastScan == now
              else running == (if old(waiting) > 0 then NextRun() else None) && lastScan == old(lastScan)
    {
      if session.sessionId == None || now - lastScan < scanInterval {
        Finish();
        return;
      }
      lastScan := now;
      running := Some(Scanning(generation, session.pinned.value));
    }

    /** The scan ends. A successor takes the pin and everything starts over on it, in the same generation. */
    method ScanDone(next: Option<FileId>, failed: bool)
      requires Valid() && running.Some? && running.value.Scanning? && (next.Some? ==> next.value in files)
      modifies this`session, this`running, this`waiting
      ensures Valid()
      ensures var moves := !old(Stale()) && !failed && next.Some? && next != old(session).pinned;
              session == if moves then Blank(old(session).spawnedAt, old(session).sessionId, next) else old(session)
      ensures running == if old(waiting) > 0 then NextRun() else None
    {
      if !failed && running.value.gen == generation && next.Some? && next != session.pinned {
        session := Blank(session.spawnedAt, session.sessionId, next);
      }
      Finish();
    }
  }

  lemma ReadKeeps(fed: seq<JsString>, data: seq<Byte>, now: seq<Byte>, offset: nat, lines: seq<JsString>,
                  newOffset: nat)
    requires data <= now && ReadFrom(data, offset, lines, newOffset)
    ensures FedTo(fed, now, offset) && Clean(now) ==> FedTo(fed + lines, now, newOffset)
    ensures FedTo(fed, data, offset) ==>
              && (newOffset == LineStart(data, |data|) <==> Clean(data))
              && (Clean(data) ==> fed + lines == TextLines(data, 0, LineStart(data, |data|)))
  {
    hide Clean, RightAt, TextLines, LineStart, ReadFrom;
    if FedTo(fed, now, offset) { Advanced(fed, data, now, offset, lines, newOffset); }
    if FedTo(fed, data, offset) { ReadRight(data, offset, lines, newOffset); }
  }
}
