/** One terminal as a whole: the slot that numbers what its pty prints, and the read side that hears every event the
    moment the slot reports it. */
module LiveTerminal {
  import opened Options
  import opened Utf16
  import opened SlotEvents
  import opened TerminalRing
  import opened TerminalHub
  import opened TerminalSlot
  import opened MirroredSlot
  import Mirrors = TerminalMirror

  /** Pieces of a split are never empty. */
  lemma PiecesHoldText(pieces: seq<JsString>, data: JsString)
    requires IsSplit(pieces, data, CHUNK_MAX_BYTES)
    ensures Flatten(pieces) == data && (forall k | 0 <= k < |pieces| :: pieces[k] != [])
            && (data == [] ==> pieces == [])
  {
    NothingFromNothing(pieces, data, CHUNK_MAX_BYTES);
    hide CutOk;
    forall k | 0 <= k < |pieces|
      ensures pieces[k] != []
    {
      assert PieceOk(pieces[k], CHUNK_MAX_BYTES);
    }
  }

  /** What `pieces` add to the log can be added piece by piece. */
  lemma OnePieceMore(h: History, pieces: seq<JsString>, n: nat)
    requires n < |pieces|
    ensures WithOutput(h, pieces[..n + 1]) == Then(WithOutput(h, pieces[..n]), Out(h.LastQ() + n + 1, pieces[n]))
  {
    assert pieces[..n + 1][..n] == pieces[..n];
  }

  /** What a client that waits for nothing has been told: its join, and from there on everything. */
  ghost predicate Told(t: Tap, h: History, text: JsString, lastQ: nat) {
    var base := At(h, t.from);
    && JoinOk(t.join, h, t.from)
    && text == base.Text() + FrameText(t.delivered)
    && Numbers(t.delivered) == Run(if t.join.Snapped? then base.LastQ() else base.LastQ() + 1, lastQ)
    && (t.join.Resumed? ==> base.LastQ() == t.join.lastQ)
    && (t.join.Snapped? && t.join.frame.screen.ScreenOf? ==>
          && t.join.born <= t.from
          && text == At(h, t.join.born).Text() + WrittenBy(t.join.frame.screen.ops) + FrameText(t.delivered))
  }

  /** The mirror began with the size the terminal had then. */
  ghost predicate BornAt(b: MirrorBox, h: History) {
    b.born <= h.Len() && (b.cols, b.rows) == At(h, b.born).Dims() && b.cols > 0 && b.rows > 0
  }

  ghost predicate Born(boxes: seq<MirrorBox>, h: History) {
    forall k | 0 <= k < |boxes| :: BornAt(boxes[k], h)
  }

  lemma OneBornOn(b: MirrorBox, after: MirrorBox, h: History, e: SlotEvent)
    requires BornAt(b, h) && (after.cols, after.rows, after.born) == (b.cols, b.rows, b.born)
    ensures BornAt(after, Then(h, e)) && BornAt(after, h)
  {
  }

  lemma BornOn(before: seq<MirrorBox>, after: seq<MirrorBox>, h: History, e: SlotEvent)
    requires Born(before, h) && SameBirths(before, after) && |after| == |before|
    ensures Born(after, Then(h, e)) && Born(after, h)
  {
    hide BornAt;
    forall k | 0 <= k < |after|
      ensures BornAt(after[k], Then(h, e)) && BornAt(after[k], h)
    {
      OneBornOn(before[k], after[k], h, e);
    }
  }

  lemma OneBorn(b: MirrorBox, h: History)
    requires b.born == h.Len() && (b.cols, b.rows) == h.Dims() && ValidDims(b.cols, b.rows)
    ensures BornAt(b, h)
  {
    AtEnd(h);
  }

  lemma BornMade(before: seq<MirrorBox>, after: seq<MirrorBox>, h: History, info: Info)
    requires Born(before, h) && Births(before, after, info, h.Len()) && (info.cols, info.rows) == h.Dims()
    ensures Born(after, h)
  {
    hide BornAt, At, Feed, ValidDims;
    forall k | 0 <= k < |after|
      ensures BornAt(after[k], h)
    {
      if k < |before| { OneBornOn(before[k], after[k], h, State(Running)); } else { OneBorn(after[k], h); }
    }
  }

  /** What a waiting client is handed first: if its mirror answered, the screen with all the text since the mirror was
      made, of the size the terminal had when the client attached; otherwise an empty screen of the present size. */
  ghost predicate Shows(d: seq<Delivery>, t: Tap, b: MirrorBox, answer: Mirrors.Answer, h: History) {
    var base := At(h, t.from);
    && d != [] && d <= [d[0]] + t.held && d[0].SnapFrame? && d[0].q == base.LastQ()
    && (if answer.Shown? then
          && (d[0].cols, d[0].rows) == base.Dims() && d[0].screen == ScreenOf(b.cols, b.rows, t.asked)
          && base.Text() == At(h, b.born).Text() + WrittenBy(t.asked)
        else d[0].screen == NoScreen && (d[0].cols, d[0].rows) == h.Dims())
  }

  lemma {:induction false} SizedBefore(h: History, n: nat)
    requires h.Sized()
    ensures At(h, n).Sized()
  {
    if h.Len() > n { SizedBefore(h.before, n); }
  }

  /** A waiting client's mirror was asked for everything since it was made. */
  lemma AskedForAll(taps: seq<Tap>, boxes: seq<MirrorBox>, h: History, gen: nat, id: nat)
    requires TapsOk(taps, boxes, h, gen) && Born(boxes, h) && h.Sized()
    requires id < |taps| && taps[id].registered && taps[id].pending
    ensures var t := taps[id];
            && t.box < |boxes| && t.from <= h.Len() && t.snapQ == At(h, t.from).LastQ()
            && var b, base := boxes[t.box], At(h, t.from);
               && base.Text() == At(h, b.born).Text() + WrittenBy(t.asked)
               && SizeAfter(b.cols, b.rows, t.asked) == base.Dims() && base.Dims().0 > 0
  {
    var t := taps[id];
    assert TapOk(id, t, boxes, h, gen);
    hide Feed, SizeAfter, WrittenBy, OpsSince, NoStartSince;
    var b := boxes[t.box];
    SizedBefore(h, t.from);
    AtWithin(h, b.born, t.from);
    TextSinceBorn(At(h, t.from), b.born);
    SizeSinceBorn(At(h, t.from), b.born);
  }

  lemma SettledShowsAll(taps: seq<Tap>, after: seq<Tap>, boxes: seq<MirrorBox>, h: History, gen: nat, id: nat,
                        answer: Mirrors.Answer, info: Info)
    requires TapsOk(taps, boxes, h, gen) && Born(boxes, h) && h.Sized() && (info.cols, info.rows) == h.Dims()
    requires id < |taps| && taps[id].box < |boxes| && TapSettled(taps, after, id, boxes[taps[id].box], answer, info)
    ensures taps[id].registered && taps[id].pending ==>
              Shows(after[id].delivered, taps[id], boxes[taps[id].box], answer, h)
  {
    hide TapsOk, Deliver, SettledFrame, SizeAfter, WrittenBy, At;
    if taps[id].registered && taps[id].pending { AskedForAll(taps, boxes, h, gen, id); }
  }

  lemma ScreenJoins(t: Tap, h: History)
    requires JoinOk(t.join, h, t.from) && t.join.Snapped? && t.join.frame.screen.ScreenOf?
    ensures t.join.born <= t.from
            && At(h, t.from).Text() == At(h, t.join.born).Text() + WrittenBy(t.join.frame.screen.ops)
  {
    hide SizeAfter, WrittenBy, OpsSince;
    AtWithin(h, t.join.born, t.from);
    TextSinceBorn(At(h, t.from), t.join.born);
  }

  class LiveTerminal {
    const slot: TerminalSlot
    const read: MirroredSlot
    ghost var printed: JsString  // all that the live ptys have printed

    /** The read side has heard exactly what the slot reported, and that is exactly what was printed. */
    ghost predicate Valid()
      reads this, slot, read, read.hub, read.mirrors
    {
      && slot.Valid() && read.Valid() && read.hub.hist == slot.log && slot.log.Text() == printed
      && Born(read.hub.boxes, slot.log)
    }

    constructor (readable: Mirrors.Readable)
      ensures Valid() && fresh(slot) && fresh(read) && fresh(read.hub) && read.mirrors == [] && printed == []
      ensures read.readable == readable
    {
      slot := new TerminalSlot();
      read := new MirroredSlot(readable);
      printed := [];
    }

    /** What the read side is told of the slot whenever it asks. */
    function SlotInfo(): Info
      reads slot
    {
      Info(slot.state, slot.cols, slot.rows)
    }

    /** The pieces reach the read side one after the other, the first under number `q`. */
    method Relay(pieces: seq<JsString>, q: nat)
      requires read.Valid() && q == read.hub.hist.LastQ() + 1 && forall k | 0 <= k < |pieces| :: pieces[k] != []
      requires Born(read.hub.boxes, read.hub.hist)
      modifies read.hub, read.mirrors
      ensures read.Valid() && read.hub.hist == WithOutput(old(read.hub.hist), pieces)
      ensures Born(read.hub.boxes, read.hub.hist)
    {
      hide MirroredSlot.Valid, WithOutput;
      ghost var h := read.hub.hist;
      assert pieces[..0] == [] && WithOutput(h, []) == h by { NoOutput(h); }
      var i := 0;
      while i < |pieces|
        invariant 0 <= i <= |pieces| && read.Valid() && read.hub.hist == WithOutput(h, pieces[..i])
        invariant Born(read.hub.boxes, read.hub.hist)
      {
        OnePieceMore(h, pieces, i);
        ghost var boxes, before := read.hub.boxes, read.hub.hist;
        read.OnOut(q + i, pieces[i]);
        BornOn(boxes, read.hub.boxes, before, Out(q + i, pieces[i]));
        i := i + 1;
      }
      assert pieces[..|pieces|] == pieces;
    }

    /** The active pty is replaced; whatever the old and the new one print or do meanwhile is heard too. */
    method Start(pty: Pty, size: Option<(int, int)>, farewell: JsString, exitsInKill: bool, killFails: bool,
                 early: JsString, diesAtOnce: bool, mirrorFails: bool)
      requires Valid()
      modifies this, slot, read, read.hub, read.mirrors
      ensures Valid() && fresh(set m | m in read.mirrors && m !in old(read.mirrors))
      ensures var had := old(slot.active.Some?);
              printed == old(printed) + (if had then farewell else []) + if had && killFails then [] else early
    {
      hide MirroredSlot.Valid, IsSplit, WithOutput, Gone, Came;
      var q, had := slot.q + 1, slot.active.Some?;
      var last, pieces := slot.Start(pty, size, farewell, exitsInKill, killFails, early, diesAtOnce);
      PiecesHoldText(last, if had then farewell else []);
      TextGone(old(slot.log), had, last, exitsInKill);
      KillHeard(last, q, had && exitsInKill);
      NoOutput(old(slot.log));
      if !(had && killFails) {
        PiecesHoldText(pieces, early);
        WireHeard(pieces, q + |last|, diesAtOnce, mirrorFails);
      }
      TextCame(Gone(old(slot.log), had, last, exitsInKill), pieces, diesAtOnce, slot.q, slot.cols, slot.rows);
      printed := printed + (if had then farewell else []) + if had && killFails then [] else early;
    }

    /** What is heard while the old pty, if any, is killed. */
    method KillHeard(last: seq<JsString>, q: nat, exits: bool)
      requires read.Valid() && q == read.hub.hist.LastQ() + 1 && forall k | 0 <= k < |last| :: last[k] != []
      requires Born(read.hub.boxes, read.hub.hist)
      modifies read.hub, read.mirrors
      ensures read.Valid() && Born(read.hub.boxes, read.hub.hist)
      ensures var h := WithOutput(old(read.hub.hist), last);
              read.hub.hist == if exits then Then(h, State(Exited)) else h
    {
      hide MirroredSlot.Valid, WithOutput;
      Relay(last, q);
      if exits { HearState(Exited); }
    }

    /** What is heard of the new pty until it is wired. */
    method WireHeard(pieces: seq<JsString>, q: nat, diesAtOnce: bool, mirrorFails: bool)
      requires read.Valid() && q == read.hub.hist.LastQ() + 1 && forall k | 0 <= k < |pieces| :: pieces[k] != []
      requires slot.q == q + |pieces| && Born(read.hub.boxes, read.hub.hist)
      modifies read, read.hub, read.mirrors
      ensures Born(read.hub.boxes, read.hub.hist)
      ensures read.Valid() && fresh(set m | m in read.mirrors && m !in old(read.mirrors))
      ensures read.hub.hist ==
              Came(old(read.hub.hist), pieces, diesAtOnce, SlotEvent.Start(slot.q, slot.cols, slot.rows))
    {
      hide MirroredSlot.Valid, WithOutput;
      Relay(pieces, q);
      if diesAtOnce { HearState(Exited); }
      ghost var boxes, before := read.hub.boxes, read.hub.hist;
      read.OnStart(slot.q, slot.cols, slot.rows, SlotInfo(), mirrorFails);
      BornOn(boxes, boxes, before, SlotEvent.Start(slot.q, slot.cols, slot.rows));
      BornMade(boxes, read.hub.boxes, read.hub.hist, SlotInfo());
      if !diesAtOnce { HearState(Running); }
    }

    method HearState(state: SlotState)
      requires read.Valid() && Born(read.hub.boxes, read.hub.hist)
      modifies read.hub, read.mirrors
      ensures read.Valid() && Born(read.hub.boxes, read.hub.hist)
              && read.hub.hist == Then(old(read.hub.hist), State(state))
    {
      hide MirroredSlot.Valid, Born;
      ghost var boxes, before := read.hub.boxes, read.hub.hist;
      read.OnState(state);
      BornOn(boxes, read.hub.boxes, before, State(state));
    }

    /** Output of `pty`: heard if it is the live one. */
    method OnData(pty: Pty, data: JsString)
      requires Valid()
      modifies this`printed, slot, read.hub, read.mirrors
      ensures Valid() && printed == old(printed) + if old(slot.active) == Some(pty) then data else []
    {
      hide MirroredSlot.Valid, IsSplit, WithOutput;
      var q, live := slot.q + 1, slot.active == Some(pty);
      var pieces := slot.OnData(pty, data);
      if live {
        PiecesHoldText(pieces, data);
        Relay(pieces, q);
      }
      printed := printed + if live then data else [];
    }

    /** Exit of `pty`: heard if it is the live one. */
    method OnExit(pty: Pty)
      requires Valid()
      modifies slot, read.hub, read.mirrors
      ensures Valid()
      ensures read.hub.hist == if old(slot.active) == Some(pty) then Then(old(slot.log), State(Exited))
                               else old(slot.log)
    {
      hide MirroredSlot.Valid;
      var live := slot.active == Some(pty);
      slot.OnExit(pty);
      if live { HearState(Exited); }
    }

    /** A resize: heard if the slot recorded it. */
    method Resize(cols: int, rows: int, ptyFails: bool)
      requires Valid()
      modifies slot, read.hub, read.mirrors
      ensures Valid()
      ensures read.hub.hist == if old(slot.active).Some? && !ptyFails && ValidDims(cols, rows)
                               then Then(old(slot.log), Size(cols, rows)) else old(slot.log)
    {
      hide MirroredSlot.Valid;
      var done := slot.active.Some? && !ptyFails && ValidDims(cols, rows);
      slot.Resize(cols, rows, ptyFails);
      if done {
        ghost var boxes, before := read.hub.boxes, read.hub.hist;
        read.OnSize(slot.cols, slot.rows);
        BornOn(boxes, read.hub.boxes, before, Size(slot.cols, slot.rows));
      }
    }

    // ---- clients ----

    method Attach(lastQ: Option<int>, throwsOn: Option<nat>) returns (id: nat)
      requires Valid()
      modifies read`requests, read.hub`taps, read.hub`boxes, read.mirrors
      ensures Valid() && id == |old(read.hub.taps)| && |read.hub.taps| == id + 1
      ensures JoinedAs(read.hub.taps[id], read.hub.retainCount > 0, read.hub.Resumable(lastQ), lastQ, read.hub.box,
                       slot.log, SlotInfo())
    {
      hide MirroredSlot.Valid, JoinedAs;
      ghost var boxes := read.hub.boxes;
      id := read.Attach(lastQ, throwsOn, SlotInfo());
      BornOn(boxes, read.hub.boxes, slot.log, State(slot.state));
    }

    method Detach(id: nat)
      requires Valid() && id < |read.hub.taps|
      modifies read.hub`taps
      ensures Valid() && read.hub.taps == old(read.hub.taps)[id := Kill(old(read.hub.taps)[id])]
    {
      hide MirroredSlot.Valid;
      read.Detach(id);
    }

    /** xterm has parsed a write of mirror `k`. */
    method ParseDone(k: nat)
      requires Valid() && k < |read.mirrors| && read.mirrors[k].unparsed != []
      modifies read.mirrors[k]
      ensures Valid()
      ensures !read.mirrors[k].disposed ==>
                old(read.mirrors[k].head <= |read.mirrors[k].queue|) && read.mirrors[k].head <= |read.mirrors[k].queue|
                && read.mirrors[k].State() == Mirrors.Rested(Mirrors.Parsed(old(read.mirrors[k].State())))
    {
      hide MirroredSlot.Valid;
      read.ParseDone(k);
    }

    /** The answer client `id` waits for is there, and what that shows is handed to the client first. */
    method Settle(id: nat) returns (answer: Mirrors.Answer)
      requires Valid() && read.Owed(id) && read.requests[id] in read.mirrors[read.hub.taps[id].box].answers
      modifies read.hub`taps, read.hub`boxes, read.mirrors
      ensures Valid() && |read.hub.taps| == |old(read.hub.taps)|
      ensures old(read.hub.taps)[id].registered && old(read.hub.taps)[id].pending ==>
                Shows(read.hub.taps[id].delivered, old(read.hub.taps)[id], old(read.hub.boxes[read.hub.taps[id].box]),
                      answer, slot.log)
      ensures old(read.hub.taps)[id].registered ==> (answer.Shown? <==> read.readable(old(read.hub.taps)[id].asked))
    {
      hide MirroredSlot.Valid, TapsOk, TapSettled, Shows, Born, History.Dims;
      ghost var taps, boxes, gen := read.hub.taps, read.hub.boxes, read.hub.gen;
      read.TapsAreOk();
      answer := read.Settle(id, SlotInfo());
      SettledShowsAll(taps, read.hub.taps, boxes, slot.log, gen, id, answer, SlotInfo());
      SettledSame(taps, read.hub.taps, id, boxes[taps[id].box], answer, SlotInfo());
      BornOn(boxes, read.hub.boxes, slot.log, State(slot.state));
    }

    method Retain(mirrorFails: bool) returns (handle: nat)
      requires Valid()
      modifies read, read.hub
      ensures Valid() && fresh(set m | m in read.mirrors && m !in old(read.mirrors))
      ensures read.hub.retainCount == old(read.hub.retainCount) + 1 && read.hub.taps == old(read.hub.taps)
      ensures read.hub.retainCount == 1 ==>
                (read.hub.box.Some? <==> slot.state.Running? && slot.cols > 0 && slot.rows > 0 && !mirrorFails)
    {
      hide MirroredSlot.Valid;
      ghost var boxes := read.hub.boxes;
      handle := read.Retain(SlotInfo(), mirrorFails);
      BornMade(boxes, read.hub.boxes, slot.log, SlotInfo());
    }

    method Release(handle: nat)
      requires Valid() && handle < read.hub.issued
      modifies read.hub, read.mirrors
      ensures Valid() && read.hub.handles == old(read.hub.handles) - {handle}
      ensures read.hub.retainCount == old(read.hub.retainCount) - (if handle in old(read.hub.handles) then 1 else 0)
      ensures read.hub.taps == if read.hub.retainCount == 0 < old(read.hub.retainCount)
                               then AllKilled(old(read.hub.taps)) else old(read.hub.taps)
    {
      hide MirroredSlot.Valid;
      ghost var boxes := read.hub.boxes;
      read.Release(handle);
      BornOn(boxes, read.hub.boxes, slot.log, State(slot.state));
    }

    /** After any run: a client that is attached and waits for nothing has been handed, after a faithful start,
        exactly what the live ptys have printed since, under numbers without a gap up to the slot's own. */
    lemma ClientsAreTold(id: nat)
      requires Valid() && id < |read.hub.taps| && read.hub.taps[id].registered && !read.hub.taps[id].pending
      ensures Told(read.hub.taps[id], slot.log, printed, slot.q)
    {
      assert TapOk(id, read.hub.taps[id], read.hub.boxes, read.hub.hist, read.hub.gen) by { hide TapOk; }
      var t := read.hub.taps[id];
      StreamIsComplete(t, slot.log, read.hub.gen);
      if t.join.Snapped? && t.join.frame.screen.ScreenOf? { ScreenJoins(t, slot.log); }
    }

    /** Once xterm has parsed all text and all answers are delivered every attached client has been told everything. */
    method ServeAll()
      requires Valid()
      modifies read.hub`taps, read.hub`boxes, read.mirrors
      ensures Valid() && |read.hub.taps| == |old(read.hub.taps)|
      ensures forall id | 0 <= id < |read.hub.taps| && read.hub.taps[id].registered ::
                !read.hub.taps[id].pending && Told(read.hub.taps[id], slot.log, printed, slot.q)
    {
      hide MirroredSlot.Valid, Told;
      ghost var boxes := read.hub.boxes;
      read.ServeAll(SlotInfo());
      BornOn(boxes, read.hub.boxes, slot.log, State(slot.state));
      forall id | 0 <= id < |read.hub.taps| && read.hub.taps[id].registered
        ensures Told(read.hub.taps[id], slot.log, printed, slot.q)
      {
        ClientsAreTold(id);
      }
    }
  }

  lemma TextGone(h: History, had: bool, last: seq<JsString>, exits: bool)
    ensures Gone(h, had, last, exits) == if had && exits then Then(WithOutput(h, last), State(Exited))
                                         else if had then WithOutput(h, last) else h
    ensures Gone(h, had, last, exits).Text() == h.Text() + if had then Flatten(last) else []
    ensures Gone(h, had, last, exits).LastQ() == h.LastQ() + if had then |last| else 0
  {
    assert WithOutput(h, last).Text() + [] == WithOutput(h, last).Text() && h.Text() + [] == h.Text();
  }

  lemma TextCame(h: History, pieces: seq<JsString>, diesAtOnce: bool, q: nat, cols: nat, rows: nat)
    ensures Came(h, pieces, diesAtOnce, SlotEvent.Start(q, cols, rows)).Text() == h.Text() + Flatten(pieces)
  {
    var t := WithOutput(h, pieces).Text();
    assert t + [] == t && t + [] + [] == t;
  }

  lemma SettledSame(taps: seq<Tap>, after: seq<Tap>, id: nat, b: MirrorBox, answer: Mirrors.Answer, info: Info)
    requires TapSettled(taps, after, id, b, answer, info)
    ensures |after| == |taps|
  {
  }

  lemma NoOutput(h: History)
    ensures WithOutput(h, []) == h
  {
  }
}
