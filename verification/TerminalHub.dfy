/** The read side of one terminal slot: the replay ring, the headless mirrors' lives, and the ordered
    delivery of frames to the attached taps. */
module TerminalHub {
  import opened Options
  import opened Utf16
  import opened SlotEvents
  import opened TerminalSlot
  import opened TerminalRing
  import Mirror = TerminalMirror

  function OpOf(e: SlotEvent): seq<MirrorOp> {
    match e
    case Out(_, d) => [Write(d)]
    case Size(cols, rows) => [Resize(cols, rows)]
    case _ => []
  }

  /** The operations a mirror created at position `born` is asked to absorb. */
  function OpsSince(h: History, born: nat): seq<MirrorOp> {
    if h.Len() <= born then [] else OpsSince(h.before, born) + OpOf(h.last)
  }

  /** The size of a screen after some operations. */
  function SizeAfter(cols: nat, rows: nat, ops: seq<MirrorOp>): (nat, nat) {
    if ops == [] then (cols, rows)
    else
      match ops[|ops| - 1]
      case Resize(c, r) => (c, r)
      case Write(_) => SizeAfter(cols, rows, ops[..|ops| - 1])
  }

  predicate NoStartSince(h: History, born: nat) {
    h.Len() <= born || (NoStartSince(h.before, born) && !h.last.Start?)
  }

  /** A mirror and the snapshots it owes. `born` is the length of the history when it was created, `ops`
      everything it was asked to absorb, `waiting` the taps whose snapshot request has not settled. */
  datatype MirrorBox = MirrorBox(cols: nat, rows: nat, born: nat, ops: seq<MirrorOp>, waiting: set<nat>,
                                 inflight: nat, retired: bool, disposed: bool)

  /** How a tap joined. `Snapped` remembers when the mirror that made the frame was created. */
  datatype Join =
    | Resumed(lastQ: nat)
    | Snapped(frame: Delivery, born: nat)
    | Restarted

  /** One attached client. `throwsOn` is the first frame, counted from 0, on which its callback throws, if any;
      `delivered` is every frame handed to it; `from` the position in the history where its feed begins;
      `asked` what the mirror had been fed when its snapshot was requested. */
  datatype Tap = Tap(throwsOn: Option<nat>, registered: bool, dead: bool, queue: seq<Delivery>, pending: bool,
                     held: seq<Delivery>, snapGen: nat, box: nat, snapQ: nat,
                     delivered: seq<Delivery>, join: Join, from: nat, asked: seq<MirrorOp>)

  /** The frames a join itself delivers, before the feed. */
  function JoinFrames(j: Join): seq<Delivery> {
    if j.Snapped? then [j.frame] else []
  }

  /** The join is a faithful starting point at position `from` of `h`: an exact resume, a snapshot that
      carries the number reached there and shows exactly what its mirror had been fed, or a start marker. */
  ghost predicate JoinOk(j: Join, h: History, from: nat) {
    from <= h.Len() &&
    match j
    case Resumed(n) => n <= h.LastQ() && from == JoinAt(h, n)
    case Snapped(f, born) =>
      && f.SnapFrame? && f.q == At(h, from).LastQ()
      && (f.screen.ScreenOf? ==>
            && born <= from && NoStartSince(At(h, from), born)
            && f.screen.ops == OpsSince(At(h, from), born)
            && (f.cols, f.rows) == SizeAfter(f.screen.cols, f.screen.rows, f.screen.ops))
    case Restarted => from < h.Len() && At(h, from + 1).last.Start?
  }

  /** Stream invariant of a registered tap: its join, then every event since, each once and in order; while
      its snapshot is pending, all of it is held back. */
  ghost predicate StreamOk(t: Tap, h: History, gen: nat) {
    && !t.dead && t.queue == []
    && (t.throwsOn.Some? ==> t.throwsOn.value >= |t.delivered|)
    && if t.pending then
         && t.delivered == [] && t.from <= h.Len() && t.held == Feed(h, t.from)
         && t.snapGen == gen && t.snapQ == At(h, t.from).LastQ()
       else
         && t.held == [] && JoinOk(t.join, h, t.from)
         && t.delivered == JoinFrames(t.join) + Feed(h, t.from)
  }

  // ---- per-tap delivery: ordered, a throwing tap is dropped ----

  function Kill(t: Tap): Tap {
    t.(registered := false, dead := true, queue := [], held := [])
  }

  /** Hands `fs` over in order, up to and including the first frame on which the callback throws. */
  function Deliver(t: Tap, fs: seq<Delivery>): Tap
    decreases |fs|
  {
    if t.dead || fs == [] then t
    else
      var told := t.(delivered := t.delivered + [fs[0]]);
      if t.throwsOn == Some(|t.delivered|) then Kill(told) else Deliver(told, fs[1..])
  }

  method Drain(t: Tap) returns (r: Tap)
    requires !t.dead
    ensures r == Deliver(t.(queue := []), t.queue)
  {
    r := t;
    while !r.dead && r.queue != []
      invariant r.dead ==> r.queue == []
      invariant Deliver(r.(queue := []), r.queue) == Deliver(t.(queue := []), t.queue)
      decreases |r.queue|
    {
      var e := r.queue[0];
      r := r.(queue := r.queue[1..], delivered := r.delivered + [e]);
      if r.throwsOn == Some(|r.delivered| - 1) { r := Kill(r); }
    }
    assert r.(queue := []) == r;
  }

  /** What pushing one frame does: held back while the snapshot is pending, otherwise delivered. */
  function Pushed(t: Tap, e: Delivery): Tap {
    if t.dead then t
    else if t.pending then t.(held := t.held + [e])
    else Deliver(t.(queue := []), t.queue + [e])
  }

  method Push(t: Tap, e: Delivery) returns (r: Tap)
    ensures r == Pushed(t, e)
  {
    if t.dead { return t; }
    if t.pending { return t.(held := t.held + [e]); }
    r := Drain(t.(queue := t.queue + [e]));
  }

  /** A tap that is handed several frames gets all of them and stays, or a prefix ending in the frame it
      threw on and is gone. */
  lemma {:induction false} DeliverAll(t: Tap, fs: seq<Delivery>)
    requires !t.dead
    ensures var r := Deliver(t, fs);
            if !(t.throwsOn.Some? && |t.delivered| <= t.throwsOn.value < |t.delivered| + |fs|)
            then r == t.(delivered := t.delivered + fs)
            else r.dead && !r.registered && t.delivered < r.delivered && r.delivered <= t.delivered + fs
                 && r.throwsOn == Some(|r.delivered| - 1)
    decreases |fs|
  {
    if fs == [] {
      assert t.delivered + fs == t.delivered;
    } else if t.throwsOn != Some(|t.delivered|) {
      var told := t.(delivered := t.delivered + [fs[0]]);
      DeliverAll(told, fs[1..]);
      assert told.delivered + fs[1..] == t.delivered + fs;
    }
  }

  /** What a client can rely on. Once its join is delivered, the numbers it sees run without a gap or a repeat
      from the join to the slot's last one, and the text it is sent is exactly what the process produced
      since. */
  lemma StreamIsComplete(t: Tap, h: History, gen: nat)
    requires h.Proper() && StreamOk(t, h, gen) && !t.pending
    ensures var base := At(h, t.from);
            && h.Text() == base.Text() + FrameText(t.delivered)
            && Numbers(t.delivered) == Run(if t.join.Snapped? then base.LastQ() else base.LastQ() + 1, h.LastQ())
            && (t.join.Resumed? ==> base.LastQ() == t.join.lastQ)
  {
    FeedNumbers(h, t.from);
    FeedText(h, t.from);
    var fed := Feed(h, t.from);
    if t.join.Snapped? {
      SnapFirst(t.join.frame, fed);
      RunFrom(t.join.frame.q, h.LastQ());
    } else {
      assert [] + fed == fed;
      if t.join.Resumed? { JoinPosition(h, t.join.lastQ); }
    }
  }

  lemma {:induction false} SnapFirst(f: Delivery, fs: seq<Delivery>)
    requires f.SnapFrame?
    ensures Numbers([f] + fs) == [f.q] + Numbers(fs) && FrameText([f] + fs) == FrameText(fs)
  {
    if fs == [] {
      assert [f] + fs == [] + [f];
      NumbersSnoc([], f);
      FrameTextSnoc([], f);
    } else {
      var n := |fs| - 1;
      SnapFirst(f, fs[..n]);
      assert [f] + fs == ([f] + fs[..n]) + [fs[n]];
      NumbersSnoc([f] + fs[..n], fs[n]);
      FrameTextSnoc([f] + fs[..n], fs[n]);
    }
  }

  /** What pushing one frame does and what it leaves alone. */
  lemma PushedKeeps(t: Tap, e: Delivery)
    requires t.queue == []
    ensures var r := Pushed(t, e);
            && r == t.(registered := r.registered, dead := r.dead, held := r.held, delivered := r.delivered)
            && (r.dead <==> t.dead || (!t.pending && t.throwsOn == Some(|t.delivered|)))
            && (r.registered <==> t.registered && !(r.dead && !t.dead))
            && r.delivered == (if t.dead || t.pending then t.delivered else t.delivered + [e])
            && r.held == (if t.dead then t.held else if t.pending then t.held + [e] else if r.dead then [] else t.held)
  {
    if !t.dead && !t.pending {
      assert t.queue + [e] == [e] && t.(queue := []) == t;
      DeliverAll(t, [e]);
      assert [e][1..] == [];
    }
  }

  /** A join stays a faithful starting point as the history grows. */
  lemma JoinGrows(j: Join, h: History, e: SlotEvent, from: nat)
    requires JoinOk(j, h, from)
    ensures JoinOk(j, Then(h, e), from)
  {
  }

  /** Every output or size event extends every registered tap's stream by exactly its frame; a tap leaves
      only because its callback threw on that frame. */
  lemma StreamGrows(t: Tap, h: History, e: SlotEvent, gen: nat)
    requires StreamOk(t, h, gen) && t.registered
    requires e.Out? || e.Size?
    ensures var r := Pushed(t, FramesOf(e)[0]);
            if r.registered
            then StreamOk(r, Then(h, e), gen) && r.from == t.from && r.join == t.join
                 && r.pending == t.pending
            else r.dead && !t.pending && r.delivered == t.delivered + FramesOf(e) && t.throwsOn == Some(|t.delivered|)
  {
    var f := FramesOf(e)[0];
    assert FramesOf(e) == [f];
    PushedKeeps(t, f);
    if !t.pending {
      JoinGrows(t.join, h, e, t.from);
      assert JoinFrames(t.join) + (Feed(h, t.from) + [f]) == t.delivered + [f];
    }
  }

  /** A registered tap streams faithfully; one that awaits a snapshot awaits it from a mirror of the running
      process, asked exactly when it attached. */
  ghost predicate TapOk(id: nat, t: Tap, boxes: seq<MirrorBox>, h: History, gen: nat) {
    && t.queue == []
    && (t.registered ==> StreamOk(t, h, gen))
    && (t.registered && t.pending ==>
          && t.box < |boxes| && id in boxes[t.box].waiting
          && boxes[t.box].born <= t.from && NoStartSince(At(h, t.from), boxes[t.box].born)
          && t.asked == OpsSince(At(h, t.from), boxes[t.box].born))
  }

  /** A mirror counts the snapshots it owes; it is disposed once it is retired and owes none, and never while a
      registered tap waits for it. The current one has been fed everything since it was created. */
  ghost predicate BoxOk(k: nat, b: MirrorBox, taps: seq<Tap>, current: Option<nat>, h: History) {
    && b.inflight == |b.waiting|
    && (forall id | id in b.waiting :: id < |taps| && taps[id].box == k && (taps[id].registered || taps[id].dead))
    && (if current == Some(k)
        then !b.retired && !b.disposed && b.born <= h.Len() && b.ops == OpsSince(h, b.born) && NoStartSince(h, b.born)
        else b.retired && (b.inflight == 0 ==> b.disposed)
             && (b.disposed ==> forall id | id in b.waiting :: !taps[id].registered))
  }

  ghost predicate TapsOk(taps: seq<Tap>, boxes: seq<MirrorBox>, h: History, gen: nat) {
    forall id | 0 <= id < |taps| :: TapOk(id, taps[id], boxes, h, gen)
  }

  ghost predicate BoxesOk(boxes: seq<MirrorBox>, taps: seq<Tap>, current: Option<nat>, h: History) {
    forall k | 0 <= k < |boxes| :: BoxOk(k, boxes[k], taps, current, h)
  }

  predicate NoneRegistered(taps: seq<Tap>) {
    forall id | 0 <= id < |taps| :: !taps[id].registered
  }

  /** Every registered tap is pushed one frame. */
  function AllPushed(taps: seq<Tap>, e: Delivery): (r: seq<Tap>)
    ensures |r| == |taps|
    ensures forall id | 0 <= id < |r| :: r[id] == if taps[id].registered then Pushed(taps[id], e) else taps[id]
  {
    seq(|taps|, id requires 0 <= id < |taps| => if taps[id].registered then Pushed(taps[id], e) else taps[id])
  }

  /** The current mirror, if any, is asked to absorb `ops`. */
  function Fed(boxes: seq<MirrorBox>, current: Option<nat>, ops: seq<MirrorOp>): seq<MirrorBox> {
    if current.Some? && current.value < |boxes|
    then boxes[current.value := boxes[current.value].(ops := boxes[current.value].ops + ops)]
    else boxes
  }

  /** One output or size event keeps every tap and mirror in order. */
  lemma EventKeepsTaps(taps: seq<Tap>, boxes: seq<MirrorBox>, current: Option<nat>, h: History, e: SlotEvent, gen: nat)
    requires TapsOk(taps, boxes, h, gen) && (e.Out? || e.Size?)
    ensures TapsOk(AllPushed(taps, FramesOf(e)[0]), Fed(boxes, current, OpOf(e)), Then(h, e), gen)
    ensures NoneRegistered(taps) ==> NoneRegistered(AllPushed(taps, FramesOf(e)[0]))
  {
    var ts := AllPushed(taps, FramesOf(e)[0]);
    var bs := Fed(boxes, current, OpOf(e));
    forall id | 0 <= id < |ts|
      ensures TapOk(id, ts[id], bs, Then(h, e), gen)
    {
      assert TapOk(id, taps[id], boxes, h, gen);
      if taps[id].registered {
        PushedKeeps(taps[id], FramesOf(e)[0]);
        StreamGrows(taps[id], h, e, gen);
      }
    }
  }

  lemma EventKeepsBoxes(taps: seq<Tap>, boxes: seq<MirrorBox>, current: Option<nat>, h: History, e: SlotEvent, gen: nat)
    requires BoxesOk(boxes, taps, current, h) && TapsOk(taps, boxes, h, gen) && (e.Out? || e.Size?)
    ensures BoxesOk(Fed(boxes, current, OpOf(e)), AllPushed(taps, FramesOf(e)[0]), current, Then(h, e))
  {
    var ts := AllPushed(taps, FramesOf(e)[0]);
    var bs := Fed(boxes, current, OpOf(e));
    forall k | 0 <= k < |bs|
      ensures BoxOk(k, bs[k], ts, current, Then(h, e))
    {
      assert BoxOk(k, boxes[k], taps, current, h);
      forall id | id in bs[k].waiting
        ensures id < |ts| && ts[id].box == k && (ts[id].registered || ts[id].dead)
      {
        assert TapOk(id, taps[id], boxes, h, gen);
        PushedKeeps(taps[id], FramesOf(e)[0]);
      }
    }
  }

  // ---- process starts ----

  /** What a start marker does to a registered tap: it gives up a pending snapshot and begins again from the
      marker; any other tap just continues with it. `n` is the marker's position. */
  function AtStart(t: Tap, e: Delivery, n: nat): Tap {
    Pushed(if t.pending then t.(pending := false, held := [], join := Restarted, from := n) else t.(held := []), e)
  }

  function AllAtStart(taps: seq<Tap>, e: Delivery, n: nat): (r: seq<Tap>)
    ensures |r| == |taps|
    ensures forall id | 0 <= id < |r| :: r[id] == if taps[id].registered then AtStart(taps[id], e, n) else taps[id]
  {
    seq(|taps|, id requires 0 <= id < |taps| => if taps[id].registered then AtStart(taps[id], e, n) else taps[id])
  }

  /** The feed from a start marker on is the marker itself, and the marker is a faithful join. */
  lemma RestartPoint(h: History, e: SlotEvent)
    requires e.Start?
    ensures JoinOk(Restarted, Then(h, e), h.Len())
    ensures JoinFrames(Restarted) + Feed(Then(h, e), h.Len()) == FramesOf(e)
  {
    assert At(Then(h, e), h.Len() + 1) == Then(h, e);
    assert Feed(h, h.Len()) == [] && [] + FramesOf(e) == FramesOf(e);
  }

  /** A start marker restarts the stream of a tap that awaits a snapshot at exactly that marker... */
  lemma PendingRestarts(t: Tap, h: History, e: SlotEvent, gen: nat)
    requires StreamOk(t, h, gen) && t.registered && t.pending && e.Start?
    ensures var r := AtStart(t, FramesOf(e)[0], h.Len());
            && !r.pending && r.queue == [] && r.box == t.box && (r.registered || r.dead)
            && (r.registered ==> StreamOk(r, Then(h, e), gen + 1) && r.join == Restarted && r.from == h.Len())
            && (r.registered <==> t.throwsOn != Some(0)) && r.delivered == FramesOf(e)
  {
    hide Pushed, Feed, At, JoinOk;
    var f := FramesOf(e)[0];
    var t' := t.(pending := false, held := [], join := Restarted, from := h.Len());
    PushedKeeps(t', f);
    assert t'.delivered + [f] == [f];
    RestartPoint(h, e);
  }

  /** ...and simply continues any other tap's stream. */
  lemma OthersContinue(t: Tap, h: History, e: SlotEvent, gen: nat)
    requires StreamOk(t, h, gen) && t.registered && !t.pending && e.Start?
    ensures var r := AtStart(t, FramesOf(e)[0], h.Len());
            && !r.pending && r.queue == [] && r.box == t.box && (r.registered || r.dead)
            && (r.registered ==> StreamOk(r, Then(h, e), gen + 1) && r.join == t.join && r.from == t.from)
            && (r.registered <==> t.throwsOn != Some(|t.delivered|)) && r.delivered == t.delivered + FramesOf(e)
  {
    var f := FramesOf(e)[0];
    assert t.(held := []) == t;
    PushedKeeps(t, f);
    JoinGrows(t.join, h, e, t.from);
    assert JoinFrames(t.join) + (Feed(h, t.from) + [f]) == t.delivered + [f];
  }

  function Retired(b: MirrorBox): MirrorBox {
    b.(retired := true, disposed := b.disposed || b.inflight == 0)
  }

  /** The current mirror, if any, is retired: disposed at once unless it still owes a snapshot. */
  function RetireCurrent(boxes: seq<MirrorBox>, current: Option<nat>): seq<MirrorBox> {
    if current.Some? && current.value < |boxes| then boxes[current.value := Retired(boxes[current.value])] else boxes
  }

  /** A fresh mirror of a running slot. */
  function NewBox(cols: nat, rows: nat, born: nat): MirrorBox {
    MirrorBox(cols, rows, born, [], {}, 0, false, false)
  }

  /** The mirror is retired and disposed whatever it still owes. */
  function DisposeCurrent(boxes: seq<MirrorBox>, current: Option<nat>): seq<MirrorBox> {
    if current.Some? && current.value < |boxes|
    then boxes[current.value := boxes[current.value].(retired := true, disposed := true)] else boxes
  }

  /** What the hub reads from the slot when it needs it. */
  datatype Info = Info(state: SlotState, cols: nat, rows: nat)

  /** A mirror is made only of a running slot of known size, and only if making it does not fail. */
  function MadeBox(info: Info, mirrorFails: bool, born: nat): seq<MirrorBox> {
    if info.state.Running? && ValidDims(info.cols, info.rows) && !mirrorFails then [NewBox(info.cols, info.rows, born)]
    else []
  }

  /** The current mirror gives way to a fresh one, if one can be made. */
  method ReplaceMirror(boxes: seq<MirrorBox>, current: Option<nat>, info: Info, mirrorFails: bool, born: nat)
    returns (bs: seq<MirrorBox>, now: Option<nat>)
    requires current.Some? ==> current.value < |boxes|
    ensures bs == RetireCurrent(boxes, current) + MadeBox(info, mirrorFails, born)
    ensures now == if MadeBox(info, mirrorFails, born) == [] then None else Some(|boxes|)
    ensures now.Some? ==> now.value < |bs|
  {
    bs, now := boxes, None;
    if current.Some? { bs := bs[current.value := Retired(bs[current.value])]; }
    if info.state.Running? && ValidDims(info.cols, info.rows) && !mirrorFails {
      now := Some(|bs|);
      bs := bs + [NewBox(info.cols, info.rows, born)];
    }
  }

  lemma NewBoxOk(boxes: seq<MirrorBox>, taps: seq<Tap>, h: History, cols: nat, rows: nat)
    requires BoxesOk(boxes, taps, None, h)
    ensures BoxesOk(boxes + [NewBox(cols, rows, h.Len())], taps, Some(|boxes|), h)
  {
    forall k | 0 <= k < |boxes|
      ensures BoxOk(k, boxes[k], taps, Some(|boxes|), h)
    {
      assert BoxOk(k, boxes[k], taps, None, h);
    }
  }

  lemma RetireKeepsBoxes(boxes: seq<MirrorBox>, taps: seq<Tap>, current: Option<nat>, h: History)
    requires BoxesOk(boxes, taps, current, h)
    ensures BoxesOk(RetireCurrent(boxes, current), taps, None, h)
  {
    forall k | 0 <= k < |boxes|
      ensures BoxOk(k, RetireCurrent(boxes, current)[k], taps, None, h)
    {
      assert BoxOk(k, boxes[k], taps, current, h);
    }
  }

  lemma RetireKeepsTaps(taps: seq<Tap>, boxes: seq<MirrorBox>, current: Option<nat>, h: History, gen: nat)
    requires TapsOk(taps, boxes, h, gen)
    ensures TapsOk(taps, RetireCurrent(boxes, current), h, gen)
  {
    forall id | 0 <= id < |taps|
      ensures TapOk(id, taps[id], RetireCurrent(boxes, current), h, gen)
    {
      assert TapOk(id, taps[id], boxes, h, gen);
    }
  }

  /** A start marker: every tap restarts in order, the old mirror is retired. */
  lemma StartKeepsAll(taps: seq<Tap>, boxes: seq<MirrorBox>, retired: seq<MirrorBox>, bs: seq<MirrorBox>, h: History,
                      e: SlotEvent, gen: nat)
    requires TapsOk(taps, boxes, h, gen) && BoxesOk(retired, taps, None, h) && e.Start?
    ensures var ts := AllAtStart(taps, FramesOf(e)[0], h.Len());
            && TapsOk(ts, bs, Then(h, e), gen + 1) && BoxesOk(retired, ts, None, Then(h, e))
            && (NoneRegistered(taps) ==> NoneRegistered(ts))
  {
    var ts := AllAtStart(taps, FramesOf(e)[0], h.Len());
    forall id | 0 <= id < |ts|
      ensures TapOk(id, ts[id], bs, Then(h, e), gen + 1) && ts[id].box == taps[id].box
      ensures taps[id].registered || taps[id].dead ==> ts[id].registered || ts[id].dead
    {
      assert TapOk(id, taps[id], boxes, h, gen);
      if taps[id].registered {
        if taps[id].pending { PendingRestarts(taps[id], h, e, gen); } else { OthersContinue(taps[id], h, e, gen); }
      }
    }
    forall k | 0 <= k < |retired|
      ensures BoxOk(k, retired[k], ts, None, Then(h, e))
    {
      assert BoxOk(k, retired[k], taps, None, h);
    }
  }

  lemma StartRetained(taps: seq<Tap>, boxes: seq<MirrorBox>, current: Option<nat>, bs: seq<MirrorBox>, now: Option<nat>,
                      h: History, e: SlotEvent, gen: nat, info: Info, mirrorFails: bool)
    requires TapsOk(taps, boxes, h, gen) && BoxesOk(boxes, taps, current, h) && e.Start?
    requires bs == RetireCurrent(boxes, current) + MadeBox(info, mirrorFails, h.Len() + 1)
    requires now == if MadeBox(info, mirrorFails, h.Len() + 1) == [] then None else Some(|boxes|)
    ensures var ts := AllAtStart(taps, FramesOf(e)[0], h.Len());
            TapsOk(ts, bs, Then(h, e), gen + 1) && BoxesOk(bs, ts, now, Then(h, e))
  {
    hide TapsOk, BoxesOk, AllAtStart, NoneRegistered;
    var retired := RetireCurrent(boxes, current);
    RetireKeepsBoxes(boxes, taps, current, h);
    StartKeepsAll(taps, boxes, retired, bs, h, e, gen);
    NewBoxOk(retired, AllAtStart(taps, FramesOf(e)[0], h.Len()), Then(h, e), info.cols, info.rows);
    assert retired + [] == retired;
  }

  lemma StartUnretained(taps: seq<Tap>, boxes: seq<MirrorBox>, h: History, e: SlotEvent, gen: nat)
    requires TapsOk(taps, boxes, h, gen) && BoxesOk(boxes, taps, None, h) && e.Start? && NoneRegistered(taps)
    ensures var ts := AllAtStart(taps, FramesOf(e)[0], h.Len());
            TapsOk(ts, boxes, Then(h, e), gen + 1) && BoxesOk(boxes, ts, None, Then(h, e)) && NoneRegistered(ts)
  {
    StartKeepsAll(taps, boxes, boxes, boxes, h, e, gen);
  }

  /** A state event reaches no tap and leaves every stream as it is. */
  lemma StateKeepsAll(taps: seq<Tap>, boxes: seq<MirrorBox>, current: Option<nat>, h: History, e: SlotEvent, gen: nat)
    requires TapsOk(taps, boxes, h, gen) && BoxesOk(boxes, taps, current, h) && e.State?
    ensures TapsOk(taps, boxes, Then(h, e), gen) && BoxesOk(boxes, taps, current, Then(h, e))
  {
    forall id | 0 <= id < |taps|
      ensures TapOk(id, taps[id], boxes, Then(h, e), gen)
    {
      assert TapOk(id, taps[id], boxes, h, gen);
      if taps[id].registered && !taps[id].pending { JoinGrows(taps[id].join, h, e, taps[id].from); }
    }
    forall k | 0 <= k < |boxes|
      ensures BoxOk(k, boxes[k], taps, current, Then(h, e))
    {
      assert BoxOk(k, boxes[k], taps, current, h);
    }
  }

  method FanOut(taps: seq<Tap>, e: Delivery) returns (r: seq<Tap>)
    ensures r == AllPushed(taps, e)
  {
    r := taps;
    var i := 0;
    while i < |taps|
      invariant 0 <= i <= |taps| == |r|
      invariant forall id | 0 <= id < |r| :: r[id] == (if id < i then AllPushed(taps, e) else taps)[id]
    {
      if taps[i].registered {
        var t := Push(taps[i], e);
        r := r[i := t];
      }
      i := i + 1;
    }
  }

  method RestartTaps(taps: seq<Tap>, e: Delivery, n: nat) returns (r: seq<Tap>)
    ensures r == AllAtStart(taps, e, n)
  {
    r := taps;
    var i := 0;
    while i < |taps|
      invariant 0 <= i <= |taps| == |r|
      invariant forall id | 0 <= id < |r| :: r[id] == (if id < i then AllAtStart(taps, e, n) else taps)[id]
    {
      if taps[i].registered {
        var open := if taps[i].pending then taps[i].(pending := false, held := [], join := Restarted, from := n)
                    else taps[i].(held := []);
        var t := Push(open, e);
        r := r[i := t];
      }
      i := i + 1;
    }
  }

  // ---- attaching, settling, releasing ----

  function NewTap(throwsOn: Option<nat>, registered: bool, gen: nat, from: nat): Tap {
    Tap(throwsOn, registered, false, [], false, [], gen, 0, 0, [], Restarted, from, [])
  }

  /** Handing a fresh tap its first frames registers a faithful stream, or drops the tap because it threw. */
  lemma FirstFrames(t: Tap, fs: seq<Delivery>, h: History, gen: nat)
    requires t.registered && !t.dead && !t.pending && t.queue == t.held == t.delivered == []
    requires JoinOk(t.join, h, t.from) && fs == JoinFrames(t.join) + Feed(h, t.from)
    ensures var r := Deliver(t, fs);
            && r.queue == [] && !r.pending && (r.dead <==> !r.registered)
            && (r.registered ==> StreamOk(r, h, gen) && r.join == t.join && r.from == t.from)
            && (r.registered <==> !(t.throwsOn.Some? && t.throwsOn.value < |fs|))
  {
    hide Feed, JoinOk, At, Deliver;
    DeliverAll(t, fs);
    assert t.delivered + fs == fs;
    DeliverFrame(t, fs);
  }

  lemma {:induction false} DeliverFrame(t: Tap, fs: seq<Delivery>)
    requires t.queue == []
    ensures var r := Deliver(t, fs);
            && r.queue == [] && r.pending == t.pending && r.box == t.box
            && ((t.dead <==> !t.registered) ==> (r.dead <==> !r.registered))
            && (r.registered ==> t.registered) && (t.dead ==> r.dead)
    decreases |fs|
  {
    if !t.dead && fs != [] && t.throwsOn != Some(|t.delivered|) {
      DeliverFrame(t.(delivered := t.delivered + [fs[0]]), fs[1..]);
    }
  }

  /** A settled snapshot is delivered first, then everything that was held back for it. */
  lemma SettledStream(t: Tap, f: Delivery, born: nat, h: History, gen: nat)
    requires StreamOk(t, h, gen) && t.registered && t.pending
    requires JoinOk(Snapped(f, born), h, t.from)
    ensures var r := Deliver(t.(pending := false, held := [], join := Snapped(f, born)), [f] + t.held);
            && r.queue == [] && !r.pending && r.box == t.box && (r.dead <==> !r.registered)
            && (r.registered ==> StreamOk(r, h, gen) && r.join == Snapped(f, born) && r.from == t.from)
            && (r.registered <==> !(t.throwsOn.Some? && t.throwsOn.value <= |t.held|))
  {
    var t' := t.(pending := false, held := [], join := Snapped(f, born));
    FirstFrames(t', [f] + t.held, h, gen);
    DeliverFrame(t', [f] + t.held);
  }

  /** Adding a tap, and possibly noting in its mirror that it waits. */
  lemma AddTap(taps: seq<Tap>, t: Tap, boxes: seq<MirrorBox>, bs: seq<MirrorBox>, current: Option<nat>, h: History,
               gen: nat)
    requires TapsOk(taps, boxes, h, gen) && BoxesOk(boxes, taps, current, h) && TapOk(|taps|, t, bs, h, gen)
    requires bs == boxes
             || (t.registered && t.box < |boxes| && bs == boxes[t.box := Asked(boxes[t.box], |taps|)]
                 && current == Some(t.box))
    ensures TapsOk(taps + [t], bs, h, gen) && BoxesOk(bs, taps + [t], current, h)
  {
    AddTapTaps(taps, t, boxes, bs, h, gen);
    forall k | 0 <= k < |bs|
      ensures BoxOk(k, bs[k], taps + [t], current, h)
    {
      assert BoxOk(k, boxes[k], taps, current, h);
      hide OpsSince, NoStartSince;
      if k == t.box && bs != boxes {
        assert |taps| !in boxes[k].waiting;
      }
    }
  }

  lemma AddTapTaps(taps: seq<Tap>, t: Tap, boxes: seq<MirrorBox>, bs: seq<MirrorBox>, h: History, gen: nat)
    requires TapsOk(taps, boxes, h, gen) && TapOk(|taps|, t, bs, h, gen)
    requires bs == boxes || (t.box < |boxes| && bs == boxes[t.box := Asked(boxes[t.box], |taps|)])
    ensures TapsOk(taps + [t], bs, h, gen)
  {
    forall id | 0 <= id < |taps|
      ensures TapOk(id, taps[id], bs, h, gen)
    {
      hide OpsSince, NoStartSince, StreamOk, Feed;
      assert TapOk(id, taps[id], boxes, h, gen);
    }
  }

  /** A fresh tap that awaits the snapshot of mirror `box`, to be delivered under number `snapQ`. */
  function Waiting(throwsOn: Option<nat>, gen: nat, from: nat, box: nat, snapQ: nat, asked: seq<MirrorOp>): Tap {
    NewTap(throwsOn, true, gen, from).(pending := true, box := box, snapQ := snapQ, asked := asked)
  }

  /** The mirror owes one more snapshot. */
  function Asked(b: MirrorBox, id: nat): MirrorBox {
    b.(waiting := b.waiting + {id}, inflight := b.inflight + 1)
  }

  lemma AtEnd(h: History)
    ensures At(h, h.Len()) == h && Feed(h, h.Len()) == []
  {
  }

  lemma UnregisteredTap(taps: seq<Tap>, throwsOn: Option<nat>, f: Delivery, boxes: seq<MirrorBox>, h: History, gen: nat)
    requires TapsOk(taps, boxes, h, gen) && BoxesOk(boxes, taps, None, h)
    ensures var t := Deliver(NewTap(throwsOn, false, gen, h.Len()), [f]);
            && TapsOk(taps + [t], boxes, h, gen) && BoxesOk(boxes, taps + [t], None, h)
            && (NoneRegistered(taps) ==> NoneRegistered(taps + [t]))
  {
    DeliverFrame(NewTap(throwsOn, false, gen, h.Len()), [f]);
    AddTap(taps, Deliver(NewTap(throwsOn, false, gen, h.Len()), [f]), boxes, boxes, None, h, gen);
  }

  lemma FirstTap(taps: seq<Tap>, t: Tap, fs: seq<Delivery>, boxes: seq<MirrorBox>, current: Option<nat>, h: History,
                 gen: nat)
    requires TapsOk(taps, boxes, h, gen) && BoxesOk(boxes, taps, current, h)
    requires t.registered && !t.dead && !t.pending && t.queue == t.held == t.delivered == []
    requires JoinOk(t.join, h, t.from) && fs == JoinFrames(t.join) + Feed(h, t.from)
    ensures TapsOk(taps + [Deliver(t, fs)], boxes, h, gen) && BoxesOk(boxes, taps + [Deliver(t, fs)], current, h)
  {
    FirstFrames(t, fs, h, gen);
    AddTap(taps, Deliver(t, fs), boxes, boxes, current, h, gen);
  }

  lemma WaitingTap(taps: seq<Tap>, t: Tap, boxes: seq<MirrorBox>, current: Option<nat>, h: History, gen: nat)
    requires TapsOk(taps, boxes, h, gen) && BoxesOk(boxes, taps, current, h)
    requires current.Some? && current.value < |boxes|
    requires t == Waiting(t.throwsOn, gen, h.Len(), current.value, h.LastQ(), boxes[current.value].ops)
    ensures var bs := boxes[current.value := Asked(boxes[current.value], |taps|)];
            TapsOk(taps + [t], bs, h, gen) && BoxesOk(bs, taps + [t], current, h)
  {
    AtEnd(h);
    assert BoxOk(current.value, boxes[current.value], taps, current, h);
    AddTap(taps, t, boxes, boxes[current.value := Asked(boxes[current.value], |taps|)], current, h, gen);
  }

  /** What settling does to the mirror's books. */
  function Settled(b: MirrorBox, id: nat): MirrorBox
    requires b.inflight > 0
  {
    var left := b.inflight - 1;
    b.(inflight := left, waiting := b.waiting - {id}, disposed := b.disposed || (b.retired && left == 0))
  }

  lemma SettleKeepsAll(taps: seq<Tap>, boxes: seq<MirrorBox>, current: Option<nat>, h: History, gen: nat, id: nat,
                       t: Tap)
    requires TapsOk(taps, boxes, h, gen) && BoxesOk(boxes, taps, current, h)
    requires id < |taps| && taps[id].box < |boxes| && id in boxes[taps[id].box].waiting
    requires t == taps[id]
             || (t.box == taps[id].box && t.queue == [] && !t.pending && (t.registered ==> StreamOk(t, h, gen))
                 && (t.registered || t.dead))
    requires !(t.registered && t.pending) && (t.registered ==> taps[id].registered)
    ensures boxes[taps[id].box].inflight > 0
    ensures NoneRegistered(taps) ==> NoneRegistered(taps[id := t])
    ensures TapsOk(taps[id := t], boxes[t.box := Settled(boxes[t.box], id)], h, gen)
    ensures BoxesOk(boxes[t.box := Settled(boxes[t.box], id)], taps[id := t], current, h)
  {
    var k0 := taps[id].box;
    assert BoxOk(k0, boxes[k0], taps, current, h);
    assert |boxes[k0].waiting| > 0 by { assert boxes[k0].waiting != {}; }
    var bs := boxes[k0 := Settled(boxes[k0], id)];
    var ts := taps[id := t];
    forall i | 0 <= i < |ts|
      ensures TapOk(i, ts[i], bs, h, gen)
    {
      assert TapOk(i, taps[i], boxes, h, gen);
    }
    forall k | 0 <= k < |bs|
      ensures BoxOk(k, bs[k], ts, current, h)
    {
      assert BoxOk(k, boxes[k], taps, current, h);
    }
  }

  /** The frame a settled snapshot becomes: the mirror's own screen and size, or an empty one of the slot's
      current size. Its number was fixed when it was asked for. */
  function SettledFrame(t: Tap, b: MirrorBox, answer: Mirror.Answer, info: Info): Delivery {
    var ops := if answer.Shown? then answer.ops else [];
    var (cols, rows) := SizeAfter(b.cols, b.rows, ops);
    if answer.Shown? && cols > 0 then SnapFrame(t.snapQ, cols, rows, ScreenOf(b.cols, b.rows, ops))
    else SnapFrame(t.snapQ, info.cols, info.rows, NoScreen)
  }

  /** A mirror's answer to the request of tap `t` shows what the mirror had been asked to absorb by then. */
  predicate Answers(answer: Mirror.Answer, t: Tap) {
    answer.Shown? ==> answer.ops == t.asked
  }

  /** What a waiting tap is handed when its snapshot settles: first the screen of the mirror as it was asked, of the
      size it had then, or, if there is none to show, an empty one of the slot's size; then what was held back, as far
      as it was taken. */
  ghost predicate Snapshot(d: seq<Delivery>, t: Tap, b: MirrorBox, answer: Mirror.Answer, info: Info) {
    var (cols, rows) := SizeAfter(b.cols, b.rows, t.asked);
    && d != [] && d <= [d[0]] + t.held
    && d[0] == if answer.Shown? && cols > 0 then SnapFrame(t.snapQ, cols, rows, ScreenOf(b.cols, b.rows, t.asked))
               else SnapFrame(t.snapQ, info.cols, info.rows, NoScreen)
  }

  /** Tap `id`'s snapshot has settled: if the tap still waited, that is what it was handed, and it streams on from
      there. */
  ghost predicate TapSettled(before: seq<Tap>, after: seq<Tap>, id: nat, b: MirrorBox, answer: Mirror.Answer,
                             info: Info) {
    && id < |before| == |after|
    && var t, f := before[id], SettledFrame(before[id], b, answer, info);
       if t.registered && t.pending then
         && after == before[id := Deliver(t.(pending := false, held := [], join := Snapped(f, b.born)), [f] + t.held)]
         && Snapshot(after[id].delivered, t, b, answer, info)
       else after == before
  }

  lemma SettledShows(t: Tap, b: MirrorBox, answer: Mirror.Answer, info: Info, h: History, gen: nat)
    requires StreamOk(t, h, gen) && t.pending && Answers(answer, t)
    ensures var f := SettledFrame(t, b, answer, info);
            Snapshot(Deliver(t.(pending := false, held := [], join := Snapped(f, b.born)), [f] + t.held).delivered, t,
                     b, answer, info)
  {
    var f := SettledFrame(t, b, answer, info);
    hide Feed, At, SizeAfter, SettledFrame;
    var t' := t.(pending := false, held := [], join := Snapped(f, b.born));
    DeliverAll(t', [f] + t.held);
    assert t'.delivered + ([f] + t.held) == [f] + t.held;
    assert SettledFrame(t, b, answer, info) == f;
    SettledIs(t, b, answer, info);
  }

  lemma SettledShowsOf(taps: seq<Tap>, boxes: seq<MirrorBox>, h: History, gen: nat, id: nat, answer: Mirror.Answer,
                       info: Info)
    requires TapsOk(taps, boxes, h, gen) && id < |taps| && taps[id].registered && taps[id].pending
    requires taps[id].box < |boxes| && Answers(answer, taps[id])
    ensures var t, b := taps[id], boxes[taps[id].box];
            var f := SettledFrame(t, b, answer, info);
            Snapshot(Deliver(t.(pending := false, held := [], join := Snapped(f, b.born)), [f] + t.held).delivered, t,
                     b, answer, info)
  {
    assert TapOk(id, taps[id], boxes, h, gen);
    SettledShows(taps[id], boxes[taps[id].box], answer, info, h, gen);
  }

  lemma SettledIs(t: Tap, b: MirrorBox, answer: Mirror.Answer, info: Info)
    requires Answers(answer, t)
    ensures var (cols, rows) := SizeAfter(b.cols, b.rows, t.asked);
            SettledFrame(t, b, answer, info) ==
            if answer.Shown? && cols > 0 then SnapFrame(t.snapQ, cols, rows, ScreenOf(b.cols, b.rows, t.asked))
            else SnapFrame(t.snapQ, info.cols, info.rows, NoScreen)
  {
  }

  /** The text that some operations write. */
  function WrittenBy(ops: seq<MirrorOp>): JsString {
    if ops == [] then []
    else WrittenBy(ops[..|ops| - 1]) + if ops[|ops| - 1].Write? then ops[|ops| - 1].d else []
  }

  lemma WrittenSnoc(ops: seq<MirrorOp>, op: MirrorOp)
    ensures WrittenBy(ops + [op]) == WrittenBy(ops) + if op.Write? then op.d else []
    ensures forall cols, rows ::
              SizeAfter(cols, rows, ops + [op]) == if op.Resize? then (op.cols, op.rows) else SizeAfter(cols, rows, ops)
  {
    assert (ops + [op])[..|ops|] == ops;
  }

  lemma OneMoreWritten(base: JsString, ops: seq<MirrorOp>, e: SlotEvent)
    ensures base + WrittenBy(ops + OpOf(e)) == base + WrittenBy(ops) + if e.Out? then e.d else []
  {
    hide WrittenBy, SizeAfter;
    if OpOf(e) == [] {
      assert ops + [] == ops;
    } else {
      WrittenSnoc(ops, OpOf(e)[0]);
    }
  }

  lemma NoneWritten(base: JsString)
    ensures base + WrittenBy([]) == base
  {
  }

  /** A mirror made at position `born` and asked everything since has been asked for all the text the process produced
      since. */
  lemma {:induction false} TextSinceBorn(h: History, born: nat)
    requires born <= h.Len()
    ensures h.Text() == At(h, born).Text() + WrittenBy(OpsSince(h, born))
  {
    hide WrittenBy, OpOf;
    if h.Len() == born {
      NoneWritten(h.Text());
    } else {
      TextSinceBorn(h.before, born);
      OneMoreWritten(At(h, born).Text(), OpsSince(h.before, born), h.last);
    }
  }

  /** And it ends at the size reported last. */
  lemma {:induction false} SizeSinceBorn(h: History, born: nat)
    requires born <= h.Len() && NoStartSince(h, born)
    ensures var (cols, rows) := At(h, born).Dims();
            && SizeAfter(cols, rows, OpsSince(h, born)) == h.Dims()
            && (h.Sized() && cols > 0 && rows > 0 ==> h.Dims().0 > 0 && h.Dims().1 > 0)
  {
    if h.Len() > born {
      SizeSinceBorn(h.before, born);
      var ops := OpsSince(h.before, born);
      assert ops + [] == ops;
      hide SizeAfter;
      if h.last.Out? {
        WrittenSnoc(ops, Write(h.last.d));
      } else if h.last.Size? {
        WrittenSnoc(ops, Resize(h.last.cols, h.last.rows));
      }
    }
  }

  lemma {:induction false} AtWithin(h: History, born: nat, n: nat)
    requires born <= n <= h.Len()
    ensures At(At(h, n), born) == At(h, born)
  {
    if h.Len() > n { AtWithin(h.before, born, n); }
  }

  /** Mirrors keep the size and the place they began with. */
  predicate SameBirths(before: seq<MirrorBox>, after: seq<MirrorBox>) {
    && |before| <= |after|
    && forall k | 0 <= k < |before| ::
         (after[k].cols, after[k].rows, after[k].born) == (before[k].cols, before[k].rows, before[k].born)
  }

  /** Besides, at most one mirror was made, here and now, of the slot's size. */
  predicate Births(before: seq<MirrorBox>, after: seq<MirrorBox>, info: Info, born: nat) {
    && SameBirths(before, after) && |after| <= |before| + 1
    && (|after| > |before| ==>
          && info.state.Running? && ValidDims(info.cols, info.rows)
          && var b := after[|before|]; (b.cols, b.rows, b.born) == (info.cols, info.rows, born) && b.ops == [])
  }

  lemma BirthsKept(boxes: seq<MirrorBox>, current: Option<nat>, ops: seq<MirrorOp>)
    ensures SameBirths(boxes, Fed(boxes, current, ops)) && |Fed(boxes, current, ops)| == |boxes|
    ensures SameBirths(boxes, RetireCurrent(boxes, current)) && |RetireCurrent(boxes, current)| == |boxes|
    ensures SameBirths(boxes, DisposeCurrent(boxes, current)) && |DisposeCurrent(boxes, current)| == |boxes|
  {
  }

  lemma BirthsMade(boxes: seq<MirrorBox>, current: Option<nat>, info: Info, mirrorFails: bool, born: nat)
    ensures Births(boxes, boxes + MadeBox(info, mirrorFails, born), info, born)
    ensures Births(boxes, RetireCurrent(boxes, current) + MadeBox(info, mirrorFails, born), info, born)
    ensures MadeBox(info, mirrorFails, born) == [] <==>
              mirrorFails || !info.state.Running? || !ValidDims(info.cols, info.rows)
  {
  }

  /** A tap whose snapshot settles is dead, or no longer waiting, or waiting for exactly this one. */
  lemma SettleChecks(taps: seq<Tap>, boxes: seq<MirrorBox>, current: Option<nat>, h: History, gen: nat, id: nat)
    requires TapsOk(taps, boxes, h, gen) && BoxesOk(boxes, taps, current, h)
    requires id < |taps| && taps[id].box < |boxes| && id in boxes[taps[id].box].waiting
    ensures taps[id].queue == [] && boxes[taps[id].box].inflight > 0
    ensures taps[id].dead <==> !taps[id].registered
    ensures taps[id].registered && taps[id].pending ==> taps[id].snapGen == gen
  {
    assert TapOk(id, taps[id], boxes, h, gen);
    assert BoxOk(taps[id].box, boxes[taps[id].box], taps, current, h);
    assert boxes[taps[id].box].waiting != {};
  }

  lemma SettledTap(taps: seq<Tap>, boxes: seq<MirrorBox>, current: Option<nat>, h: History, gen: nat, id: nat,
                   answer: Mirror.Answer, info: Info)
    requires TapsOk(taps, boxes, h, gen) && id < |taps| && taps[id].registered && taps[id].pending
             && taps[id].box < |boxes|
    requires Answers(answer, taps[id])
    ensures var t, b := taps[id], boxes[taps[id].box];
            var f := SettledFrame(t, b, answer, info);
            var r := Deliver(t.(pending := false, held := [], join := Snapped(f, b.born)), [f] + t.held);
            && r.queue == [] && !r.pending && r.box == t.box && (r.registered || r.dead)
            && (r.registered ==> StreamOk(r, h, gen))
  {
    assert TapOk(id, taps[id], boxes, h, gen);
    SettledStream(taps[id], SettledFrame(taps[id], boxes[taps[id].box], answer, info), boxes[taps[id].box].born, h,
                  gen);
  }

  function AllKilled(taps: seq<Tap>): (r: seq<Tap>)
    ensures |r| == |taps|
    ensures forall id | 0 <= id < |r| :: r[id] == if taps[id].registered then Kill(taps[id]) else taps[id]
  {
    seq(|taps|, id requires 0 <= id < |taps| => if taps[id].registered then Kill(taps[id]) else taps[id])
  }

  method KillAll(taps: seq<Tap>) returns (r: seq<Tap>)
    ensures r == AllKilled(taps)
  {
    r := taps;
    var i := 0;
    while i < |taps|
      invariant 0 <= i <= |taps| == |r|
      invariant forall id | 0 <= id < |r| :: r[id] == (if id < i then AllKilled(taps) else taps)[id]
    {
      if taps[i].registered { r := r[i := Kill(taps[i])]; }
      i := i + 1;
    }
  }

  lemma FirstRetain(taps: seq<Tap>, boxes: seq<MirrorBox>, bs: seq<MirrorBox>, now: Option<nat>, h: History, gen: nat,
                    info: Info, mirrorFails: bool)
    requires TapsOk(taps, boxes, h, gen) && BoxesOk(boxes, taps, None, h) && NoneRegistered(taps)
    requires bs == boxes + MadeBox(info, mirrorFails, h.Len())
    requires now == if MadeBox(info, mirrorFails, h.Len()) == [] then None else Some(|boxes|)
    ensures TapsOk(taps, bs, h, gen + 1) && BoxesOk(bs, taps, now, h)
  {
    NewBoxOk(boxes, taps, h, info.cols, info.rows);
    assert boxes + [] == boxes;
    forall id | 0 <= id < |taps|
      ensures TapOk(id, taps[id], bs, h, gen + 1)
    {
      assert TapOk(id, taps[id], boxes, h, gen);
    }
  }

  lemma LastRelease(taps: seq<Tap>, boxes: seq<MirrorBox>, current: Option<nat>, h: History, gen: nat)
    requires TapsOk(taps, boxes, h, gen) && BoxesOk(boxes, taps, current, h)
    ensures var ts, bs := AllKilled(taps), DisposeCurrent(boxes, current);
            TapsOk(ts, bs, h, gen + 1) && BoxesOk(bs, ts, None, h) && NoneRegistered(ts)
  {
    var ts, bs := AllKilled(taps), DisposeCurrent(boxes, current);
    forall id | 0 <= id < |ts|
      ensures TapOk(id, ts[id], bs, h, gen + 1)
    {
      assert TapOk(id, taps[id], boxes, h, gen);
    }
    forall k | 0 <= k < |bs|
      ensures BoxOk(k, bs[k], ts, None, h)
    {
      assert BoxOk(k, boxes[k], taps, current, h);
    }
  }

  /** Killing one tap leaves every other stream and every mirror's books as they are. */
  lemma DetachKeepsAll(taps: seq<Tap>, boxes: seq<MirrorBox>, current: Option<nat>, h: History, gen: nat, id: nat)
    requires TapsOk(taps, boxes, h, gen) && BoxesOk(boxes, taps, current, h) && id < |taps|
    ensures var ts := taps[id := Kill(taps[id])];
            && TapsOk(ts, boxes, h, gen) && BoxesOk(boxes, ts, current, h)
            && (NoneRegistered(taps) ==> NoneRegistered(ts))
  {
    var ts := taps[id := Kill(taps[id])];
    forall i | 0 <= i < |ts|
      ensures TapOk(i, ts[i], boxes, h, gen)
    {
      assert TapOk(i, taps[i], boxes, h, gen);
    }
    forall k | 0 <= k < |boxes|
      ensures BoxOk(k, boxes[k], ts, current, h)
    {
      assert BoxOk(k, boxes[k], taps, current, h);
    }
  }

  /** How a client joins. Of an unretained slot it is handed one empty screen and hears no more. Otherwise it resumes
      right after the last number it has seen, if that is possible, or starts from an empty screen if there is no
      mirror, or waits for the mirror's, in both cases from here on. */
  ghost predicate JoinedAs(t: Tap, retained: bool, resumable: bool, lastQ: Option<int>, box: Option<nat>, h: History,
                           info: Info) {
    var empty := SnapFrame(h.LastQ(), info.cols, info.rows, NoScreen);
    if !retained then !t.registered && !t.pending && t.delivered == [empty]
    else if resumable then
      && !t.pending && lastQ.Some? && lastQ.value >= 0 && t.join == Resumed(lastQ.value)
      && t.from == JoinAt(h, lastQ.value)
      && t.delivered <= Feed(h, t.from) && (t.registered ==> t.delivered == Feed(h, t.from))
    else if box == None then
      !t.pending && t.delivered == [empty] && (t.registered ==> t.join == Snapped(empty, 0) && t.from == h.Len())
    else t.registered && t.pending && t.delivered == [] && t.from == h.Len() && box == Some(t.box)
  }

  lemma JoinsUnretained(throwsOn: Option<nat>, lastQ: Option<int>, resumable: bool, box: Option<nat>, gen: nat,
                        h: History, info: Info)
    ensures var empty := SnapFrame(h.LastQ(), info.cols, info.rows, NoScreen);
            JoinedAs(Deliver(NewTap(throwsOn, false, gen, h.Len()), [empty]), false, resumable, lastQ, box, h, info)
  {
    var empty := SnapFrame(h.LastQ(), info.cols, info.rows, NoScreen);
    assert [empty][1..] == [] && [] + [empty] == [empty];
  }

  lemma JoinsResumed(throwsOn: Option<nat>, lastQ: int, box: Option<nat>, gen: nat, h: History, info: Info)
    requires 0 <= lastQ <= h.LastQ()
    ensures var t := NewTap(throwsOn, true, gen, JoinAt(h, lastQ)).(join := Resumed(lastQ));
            JoinedAs(Deliver(t, Feed(h, t.from)), true, true, Some(lastQ), box, h, info)
  {
    var t := NewTap(throwsOn, true, gen, JoinAt(h, lastQ)).(join := Resumed(lastQ));
    hide Feed, JoinAt;
    DeliverAll(t, Feed(h, t.from));
    DeliverFrame(t, Feed(h, t.from));
    DeliverJoin(t, Feed(h, t.from));
    assert [] + Feed(h, t.from) == Feed(h, t.from);
  }

  lemma {:induction false} DeliverJoin(t: Tap, fs: seq<Delivery>)
    ensures Deliver(t, fs).join == t.join && Deliver(t, fs).from == t.from
    decreases |fs|
  {
    if !t.dead && fs != [] && t.throwsOn != Some(|t.delivered|) {
      DeliverJoin(t.(delivered := t.delivered + [fs[0]]), fs[1..]);
    }
  }

  lemma JoinsEmpty(throwsOn: Option<nat>, lastQ: Option<int>, gen: nat, h: History, info: Info)
    ensures var empty := SnapFrame(h.LastQ(), info.cols, info.rows, NoScreen);
            JoinedAs(Deliver(NewTap(throwsOn, true, gen, h.Len()).(join := Snapped(empty, 0)), [empty]), true, false,
                     lastQ, None, h, info)
  {
    var empty := SnapFrame(h.LastQ(), info.cols, info.rows, NoScreen);
    assert [empty][1..] == [] && [] + [empty] == [empty];
  }

  lemma JoinsWaiting(throwsOn: Option<nat>, lastQ: Option<int>, box: nat, gen: nat, ops: seq<MirrorOp>, h: History,
                     info: Info)
    ensures JoinedAs(Waiting(throwsOn, gen, h.Len(), box, h.LastQ(), ops), true, false, lastQ, Some(box), h, info)
  {
  }

  /** One slot's read state. Methods are whole steps: an event with its fan-out, an attach, a settlement. */
  class SlotRead {
    var retainCount: nat
    var handles: set<nat>      // retain handles not yet released
    var issued: nat
    var box: Option<nat>       // the current mirror
    var boxes: seq<MirrorBox>  // every mirror ever created
    var ring: Ring
    var lastResizeQ: nat       // resume needs lastQ at least this
    var fedQ: nat
    var gen: nat
    var taps: seq<Tap>         // every tap ever attached
    var hist: History          // the events processed so far

    ghost predicate Valid()
      reads this
    {
      && hist.Proper() && fedQ == hist.LastQ()
      && retainCount == |handles| && (forall k | k in handles :: k < issued)
      && (box.Some? ==> box.value < |boxes|)
      && ResizeNoted(hist, lastResizeQ)
      && (if retainCount == 0 then box == None && NoneRegistered(taps) else RingOk(ring, hist, lastResizeQ))
      && BoxesOk(boxes, taps, box, hist)
      && TapsOk(taps, boxes, hist, gen)
    }

    constructor ()
      ensures Valid() && hist == Empty && retainCount == 0 && taps == [] && boxes == [] && ring == EmptyRing(0)
    {
      retainCount, handles, issued, box, boxes := 0, {}, 0, None, [];
      ring, lastResizeQ, fedQ, gen, taps, hist := EmptyRing(0), 0, 0, 0, [], Empty;
    }

    /** No mirror is disposed while a registered tap waits for it. */
    lemma StillAwaited(id: nat)
      requires Valid() && id < |taps| && taps[id].box < |boxes| && id in boxes[taps[id].box].waiting
      ensures taps[id].registered ==> !boxes[taps[id].box].disposed
    {
      assert BoxOk(taps[id].box, boxes[taps[id].box], taps, box, hist);
    }

    lemma CurrentBox()
      requires Valid()
      ensures (box.Some? ==> box.value < |boxes| && retainCount > 0) && BoxesOk(boxes, taps, box, hist)
    {
      hide BoxesOk, TapsOk, RingOk, ResizeNoted;
    }

    method OnOut(q: nat, d: JsString)
      requires Valid() && hist.MayReport(Out(q, d))
      modifies this
      ensures Valid() && hist == Then(old(hist), Out(q, d))
      ensures unchanged(`retainCount, `handles, `issued, `box, `gen, `lastResizeQ)
      ensures taps == AllPushed(old(taps), OutFrame(q, d)) && boxes == Fed(old(boxes), box, [Write(d)])
      ensures retainCount == 0 ==> ring == old(ring)
      ensures old(ring.floor) < ring.floor ==> CostFrom(hist, ring.floor - 1) > RING_BYTES
    {
      hide TapsOk, BoxesOk, NoneRegistered, AllPushed, RingOk, ResizeNoted, CostFrom;
      EventKeepsTaps(taps, boxes, box, hist, Out(q, d), gen);
      EventKeepsBoxes(taps, boxes, box, hist, Out(q, d), gen);
      NotedNext(hist, Out(q, d), lastResizeQ);
      hist := Then(hist, Out(q, d));
      fedQ := q;
      if retainCount > 0 {
        if box.Some? {
          var b := boxes[box.value];
          boxes := boxes[box.value := b.(ops := b.ops + [Write(d)])];
        }
        ring := RingPush(ring, q, d, hist, lastResizeQ);
      }
      taps := FanOut(taps, OutFrame(q, d));
    }

    method OnSize(cols: nat, rows: nat)
      requires Valid()
      modifies this
      ensures Valid() && hist == Then(old(hist), Size(cols, rows))
      ensures unchanged(`retainCount, `handles, `issued, `box, `gen, `ring, `fedQ)
      ensures taps == AllPushed(old(taps), SizeFrame(cols, rows)) && boxes == Fed(old(boxes), box, [Resize(cols, rows)])
      ensures lastResizeQ == fedQ + 1
    {
      hide TapsOk, BoxesOk, NoneRegistered, AllPushed, RingOk, ResizesRecorded;
      EventKeepsTaps(taps, boxes, box, hist, Size(cols, rows), gen);
      EventKeepsBoxes(taps, boxes, box, hist, Size(cols, rows), gen);
      NotedNext(hist, Size(cols, rows), lastResizeQ);
      if retainCount > 0 {
        RingOkUnnumbered(ring, hist, Size(cols, rows), lastResizeQ);
        if box.Some? {
          var b := boxes[box.value];
          boxes := boxes[box.value := b.(ops := b.ops + [Resize(cols, rows)])];
        }
      }
      hist := Then(hist, Size(cols, rows));
      lastResizeQ := fedQ + 1;
      taps := FanOut(taps, SizeFrame(cols, rows));
    }

    /** A process start: a new generation, a fresh ring, a fresh mirror unless creating it fails (or the slot
        is already not running), and a restart marker to every tap. */
    method OnStart(q: nat, cols: nat, rows: nat, info: Info, mirrorFails: bool)
      requires Valid() && hist.MayReport(SlotEvent.Start(q, cols, rows))
      modifies this
      ensures Valid() && hist == Then(old(hist), SlotEvent.Start(q, cols, rows))
      ensures unchanged(`retainCount, `handles, `issued) && gen == old(gen) + 1
      ensures taps == AllAtStart(old(taps), SnapFrame(q, cols, rows, NoScreen), old(hist).Len())
      ensures retainCount == 0 ==> unchanged(`box, `boxes, `ring, `lastResizeQ)
      ensures retainCount > 0 ==>
                && ring == EmptyRing(fedQ) && lastResizeQ == 0
                && boxes == RetireCurrent(old(boxes), old(box)) + MadeBox(info, mirrorFails, hist.Len())
                && box == if MadeBox(info, mirrorFails, hist.Len()) == [] then None else Some(|old(boxes)|)
    {
      hide TapsOk, BoxesOk, NoneRegistered, AllAtStart, RingOk, ResizeNoted, RetireCurrent, MadeBox, EmptyRing;
      ghost var e := SlotEvent.Start(q, cols, rows);
      NotedNext(hist, e, lastResizeQ);
      var restarted := RestartTaps(taps, SnapFrame(q, cols, rows, NoScreen), hist.Len());
      if retainCount > 0 {
        StartOver(e, restarted, info, mirrorFails);
      } else {
        StartUnretained(taps, boxes, hist, e, gen);
        taps := restarted;
      }
      hist, fedQ, gen := Then(hist, SlotEvent.Start(q, cols, rows)), q, gen + 1;
    }

    /** A start while retained, but for the numbers: a fresh ring, a fresh mirror if one can be made. */
    method StartOver(ghost e: SlotEvent, restarted: seq<Tap>, info: Info, mirrorFails: bool)
      requires TapsOk(taps, boxes, hist, gen) && BoxesOk(boxes, taps, box, hist) && (box.Some? ==> box.value < |boxes|)
      requires e.Start? && hist.Proper() && hist.MayReport(e) && ResizeNoted(Then(hist, e), 0)
      requires restarted == AllAtStart(taps, FramesOf(e)[0], hist.Len())
      modifies this`ring, this`lastResizeQ, this`boxes, this`box, this`taps
      ensures TapsOk(taps, boxes, Then(hist, e), gen + 1) && BoxesOk(boxes, taps, box, Then(hist, e))
      ensures RingOk(ring, Then(hist, e), 0) && (box.Some? ==> box.value < |boxes|)
      ensures taps == restarted && ring == EmptyRing(e.q) && lastResizeQ == 0
      ensures boxes == RetireCurrent(old(boxes), old(box)) + MadeBox(info, mirrorFails, hist.Len() + 1)
      ensures box == if MadeBox(info, mirrorFails, hist.Len() + 1) == [] then None else Some(|old(boxes)|)
    {
      hide TapsOk, BoxesOk, NoneRegistered, AllAtStart, RingOk, ResizeNoted, RetireCurrent, MadeBox, EmptyRing;
      EmptyRingOk(Then(hist, e), 0);
      var bs, now := ReplaceMirror(boxes, box, info, mirrorFails, hist.Len() + 1);
      StartRetained(taps, boxes, box, bs, now, hist, e, gen, info, mirrorFails);
      taps, boxes, box, ring, lastResizeQ := restarted, bs, now, EmptyRing(hist.LastQ() + 1), 0;
    }

    /** A state change reaches no tap; an exit clears the mirror and the ring while retained. */
    method OnState(state: SlotState)
      requires Valid()
      modifies this
      ensures Valid() && hist == Then(old(hist), State(state))
      ensures unchanged(`retainCount, `handles, `issued, `taps, `gen, `fedQ, `lastResizeQ)
      ensures if state.Exited? && retainCount > 0
              then box == None && ring == EmptyRing(fedQ) && boxes == RetireCurrent(old(boxes), old(box))
              else unchanged(`box, `ring, `boxes)
    {
      hide TapsOk, BoxesOk, NoneRegistered, RingOk, ResizesRecorded;
      ghost var h := hist;
      NotedNext(hist, State(state), lastResizeQ);
      if retainCount > 0 { RingOkUnnumbered(ring, hist, State(state), lastResizeQ); }
      hist := Then(hist, State(state));
      StateKeepsAll(taps, boxes, box, h, State(state), gen);
      if state.Exited? && retainCount > 0 {
        RetireKeepsBoxes(boxes, taps, box, hist);
        RetireKeepsTaps(taps, boxes, box, hist, gen);
        if box.Some? { boxes := boxes[box.value := Retired(boxes[box.value])]; }
        box := None;
        ring := EmptyRing(fedQ);
        EmptyRingOk(hist, lastResizeQ);
      }
    }

    /** Whether a client that has everything up to `n` can be brought up to date from the ring alone. */
    predicate Resumable(lastQ: Option<int>)
      reads this
    {
      lastQ.Some? && lastQ.value >= 0 && ring.floor - 1 <= lastQ.value <= fedQ && lastQ.value >= lastResizeQ
    }

    /** A client resumes exactly if all output since is retained and no resize is known to have come since. */
    lemma ResumableExactly(n: int)
      requires Valid()
      ensures Resumable(Some(n)) <==> 0 <= n <= hist.LastQ() && ring.floor <= n + 1 && lastResizeQ <= n
      ensures !Resumable(None)
    {
      hide TapsOk, BoxesOk, RingOk, ResizeNoted;
    }

    /** A client joins. Unretained, it gets one empty snapshot and is not registered; otherwise it resumes
        exactly, gets an empty snapshot when there is no mirror, or waits for the mirror's snapshot. */
    method Attach(lastQ: Option<int>, throwsOn: Option<nat>, info: Info) returns (id: nat)
      requires Valid()
      modifies this`taps, this`boxes
      ensures Valid() && id == |old(taps)| && |taps| == id + 1 && taps[..id] == old(taps)
      ensures JoinedAs(taps[id], retainCount > 0, Resumable(lastQ), lastQ, box, hist, info)
      ensures var empty := SnapFrame(fedQ, info.cols, info.rows, NoScreen);
              var resumed := JoinAt(hist, if Resumable(lastQ) then lastQ.value else 0);
              if retainCount == 0 then
                boxes == old(boxes) && taps[id] == Deliver(NewTap(throwsOn, false, gen, hist.Len()), [empty])
              else if Resumable(lastQ) then
                && boxes == old(boxes)
                && taps[id] ==
                   Deliver(NewTap(throwsOn, true, gen, resumed).(join := Resumed(lastQ.value)), Feed(hist, resumed))
              else if box.None? then
                && boxes == old(boxes)
                && taps[id] == Deliver(NewTap(throwsOn, true, gen, hist.Len()).(join := Snapped(empty, 0)), [empty])
              else
                && taps[id] == Waiting(throwsOn, gen, hist.Len(), box.value, fedQ, old(boxes)[box.value].ops)
                && boxes == old(boxes)[box.value := Asked(old(boxes)[box.value], id)]
    {
      hide TapsOk, BoxesOk, NoneRegistered, RingOk, ResizeNoted, Deliver, Feed, At, JoinAt, JoinedAs;
      id := |taps|;
      var empty := SnapFrame(fedQ, info.cols, info.rows, NoScreen);
      var n := hist.Len();
      var t: Tap;
      if retainCount == 0 {
        t := Drain(NewTap(throwsOn, false, gen, n).(queue := [empty]));
        UnregisteredTap(taps, throwsOn, empty, boxes, hist, gen);
        JoinsUnretained(throwsOn, lastQ, Resumable(lastQ), box, gen, hist, info);
      } else if Resumable(lastQ) {
        var from := JoinAt(hist, lastQ.value);
        var replay := ReplayFrom(ring, lastQ.value, fedQ, hist, lastResizeQ);
        t := NewTap(throwsOn, true, gen, from).(join := Resumed(lastQ.value), queue := replay);
        JoinPosition(hist, lastQ.value);
        FirstTap(taps, t.(queue := []), replay, boxes, box, hist, gen);
        JoinsResumed(throwsOn, lastQ.value, box, gen, hist, info);
        t := Drain(t);
      } else if box.None? {
        t := NewTap(throwsOn, true, gen, n).(join := Snapped(empty, 0), queue := [empty]);
        AtEnd(hist);
        FirstTap(taps, t.(queue := []), [empty], boxes, box, hist, gen);
        JoinsEmpty(throwsOn, lastQ, gen, hist, info);
        t := Drain(t);
      } else {
        var b := boxes[box.value];
        t := Waiting(throwsOn, gen, n, box.value, fedQ, b.ops);
        WaitingTap(taps, t, boxes, box, hist, gen);
        JoinsWaiting(throwsOn, lastQ, box.value, gen, b.ops, hist, info);
        boxes := boxes[box.value := Asked(b, id)];
      }
      taps := taps + [t];
    }

    /** A client leaves. Its snapshot, should one be owed, still settles, but reaches nobody. */
    method Detach(id: nat)
      requires Valid() && id < |taps|
      modifies this`taps
      ensures Valid() && taps == old(taps)[id := Kill(old(taps)[id])]
    {
      DetachKeepsAll(taps, boxes, box, hist, gen, id);
      hide TapsOk, BoxesOk, NoneRegistered, RingOk, ResizeNoted;
      taps := taps[id := Kill(taps[id])];
    }

    /** The snapshot tap `id` asked for settles with the mirror's `answer`. It is delivered only if the tap is still
        there and still waiting for this generation's; the number it carries is the one reached when it was asked
        for. */
    method Settle(id: nat, answer: Mirror.Answer, info: Info)
      requires Valid()
      requires id < |taps| && taps[id].box < |boxes| && id in boxes[taps[id].box].waiting && Answers(answer, taps[id])
      modifies this`taps, this`boxes
      ensures Valid()
      ensures boxes == old(boxes)[old(taps)[id].box := Settled(old(boxes)[old(taps)[id].box], id)]
      ensures TapSettled(old(taps), taps, id, old(boxes[taps[id].box]), answer, info)
      ensures var t, b := old(taps)[id], old(boxes)[old(taps)[id].box];
              taps == if t.registered && t.pending && t.snapGen == gen
                      then old(taps)[id := Deliver(t.(pending := false, held := [],
                                                      join := Snapped(SettledFrame(t, b, answer, info), b.born)),
                                                   [SettledFrame(t, b, answer, info)] + t.held)]
                      else old(taps)
    {
      hide TapsOk, BoxesOk, NoneRegistered, RingOk, ResizeNoted;
      var t := taps[id];
      var b := boxes[t.box];
      SettleChecks(taps, boxes, box, hist, gen, id);
      var r := t;
      if !(t.dead || !t.pending || t.snapGen != gen) {
        var f := SettledFrame(t, b, answer, info);
        SettledTap(taps, boxes, box, hist, gen, id, answer, info);
        SettledShowsOf(taps, boxes, hist, gen, id, answer, info);
        r := Drain(t.(pending := false, held := [], join := Snapped(f, b.born), queue := [f] + t.held));
        assert t.(pending := false, held := [], join := Snapped(f, b.born), queue := []) ==
               t.(pending := false, held := [], join := Snapped(f, b.born));
      }
      SettleKeepsAll(taps, boxes, box, hist, gen, id, r);
      boxes := boxes[t.box := Settled(b, id)];
      taps := taps[id := r];
      assert r == t ==> taps == old(taps);
    }

    /** The first retain starts a generation with an empty ring and, if the slot runs, a fresh mirror. */
    method Retain(info: Info, mirrorFails: bool) returns (handle: nat)
      requires Valid()
      modifies this
      ensures Valid() && hist == old(hist) && taps == old(taps)
      ensures handle !in old(handles) && handles == old(handles) + {handle} && retainCount == old(retainCount) + 1
      ensures retainCount > 1 ==> unchanged(`box, `boxes, `ring, `gen)
      ensures retainCount == 1 ==>
                && gen == old(gen) + 1 && ring == EmptyRing(fedQ)
                && boxes == old(boxes) + MadeBox(info, mirrorFails, hist.Len())
                && box == if MadeBox(info, mirrorFails, hist.Len()) == [] then None else Some(|old(boxes)|)
    {
      hide TapsOk, BoxesOk, NoneRegistered, RingOk, ResizeNoted, MadeBox, EmptyRing;
      handle := issued;
      issued := issued + 1;
      handles := handles + {handle};
      retainCount := retainCount + 1;
      if retainCount == 1 { BeginRetained(info, mirrorFails); }
    }

    /** What the slot begins with once somebody wants it. */
    method BeginRetained(info: Info, mirrorFails: bool)
      requires TapsOk(taps, boxes, hist, gen) && BoxesOk(boxes, taps, None, hist) && NoneRegistered(taps) && box == None
      requires ResizeNoted(hist, lastResizeQ) && hist.Proper() && fedQ == hist.LastQ()
      modifies this`gen, this`ring, this`boxes, this`box
      ensures TapsOk(taps, boxes, hist, gen) && BoxesOk(boxes, taps, box, hist) && RingOk(ring, hist, lastResizeQ)
      ensures gen == old(gen) + 1 && ring == EmptyRing(fedQ) && (box.Some? ==> box.value < |boxes|)
      ensures boxes == old(boxes) + MadeBox(info, mirrorFails, hist.Len())
      ensures box == if MadeBox(info, mirrorFails, hist.Len()) == [] then None else Some(|old(boxes)|)
    {
      hide TapsOk, BoxesOk, NoneRegistered, RingOk, ResizeNoted, MadeBox, EmptyRing;
      EmptyRingOk(hist, lastResizeQ);
      var bs, now := ReplaceMirror(boxes, box, info, mirrorFails, hist.Len());
      FirstRetain(taps, boxes, bs, now, hist, gen, info, mirrorFails);
      gen, ring, boxes, box := gen + 1, EmptyRing(fedQ), bs, now;
    }

    /** Releasing a handle twice does nothing. The last release drops every tap, disposes the mirror at once
        and forgets the ring. */
    method Release(handle: nat)
      requires Valid() && handle < issued
      modifies this
      ensures Valid() && hist == old(hist) && handles == old(handles) - {handle}
      ensures handle !in old(handles) ==> unchanged(this)
      ensures handle in old(handles) ==> retainCount == old(retainCount) - 1
      ensures retainCount > 0 ==> unchanged(`taps, `box, `boxes, `ring, `gen)
      ensures retainCount == 0 < old(retainCount) ==>
                && taps == AllKilled(old(taps)) && box == None && ring == EmptyRing(fedQ) && gen == old(gen) + 1
                && boxes == DisposeCurrent(old(boxes), old(box))
    {
      hide TapsOk, BoxesOk, NoneRegistered, RingOk, ResizeNoted, AllKilled;
      if handle !in handles { return; }
      handles := handles - {handle};
      retainCount := retainCount - 1;
      if retainCount == 0 { EndRetained(); }
    }

    /** What is left once nobody wants the slot. */
    method EndRetained()
      requires TapsOk(taps, boxes, hist, gen) && BoxesOk(boxes, taps, box, hist) && (box.Some? ==> box.value < |boxes|)
      modifies this`taps, this`boxes, this`box, this`ring, this`gen
      ensures taps == AllKilled(old(taps)) && box == None && ring == EmptyRing(fedQ) && gen == old(gen) + 1
      ensures boxes == DisposeCurrent(old(boxes), old(box))
      ensures TapsOk(taps, boxes, hist, gen) && BoxesOk(boxes, taps, None, hist) && NoneRegistered(taps)
    {
      hide TapsOk, BoxesOk, NoneRegistered, AllKilled;
      LastRelease(taps, boxes, box, hist, gen);
      taps := KillAll(taps);
      if box.Some? { boxes := boxes[box.value := boxes[box.value].(retired := true, disposed := true)]; }
      box, ring, gen := None, EmptyRing(fedQ), gen + 1;
    }
  }
}
