/** One slot's read side together with its mirrors: every event that reaches the taps reaches the current mirror too,
    and a waiting tap is handed what its mirror answers. */
module MirroredSlot {
  import opened Options
  import opened Utf16
  import opened SlotEvents
  import opened TerminalRing
  import opened TerminalHub
  import Mirrors = TerminalMirror

  // ---- what the hub's books and a mirror's agree on ----

  /** What matters of a mirror. */
  datatype View = View(disposed: bool, issued: seq<MirrorOp>, asked: map<nat, nat>)

  /** The mirror was called exactly as the hub noted, and each tap that waits has a request with it, made when the
      mirror had been asked to absorb just what the tap remembers. */
  ghost predicate Linked(b: MirrorBox, v: View, requests: map<nat, nat>, taps: seq<Tap>) {
    && b.ops == v.issued && b.disposed == v.disposed
    && forall id | id in b.waiting :: HasRequest(id, v, requests, taps)
  }

  ghost predicate HasRequest(id: nat, v: View, requests: map<nat, nat>, taps: seq<Tap>) {
    && id < |taps| && id in requests && requests[id] in v.asked && v.asked[requests[id]] <= |v.issued|
    && taps[id].asked == v.issued[..v.asked[requests[id]]]
  }

  ghost predicate AllLinked(boxes: seq<MirrorBox>, views: seq<View>, requests: map<nat, nat>, taps: seq<Tap>) {
    |views| == |boxes| && forall k | 0 <= k < |boxes| :: Linked(boxes[k], views[k], requests, taps)
  }

  /** The taps may have changed, but not in what they asked for. */
  predicate SameAsked(before: seq<Tap>, after: seq<Tap>) {
    |before| <= |after| && forall id | 0 <= id < |before| :: after[id].asked == before[id].asked
  }

  lemma TapsChange(boxes: seq<MirrorBox>, views: seq<View>, requests: map<nat, nat>, taps: seq<Tap>, after: seq<Tap>)
    requires AllLinked(boxes, views, requests, taps) && SameAsked(taps, after)
    ensures AllLinked(boxes, views, requests, after)
  {
    forall k | 0 <= k < |boxes|
      ensures Linked(boxes[k], views[k], requests, after)
    {
      assert Linked(boxes[k], views[k], requests, taps);
      forall id | id in boxes[k].waiting
        ensures HasRequest(id, views[k], requests, after)
      {
        assert HasRequest(id, views[k], requests, taps);
      }
    }
  }

  /** One mirror changes, and the hub's note of it likewise. */
  lemma OneChanges(boxes: seq<MirrorBox>, views: seq<View>, requests: map<nat, nat>, taps: seq<Tap>, k: nat,
                   b: MirrorBox, v: View)
    requires AllLinked(boxes, views, requests, taps) && k < |boxes| && Linked(b, v, requests, taps)
    ensures AllLinked(boxes[k := b], views[k := v], requests, taps)
  {
    hide Linked;
  }

  lemma OneAdded(boxes: seq<MirrorBox>, views: seq<View>, requests: map<nat, nat>, taps: seq<Tap>, b: MirrorBox,
                 v: View)
    requires AllLinked(boxes, views, requests, taps) && Linked(b, v, requests, taps)
    ensures AllLinked(boxes + [b], views + [v], requests, taps)
  {
    hide Linked;
  }

  /** A further call disturbs no request already made. */
  lemma CallLinked(b: MirrorBox, v: View, requests: map<nat, nat>, taps: seq<Tap>, op: MirrorOp)
    requires Linked(b, v, requests, taps)
    ensures Linked(b.(ops := b.ops + [op]), v.(issued := v.issued + [op]), requests, taps)
  {
    var v' := v.(issued := v.issued + [op]);
    forall id | id in b.waiting
      ensures HasRequest(id, v', requests, taps)
    {
      assert HasRequest(id, v, requests, taps);
      PrefixStays(v.issued, op, v.asked[requests[id]]);
    }
  }

  lemma PrefixStays(ops: seq<MirrorOp>, op: MirrorOp, n: nat)
    requires n <= |ops|
    ensures (ops + [op])[..n] == ops[..n]
  {
  }

  /** Fewer waiting taps, a disposal noted on both sides: still linked. */
  lemma LessLinked(b: MirrorBox, v: View, requests: map<nat, nat>, taps: seq<Tap>, b': MirrorBox, v': View)
    requires Linked(b, v, requests, taps) && b'.waiting <= b.waiting
    requires b'.ops == b.ops && b'.disposed == v'.disposed && v'.issued == v.issued && v'.asked == v.asked
    ensures Linked(b', v', requests, taps)
  {
    forall id | id in b'.waiting
      ensures HasRequest(id, v', requests, taps)
    {
      assert HasRequest(id, v, requests, taps);
    }
  }

  /** A new tap waits for the mirror's answer to a new request. */
  lemma AskLinked(boxes: seq<MirrorBox>, views: seq<View>, requests: map<nat, nat>, taps: seq<Tap>, k: nat, t: Tap,
                  request: nat)
    requires AllLinked(boxes, views, requests, taps) && k < |boxes|
    requires request !in views[k].asked && t.asked == boxes[k].ops && |taps| !in boxes[k].waiting
    requires forall j | 0 <= j < |boxes| :: |taps| !in boxes[j].waiting
    ensures AllLinked(boxes[k := Asked(boxes[k], |taps|)],
                      views[k := views[k].(asked := views[k].asked[request := |views[k].issued|])],
                      requests[|taps| := request], taps + [t])
  {
    var bs := boxes[k := Asked(boxes[k], |taps|)];
    var vs := views[k := views[k].(asked := views[k].asked[request := |views[k].issued|])];
    var rs := requests[|taps| := request];
    assert Linked(boxes[k], views[k], requests, taps);
    assert views[k].issued[..|views[k].issued|] == views[k].issued;
    forall j | 0 <= j < |bs|
      ensures Linked(bs[j], vs[j], rs, taps + [t])
    {
      assert Linked(boxes[j], views[j], requests, taps);
      forall id | id in bs[j].waiting
        ensures HasRequest(id, vs[j], rs, taps + [t])
      {
        if id != |taps| { assert HasRequest(id, views[j], requests, taps); }
      }
    }
  }

  // ---- the hub's steps leave what was asked for alone ----

  lemma {:induction false} DeliverAsked(t: Tap, fs: seq<Delivery>)
    ensures Deliver(t, fs).asked == t.asked
    decreases |fs|
  {
    if !t.dead && fs != [] && t.throwsOn != Some(|t.delivered|) {
      DeliverAsked(t.(delivered := t.delivered + [fs[0]]), fs[1..]);
    }
  }

  lemma {:induction false} DeliverWaits(t: Tap, fs: seq<Delivery>)
    ensures Deliver(t, fs).pending == t.pending
    decreases |fs|
  {
    if !t.dead && fs != [] && t.throwsOn != Some(|t.delivered|) {
      DeliverWaits(t.(delivered := t.delivered + [fs[0]]), fs[1..]);
    }
  }

  lemma PushedAsked(t: Tap, e: Delivery)
    ensures Pushed(t, e).asked == t.asked
  {
    if !t.dead && !t.pending { DeliverAsked(t.(queue := []), t.queue + [e]); }
  }

  lemma AllPushedAsked(taps: seq<Tap>, e: Delivery)
    ensures SameAsked(taps, AllPushed(taps, e))
  {
    hide Pushed;
    forall id | 0 <= id < |taps|
      ensures AllPushed(taps, e)[id].asked == taps[id].asked
    {
      PushedAsked(taps[id], e);
    }
  }

  lemma AllAtStartAsked(taps: seq<Tap>, e: Delivery, n: nat)
    ensures SameAsked(taps, AllAtStart(taps, e, n))
  {
    hide Pushed;
    forall id | 0 <= id < |taps|
      ensures AllAtStart(taps, e, n)[id].asked == taps[id].asked
    {
      PushedAsked(if taps[id].pending then taps[id].(pending := false, held := [], join := Restarted, from := n)
                  else taps[id].(held := []), e);
    }
  }

  lemma AllKilledAsked(taps: seq<Tap>)
    ensures SameAsked(taps, AllKilled(taps))
  {
  }

  /** The current mirror, if any, gets one more call. */
  function Called(views: seq<View>, current: Option<nat>, op: MirrorOp): seq<View> {
    if current.Some? && current.value < |views|
    then views[current.value := views[current.value].(issued := views[current.value].issued + [op])] else views
  }

  lemma CurrentCalled(boxes: seq<MirrorBox>, views: seq<View>, requests: map<nat, nat>, taps: seq<Tap>,
                      current: Option<nat>, op: MirrorOp, after: seq<Tap>)
    requires AllLinked(boxes, views, requests, taps) && SameAsked(taps, after)
    ensures AllLinked(Fed(boxes, current, [op]), Called(views, current, op), requests, after)
  {
    if current.Some? && current.value < |boxes| {
      var k := current.value;
      CallLinked(boxes[k], views[k], requests, taps, op);
      OneChanges(boxes, views, requests, taps, k, boxes[k].(ops := boxes[k].ops + [op]),
                 views[k].(issued := views[k].issued + [op]));
    }
    TapsChange(Fed(boxes, current, [op]), Called(views, current, op), requests, taps, after);
  }

  /** A mirror the hub has disposed is disposed. */
  function Disposed(views: seq<View>, current: Option<nat>, boxes: seq<MirrorBox>): seq<View> {
    if current.Some? && current.value < |views| && current.value < |boxes|
    then views[current.value := views[current.value].(disposed := views[current.value].disposed
                                                      || boxes[current.value].disposed)] else views
  }

  /** The hub notes that a mirror is retired, disposed or owes less. */
  lemma BoxLeaves(boxes: seq<MirrorBox>, views: seq<View>, requests: map<nat, nat>, taps: seq<Tap>, k: nat,
                  b: MirrorBox, after: seq<Tap>)
    requires AllLinked(boxes, views, requests, taps) && SameAsked(taps, after) && k < |boxes|
    requires b.waiting <= boxes[k].waiting && b.ops == boxes[k].ops && (boxes[k].disposed ==> b.disposed)
    ensures AllLinked(boxes[k := b], Disposed(views, Some(k), boxes[k := b]), requests, after)
  {
    hide HasRequest;
    assert Linked(boxes[k], views[k], requests, taps);
    var v := views[k].(disposed := b.disposed);
    LessLinked(boxes[k], views[k], requests, taps, b, v);
    OneChanges(boxes, views, requests, taps, k, b, v);
    TapsChange(boxes[k := b], views[k := v], requests, taps, after);
  }

  /** A fresh mirror, if one is made. */
  lemma BoxMade(boxes: seq<MirrorBox>, views: seq<View>, requests: map<nat, nat>, taps: seq<Tap>, info: Info,
                mirrorFails: bool, born: nat)
    requires AllLinked(boxes, views, requests, taps)
    ensures AllLinked(boxes + MadeBox(info, mirrorFails, born),
                      if MadeBox(info, mirrorFails, born) == [] then views else views + [View(false, [], map[])],
                      requests, taps)
  {
    hide HasRequest;
    if MadeBox(info, mirrorFails, born) == [] {
      assert boxes + [] == boxes;
    } else {
      OneAdded(boxes, views, requests, taps, NewBox(info.cols, info.rows, born), View(false, [], map[]));
    }
  }

  lemma LinkedSizes(boxes: seq<MirrorBox>, views: seq<View>, requests: map<nat, nat>, taps: seq<Tap>)
    requires AllLinked(boxes, views, requests, taps)
    ensures |views| == |boxes|
    ensures forall k | 0 <= k < |boxes| :: views[k].disposed == boxes[k].disposed && views[k].issued == boxes[k].ops
  {
    hide HasRequest;
  }

  lemma CurrentLives(boxes: seq<MirrorBox>, taps: seq<Tap>, current: Option<nat>, h: History)
    requires BoxesOk(boxes, taps, current, h)
    ensures current.Some? && current.value < |boxes| ==> !boxes[current.value].disposed
    ensures forall k | 0 <= k < |boxes| :: |taps| !in boxes[k].waiting
  {
    hide OpsSince, NoStartSince;
    forall k | 0 <= k < |boxes|
      ensures |taps| !in boxes[k].waiting && (current == Some(k) ==> !boxes[k].disposed)
    {
      assert BoxOk(k, boxes[k], taps, current, h);
    }
  }

  ghost function ViewsOf(mirrors: seq<Mirrors.TerminalMirror>): (r: seq<View>)
    reads mirrors
    ensures |r| == |mirrors|
  {
    seq(|mirrors|, k requires 0 <= k < |mirrors| reads mirrors =>
        View(mirrors[k].disposed, mirrors[k].issued, mirrors[k].asked))
  }

  lemma ViewsMore(mirrors: seq<Mirrors.TerminalMirror>, mirror: Mirrors.TerminalMirror)
    ensures ViewsOf(mirrors + [mirror]) == ViewsOf(mirrors) + [View(mirror.disposed, mirror.issued, mirror.asked)]
  {
  }

  predicate Distinct(mirrors: seq<Mirrors.TerminalMirror>) {
    forall j, k | 0 <= j < k < |mirrors| :: mirrors[j] != mirrors[k]
  }

  lemma DistinctMore(mirrors: seq<Mirrors.TerminalMirror>, mirror: Mirrors.TerminalMirror)
    requires Distinct(mirrors) && mirror !in mirrors
    ensures Distinct(mirrors + [mirror])
  {
  }

  class MirroredSlot {
    const hub: SlotRead
    const readable: Mirrors.Readable          // of which screens a snapshot can be taken
    var mirrors: seq<Mirrors.TerminalMirror>  // one for each of the hub's boxes
    var requests: map<nat, nat>               // per waiting tap, its mirror's request

    ghost function Views(): (r: seq<View>)
      reads this`mirrors, mirrors
      ensures |r| == |mirrors|
    {
      ViewsOf(mirrors)
    }

    ghost predicate MirrorsOk()
      reads this`mirrors, mirrors
    {
      (forall k | 0 <= k < |mirrors| :: mirrors[k].Valid() && mirrors[k].readable == readable) && Distinct(mirrors)
    }

    ghost predicate Valid()
      reads this, hub, mirrors
    {
      && hub.Valid() && MirrorsOk() && |mirrors| == |hub.boxes|
      && AllLinked(hub.boxes, Views(), requests, hub.taps)
    }

    constructor (readable: Mirrors.Readable)
      ensures Valid() && fresh(hub) && hub.hist == Empty && mirrors == [] && requests == map[]
      ensures this.readable == readable
    {
      hub := new SlotRead();
      this.readable := readable;
      mirrors, requests := [], map[];
    }

    lemma TapsAreOk()
      requires Valid()
      ensures TapsOk(hub.taps, hub.boxes, hub.hist, hub.gen)
    {
      hide TapsOk, BoxesOk, RingOk, ResizeNoted, AllLinked;
    }

    // ---- one mirror ----

    method CallMirror(k: nat, op: MirrorOp)
      requires MirrorsOk() && k < |mirrors| && !mirrors[k].disposed && (op.Write? ==> op.d != [])
      modifies mirrors[k]
      ensures MirrorsOk() && Views() == Called(old(Views()), Some(k), op)
    {
      hide Mirrors.TerminalMirror.Valid;
      match op
      case Write(d) => mirrors[k].Write(d);
      case Resize(cols, rows) => mirrors[k].Resize(cols, rows);
    }

    method DisposeMirror(k: nat)
      requires MirrorsOk() && k < |mirrors|
      modifies mirrors[k]
      ensures MirrorsOk() && Views() == old(Views())[k := old(Views())[k].(disposed := true)]
      ensures mirrors[k].unparsed == old(mirrors[k].unparsed)
    {
      mirrors[k].Dispose();
    }

    method AskMirror(k: nat) returns (request: nat)
      requires MirrorsOk() && k < |mirrors|
      modifies mirrors[k]
      ensures MirrorsOk() && request !in old(Views())[k].asked
      ensures Views() ==
              old(Views())[k := old(Views())[k].(asked := old(Views())[k].asked[request := |old(Views())[k].issued|])]
    {
      request := mirrors[k].Request();
    }

    method AddMirror() returns (mirror: Mirrors.TerminalMirror)
      requires MirrorsOk()
      modifies this`mirrors
      ensures MirrorsOk() && mirrors == old(mirrors) + [mirror] && fresh(mirror)
      ensures Views() == old(Views()) + [View(false, [], map[])]
    {
      hide Distinct, ViewsOf, Mirrors.TerminalMirror.Valid;
      ghost var before := mirrors;
      mirror := new Mirrors.TerminalMirror(readable);
      DistinctMore(before, mirror);
      ViewsMore(before, mirror);
      mirrors := mirrors + [mirror];
    }

    /** A parse callback of any mirror. */
    method ParseDone(k: nat)
      requires Valid() && k < |mirrors| && mirrors[k].unparsed != []
      modifies mirrors[k]
      ensures Valid() && Views() == old(Views())
      ensures mirrors[k].disposed ==> mirrors[k].unparsed == old(mirrors[k].unparsed)[1..]
      ensures !mirrors[k].disposed ==>
                old(mirrors[k].head <= |mirrors[k].queue|) && mirrors[k].head <= |mirrors[k].queue|
                && mirrors[k].State() == Mirrors.Rested(Mirrors.Parsed(old(mirrors[k].State())))
    {
      mirrors[k].ParseDone();
      assert Views() == old(Views());
    }

    // ---- events ----

    /** Output reaches the current mirror and the taps. */
    method OnOut(q: nat, d: JsString)
      requires Valid() && hub.hist.MayReport(Out(q, d)) && d != []
      modifies hub, mirrors
      ensures Valid() && hub.hist == Then(old(hub.hist), Out(q, d))
      ensures SameBirths(old(hub.boxes), hub.boxes) && |hub.boxes| == |old(hub.boxes)|
    {
      hide AllLinked, AllPushed, TapsOk, BoxesOk, RingOk, ResizeNoted, Called, Fed, SlotRead.Valid;
      hub.CurrentBox();
      ghost var boxes, views, taps := hub.boxes, Views(), hub.taps;
      LinkedSizes(boxes, views, requests, taps);
      CurrentLives(boxes, taps, hub.box, hub.hist);
      CalledNone(views, Write(d));
      if hub.box.Some? { CallMirror(hub.box.value, Write(d)); }
      hub.OnOut(q, d);
      BirthsKept(boxes, hub.box, [Write(d)]);
      AllPushedAsked(taps, OutFrame(q, d));
      CurrentCalled(boxes, views, requests, taps, hub.box, Write(d), hub.taps);
      assert Views() == Called(views, hub.box, Write(d));
    }

    /** A resize reaches the current mirror and the taps. */
    method OnSize(cols: nat, rows: nat)
      requires Valid()
      modifies hub, mirrors
      ensures Valid() && hub.hist == Then(old(hub.hist), Size(cols, rows))
      ensures SameBirths(old(hub.boxes), hub.boxes) && |hub.boxes| == |old(hub.boxes)|
    {
      hide AllLinked, AllPushed, TapsOk, BoxesOk, RingOk, ResizeNoted, Called, Fed, SlotRead.Valid;
      hub.CurrentBox();
      ghost var boxes, views, taps := hub.boxes, Views(), hub.taps;
      LinkedSizes(boxes, views, requests, taps);
      CurrentLives(boxes, taps, hub.box, hub.hist);
      CalledNone(views, Resize(cols, rows));
      if hub.box.Some? { CallMirror(hub.box.value, Resize(cols, rows)); }
      hub.OnSize(cols, rows);
      BirthsKept(boxes, hub.box, [Resize(cols, rows)]);
      AllPushedAsked(taps, SizeFrame(cols, rows));
      CurrentCalled(boxes, views, requests, taps, hub.box, Resize(cols, rows), hub.taps);
      assert Views() == Called(views, hub.box, Resize(cols, rows));
    }

    /** A mirror the hub gave up, if it disposed it, is disposed. */
    method Retire(was: Option<nat>)
      requires MirrorsOk() && |mirrors| <= |hub.boxes| && (was.Some? ==> was.value < |mirrors|)
      modifies mirrors
      ensures MirrorsOk() && Views() == Disposed(old(Views()), was, hub.boxes)
      ensures forall k | 0 <= k < |mirrors| :: mirrors[k].unparsed == old(mirrors[k].unparsed)
    {
      if was.Some? && hub.boxes[was.value].disposed { DisposeMirror(was.value); }
      assert Views() == Disposed(old(Views()), was, hub.boxes);
    }

    /** A mirror is made for the hub's new box, if it has one. */
    method Make(made: bool)
      requires MirrorsOk()
      modifies this`mirrors
      ensures MirrorsOk() && Views() == MadeViews(old(Views()), made)
              && fresh(set m | m in mirrors && m !in old(mirrors))
    {
      if made { var _ := AddMirror(); }
    }

    /** A process start: the taps begin again, the old mirror retires and a fresh one may be made. */
    method OnStart(q: nat, cols: nat, rows: nat, info: Info, mirrorFails: bool)
      requires Valid() && hub.hist.MayReport(SlotEvent.Start(q, cols, rows))
      modifies this, hub, mirrors
      ensures Valid() && hub.hist == Then(old(hub.hist), SlotEvent.Start(q, cols, rows))
      ensures Births(old(hub.boxes), hub.boxes, info, hub.hist.Len())
      ensures hub.retainCount > 0 ==>
                (hub.box.Some? <==> info.state.Running? && info.cols > 0 && info.rows > 0 && !mirrorFails)
                && (hub.box.Some? ==> hub.box.value == |old(hub.boxes)|)
      ensures fresh(set m | m in mirrors && m !in old(mirrors))
    {
      hide AllLinked, AllAtStart, TapsOk, BoxesOk, RingOk, ResizeNoted, Disposed, MadeViews, RetireCurrent, MadeBox,
           SlotRead.Valid;
      hub.CurrentBox();
      ghost var boxes, views, taps := hub.boxes, Views(), hub.taps;
      var was := hub.box;
      hub.OnStart(q, cols, rows, info, mirrorFails);
      BirthsMade(boxes, was, info, mirrorFails, hub.hist.Len());
      AllAtStartAsked(taps, SnapFrame(q, cols, rows, NoScreen), old(hub.hist).Len());
      if hub.retainCount == 0 {
        TapsChange(boxes, views, requests, taps, hub.taps);
        assert Views() == views;
        return;
      }
      Replaced(boxes, views, requests, taps, was, info, mirrorFails, hub.hist.Len(), hub.taps);
      Retire(was);
      Make(hub.box.Some?);
    }

    /** An exit retires the current mirror; other states reach nobody. */
    method OnState(state: SlotState)
      requires Valid()
      modifies hub, mirrors
      ensures Valid() && hub.hist == Then(old(hub.hist), State(state))
      ensures SameBirths(old(hub.boxes), hub.boxes) && |hub.boxes| == |old(hub.boxes)|
    {
      hide AllLinked, TapsOk, BoxesOk, RingOk, ResizeNoted, Disposed, RetireCurrent, SlotRead.Valid;
      hub.CurrentBox();
      ghost var boxes, views, taps := hub.boxes, Views(), hub.taps;
      var was := hub.box;
      hub.OnState(state);
      BirthsKept(boxes, was, []);
      assert Views() == views;
      if state.Exited? && hub.retainCount > 0 {
        RetiredLinked(boxes, views, requests, taps, was, hub.taps);
        Retire(was);
      }
    }

    // ---- taps ----

    /** A client joins; if it waits for a snapshot, the current mirror is asked for one. */
    method Attach(lastQ: Option<int>, throwsOn: Option<nat>, info: Info) returns (id: nat)
      requires Valid()
      modifies this`requests, hub`taps, hub`boxes, mirrors
      ensures Valid() && id == |old(hub.taps)| && |hub.taps| == id + 1 && hub.taps[..id] == old(hub.taps)
      ensures JoinedAs(hub.taps[id], hub.retainCount > 0, hub.Resumable(lastQ), lastQ, hub.box, hub.hist, info)
      ensures SameBirths(old(hub.boxes), hub.boxes) && |hub.boxes| == |old(hub.boxes)|
    {
      hide AllLinked, TapsOk, BoxesOk, RingOk, ResizeNoted, Deliver, Feed, JoinAt, SlotRead.Valid, JoinedAs;
      hub.CurrentBox();
      if hub.retainCount > 0 && !hub.Resumable(lastQ) && hub.box.Some? {
        id := AttachWaiting(lastQ, throwsOn, info);
        return;
      }
      ghost var boxes, views, taps := hub.boxes, Views(), hub.taps;
      id := hub.Attach(lastQ, throwsOn, info);
      TapsChange(boxes, views, requests, taps, hub.taps);
      assert Views() == views;
    }

    method AttachWaiting(lastQ: Option<int>, throwsOn: Option<nat>, info: Info) returns (id: nat)
      requires Valid() && hub.retainCount > 0 && !hub.Resumable(lastQ) && hub.box.Some?
      modifies this`requests, hub`taps, hub`boxes, mirrors[hub.box.value]
      ensures Valid() && id == |old(hub.taps)| && |hub.taps| == id + 1 && hub.taps[..id] == old(hub.taps)
      ensures JoinedAs(hub.taps[id], hub.retainCount > 0, hub.Resumable(lastQ), lastQ, hub.box, hub.hist, info)
      ensures SameBirths(old(hub.boxes), hub.boxes) && |hub.boxes| == |old(hub.boxes)|
    {
      hide AllLinked, BoxesOk, SlotRead.Valid, ViewsOf, Distinct, JoinedAs, Mirrors.TerminalMirror.Valid, TapsOk,
           RingOk;
      hub.CurrentBox();
      ghost var boxes, views, taps := hub.boxes, Views(), hub.taps;
      CurrentLives(boxes, taps, hub.box, hub.hist);
      var k := hub.box.value;
      var request := AskMirror(k);
      ghost var asked := Views();
      id := TapWaits(hub, lastQ, throwsOn, info);
      AskLinked(boxes, views, requests, taps, k, hub.taps[id], request);
      requests := requests[id := request];
      assert Views() == asked;
    }

    /** A client leaves. */
    method Detach(id: nat)
      requires Valid() && id < |hub.taps|
      modifies hub`taps
      ensures Valid() && hub.taps == old(hub.taps)[id := Kill(old(hub.taps)[id])]
    {
      hide AllLinked, TapsOk, BoxesOk, RingOk, ResizeNoted, SlotRead.Valid;
      hub.CurrentBox();
      ghost var views, taps := Views(), hub.taps;
      hub.Detach(id);
      TapsChange(hub.boxes, views, requests, taps, hub.taps);
      assert Views() == views;
    }

    /** Tap `id` has a request that has not settled. */
    predicate Owed(id: nat)
      reads this, hub
    {
      && id < |hub.taps| && hub.taps[id].box < |hub.boxes| && hub.taps[id].box < |mirrors|
      && id in hub.boxes[hub.taps[id].box].waiting && id in requests
    }

    /** The mirror's answer to a waiting tap's request is there. What the tap is handed, if it still waits, is the
        screen of a mirror that had absorbed exactly what the hub had fed it when the tap attached. */
    method Settle(id: nat, info: Info) returns (answer: Mirrors.Answer)
      requires Valid() && Owed(id) && requests[id] in mirrors[hub.taps[id].box].answers
      modifies hub`taps, hub`boxes, mirrors
      ensures Valid() && answer == old(mirrors[hub.taps[id].box].answers[requests[id]])
              && Answers(answer, old(hub.taps)[id])
      ensures forall k | 0 <= k < |mirrors| :: mirrors[k].unparsed == old(mirrors[k].unparsed)
      ensures old(hub.taps)[id].registered ==> (answer.Shown? <==> readable(old(hub.taps)[id].asked))
      ensures TapSettled(old(hub.taps), hub.taps, id, old(hub.boxes[hub.taps[id].box]), answer, info)
      ensures SameBirths(old(hub.boxes), hub.boxes) && |hub.boxes| == |old(hub.boxes)|
    {
      hide AllLinked, TapsOk, BoxesOk, RingOk, ResizeNoted, Deliver, Disposed, SlotRead.Valid, Distinct, TapSettled,
           Mirrors.TerminalMirror.Valid;
      hub.CurrentBox();
      ghost var boxes, views, taps := hub.boxes, Views(), hub.taps;
      var k := hub.taps[id].box;
      answer := mirrors[k].answers[requests[id]];
      mirrors[k].AnswerShows(requests[id]);
      AnswerFits(boxes, views, requests, taps, k, id);
      hub.StillAwaited(id);
      hub.Settle(id, answer, info);
      SettledAsked(taps, hub.taps, id, boxes[k], answer, info);
      BoxLeaves(boxes, views, requests, taps, k, Settled(boxes[k], id), hub.taps);
      Retire(Some(k));
    }

    // ---- nobody waits for ever ----

    /** A client that waits is owed an answer, and once its mirror's text is parsed the answer is there. */
    lemma WaitingIsServed(id: nat)
      requires Valid() && id < |hub.taps| && hub.taps[id].registered && hub.taps[id].pending
      ensures Owed(id) && requests[id] in mirrors[hub.taps[id].box].asked
      ensures mirrors[hub.taps[id].box].unparsed == [] ==> requests[id] in mirrors[hub.taps[id].box].answers
      ensures hub.taps[id].snapGen == hub.gen
    {
      hide AllLinked, BoxesOk, RingOk, ResizeNoted;
      assert TapOk(id, hub.taps[id], hub.boxes, hub.hist, hub.gen);
      AnswerFits(hub.boxes, Views(), requests, hub.taps, hub.taps[id].box, id);
      var mirror := mirrors[hub.taps[id].box];
      if mirror.unparsed == [] { mirror.QuietAnswersAll(); }
    }

    method ParseMirror(k: nat)
      requires MirrorsOk() && k < |mirrors|
      modifies mirrors[k]
      ensures MirrorsOk() && Views() == old(Views()) && mirrors[k].unparsed == []
    {
      mirrors[k].ParseAll();
      assert Views() == old(Views());
    }

    /** Every mirror's text is parsed. */
    method ParseAll()
      requires Valid()
      modifies mirrors
      ensures Valid() && Views() == old(Views()) && forall k | 0 <= k < |mirrors| :: mirrors[k].unparsed == []
    {
      hide AllLinked, SlotRead.Valid, ViewsOf;
      var i := 0;
      while i < |mirrors|
        invariant 0 <= i <= |mirrors| && MirrorsOk() && Views() == old(Views())
        invariant forall k | 0 <= k < i :: mirrors[k].unparsed == []
      {
        ParseMirror(i);
        i := i + 1;
      }
    }

    /** A client that waits is served. */
    method Serve(id: nat, info: Info)
      requires Valid() && id < |hub.taps| && hub.taps[id].registered && hub.taps[id].pending
      requires forall k | 0 <= k < |mirrors| :: mirrors[k].unparsed == []
      modifies hub`taps, hub`boxes, mirrors
      ensures Valid() && |hub.taps| == |old(hub.taps)| && !hub.taps[id].pending
      ensures SameBirths(old(hub.boxes), hub.boxes) && |hub.boxes| == |old(hub.boxes)|
      ensures hub.taps == old(hub.taps)[id := hub.taps[id]]
      ensures forall k | 0 <= k < |mirrors| :: mirrors[k].unparsed == []
    {
      hide AllLinked, SlotRead.Valid, ViewsOf, SettledFrame, Deliver;
      WaitingIsServed(id);
      ghost var t, b := hub.taps[id], hub.boxes[hub.taps[id].box];
      var answer := Settle(id, info);
      ghost var f := SettledFrame(t, b, answer, info);
      DeliverWaits(t.(pending := false, held := [], join := Snapped(f, b.born)), [f] + t.held);
    }

    /** Once all text is parsed and all answers are delivered no client waits. */
    method ServeAll(info: Info)
      requires Valid()
      modifies hub`taps, hub`boxes, mirrors
      ensures Valid() && |hub.taps| == |old(hub.taps)|
      ensures SameBirths(old(hub.boxes), hub.boxes) && |hub.boxes| == |old(hub.boxes)|
      ensures forall id | 0 <= id < |hub.taps| && hub.taps[id].registered :: !hub.taps[id].pending
    {
      hide AllLinked, SlotRead.Valid, Views, SettledFrame, Deliver;
      ParseAll();
      var id := 0;
      while id < |hub.taps|
        invariant 0 <= id <= |hub.taps| == |old(hub.taps)| && Valid()
        invariant SameBirths(old(hub.boxes), hub.boxes) && |hub.boxes| == |old(hub.boxes)|
        invariant forall k | 0 <= k < |mirrors| :: mirrors[k].unparsed == []
        invariant forall j | 0 <= j < id && hub.taps[j].registered :: !hub.taps[j].pending
      {
        if hub.taps[id].registered && hub.taps[id].pending { Serve(id, info); }
        id := id + 1;
      }
    }

    // ---- retaining ----

    method Retain(info: Info, mirrorFails: bool) returns (handle: nat)
      requires Valid()
      modifies this, hub
      ensures Valid() && hub.hist == old(hub.hist) && hub.taps == old(hub.taps)
      ensures Births(old(hub.boxes), hub.boxes, info, hub.hist.Len())
      ensures hub.retainCount == old(hub.retainCount) + 1 && (hub.retainCount > 1 ==> hub.box == old(hub.box))
      ensures hub.retainCount == 1 ==>
                (hub.box.Some? <==> info.state.Running? && info.cols > 0 && info.rows > 0 && !mirrorFails)
      ensures fresh(set m | m in mirrors && m !in old(mirrors))
    {
      hide AllLinked, TapsOk, BoxesOk, RingOk, ResizeNoted, MadeViews, MadeBox, SlotRead.Valid;
      hub.CurrentBox();
      ghost var boxes, views, taps := hub.boxes, Views(), hub.taps;
      handle := hub.Retain(info, mirrorFails);
      BirthsMade(boxes, None, info, mirrorFails, hub.hist.Len());
      assert Views() == views;
      if hub.retainCount == 1 {
        MadeLinked(boxes, views, requests, taps, info, mirrorFails, hub.hist.Len());
        Make(hub.box.Some?);
      }
    }

    /** The last release disposes the current mirror, whatever it still owes. */
    method Release(handle: nat)
      requires Valid() && handle < hub.issued
      modifies hub, mirrors
      ensures Valid() && hub.hist == old(hub.hist)
      ensures hub.handles == old(hub.handles) - {handle}
      ensures hub.retainCount == old(hub.retainCount) - (if handle in old(hub.handles) then 1 else 0)
      ensures if hub.retainCount == 0 < old(hub.retainCount)
              then hub.box == None && hub.taps == AllKilled(old(hub.taps))
              else hub.box == old(hub.box) && hub.taps == old(hub.taps)
      ensures SameBirths(old(hub.boxes), hub.boxes) && |hub.boxes| == |old(hub.boxes)|
    {
      hide AllLinked, TapsOk, BoxesOk, RingOk, ResizeNoted, Disposed, AllKilled, DisposeCurrent, SlotRead.Valid;
      hub.CurrentBox();
      ghost var boxes, views, taps := hub.boxes, Views(), hub.taps;
      var was, count := hub.box, hub.retainCount;
      hub.Release(handle);
      BirthsKept(boxes, was, []);
      assert Views() == views;
      if hub.retainCount == 0 && count > 0 {
        AllKilledAsked(taps);
        DisposedLinked(boxes, views, requests, taps, was, hub.taps);
        Retire(was);
      }
    }
  }

  lemma SettledAsked(taps: seq<Tap>, after: seq<Tap>, id: nat, b: MirrorBox, answer: Mirrors.Answer, info: Info)
    requires TapSettled(taps, after, id, b, answer, info)
    ensures SameAsked(taps, after)
  {
    hide SettledFrame, Snapshot, Deliver;
    var f := SettledFrame(taps[id], b, answer, info);
    DeliverAsked(taps[id].(pending := false, held := [], join := Snapped(f, b.born)), [f] + taps[id].held);
  }

  /** What attaching does to the hub when there is a mirror to wait for. */
  method TapWaits(hub: SlotRead, lastQ: Option<int>, throwsOn: Option<nat>, info: Info) returns (id: nat)
    requires hub.Valid() && hub.retainCount > 0 && !hub.Resumable(lastQ) && hub.box.Some? && hub.box.value < |hub.boxes|
    modifies hub`taps, hub`boxes
    ensures hub.Valid() && id == |old(hub.taps)| && |hub.taps| == id + 1 && hub.taps == old(hub.taps) + [hub.taps[id]]
    ensures JoinedAs(hub.taps[id], hub.retainCount > 0, hub.Resumable(lastQ), lastQ, hub.box, hub.hist, info)
    ensures hub.taps[id].asked == old(hub.boxes)[hub.box.value].ops
    ensures hub.boxes == old(hub.boxes)[hub.box.value := Asked(old(hub.boxes)[hub.box.value], id)]
  {
    hide SlotRead.Valid, Deliver, Feed, JoinAt, JoinedAs;
    id := hub.Attach(lastQ, throwsOn, info);
  }

  lemma CalledNone(views: seq<View>, op: MirrorOp)
    ensures Called(views, None, op) == views
  {
  }

  function MadeViews(views: seq<View>, made: bool): seq<View> {
    if made then views + [View(false, [], map[])] else views
  }

  lemma MadeLinked(boxes: seq<MirrorBox>, views: seq<View>, requests: map<nat, nat>, taps: seq<Tap>, info: Info,
                   mirrorFails: bool, born: nat)
    requires AllLinked(boxes, views, requests, taps)
    ensures AllLinked(boxes + MadeBox(info, mirrorFails, born),
                      MadeViews(views, MadeBox(info, mirrorFails, born) != []), requests, taps)
    ensures |boxes + MadeBox(info, mirrorFails, born)| == |MadeViews(views, MadeBox(info, mirrorFails, born) != [])|
  {
    hide Linked;
    BoxMade(boxes, views, requests, taps, info, mirrorFails, born);
  }

  lemma RetiredLinked(boxes: seq<MirrorBox>, views: seq<View>, requests: map<nat, nat>, taps: seq<Tap>,
                      was: Option<nat>, after: seq<Tap>)
    requires AllLinked(boxes, views, requests, taps) && SameAsked(taps, after)
    ensures AllLinked(RetireCurrent(boxes, was), Disposed(views, was, RetireCurrent(boxes, was)), requests, after)
    ensures |RetireCurrent(boxes, was)| == |boxes| == |views|
  {
    hide Linked;
    if was.Some? && was.value < |boxes| {
      BoxLeaves(boxes, views, requests, taps, was.value, Retired(boxes[was.value]), after);
    } else {
      TapsChange(boxes, views, requests, taps, after);
    }
  }

  lemma DisposedLinked(boxes: seq<MirrorBox>, views: seq<View>, requests: map<nat, nat>, taps: seq<Tap>,
                       was: Option<nat>, after: seq<Tap>)
    requires AllLinked(boxes, views, requests, taps) && SameAsked(taps, after)
    ensures AllLinked(DisposeCurrent(boxes, was), Disposed(views, was, DisposeCurrent(boxes, was)), requests, after)
    ensures |DisposeCurrent(boxes, was)| == |boxes| == |views|
  {
    hide Linked;
    if was.Some? && was.value < |boxes| {
      BoxLeaves(boxes, views, requests, taps, was.value, boxes[was.value].(retired := true, disposed := true), after);
    } else {
      TapsChange(boxes, views, requests, taps, after);
    }
  }

  lemma Replaced(boxes: seq<MirrorBox>, views: seq<View>, requests: map<nat, nat>, taps: seq<Tap>, was: Option<nat>,
                 info: Info, mirrorFails: bool, born: nat, after: seq<Tap>)
    requires AllLinked(boxes, views, requests, taps) && SameAsked(taps, after)
    ensures var retired, made := RetireCurrent(boxes, was), MadeBox(info, mirrorFails, born);
            && AllLinked(retired + made, MadeViews(Disposed(views, was, retired + made), made != []), requests, after)
            && |MadeViews(Disposed(views, was, retired + made), made != [])| == |retired + made|
            && |retired| == |boxes| == |views|
  {
    hide AllLinked, MadeBox;
    RetiredLinked(boxes, views, requests, taps, was, after);
    var retired := RetireCurrent(boxes, was);
    MadeLinked(retired, Disposed(views, was, retired), requests, after, info, mirrorFails, born);
    LinkedSizes(boxes, views, requests, taps);
  }

  lemma AnswerFits(boxes: seq<MirrorBox>, views: seq<View>, requests: map<nat, nat>, taps: seq<Tap>, k: nat, id: nat)
    requires AllLinked(boxes, views, requests, taps) && k < |boxes| && id in boxes[k].waiting
    ensures HasRequest(id, views[k], requests, taps) && boxes[k].disposed == views[k].disposed
  {
    hide HasRequest;
    assert Linked(boxes[k], views[k], requests, taps);
  }
}
