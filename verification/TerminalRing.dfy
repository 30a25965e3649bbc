/** The byte-bounded replay ring of one terminal slot, and what a replay from it amounts to. */
module TerminalRing {
  import opened Utf16
  import opened SlotEvents
  import Json

  const RING_BYTES := 256 * 1024

  datatype RingEntry = RingEntry(q: nat, cost: nat, d: JsString)

  /** What a mirror is asked to absorb, in call order. */
  datatype MirrorOp = Write(d: JsString) | Resize(cols: nat, rows: nat)

  /** A serialized screen, named by what produced it: a mirror of some size after absorbing some operations. */
  datatype Screen = NoScreen | ScreenOf(cols: nat, rows: nat, ops: seq<MirrorOp>)

  datatype Delivery =
    | SnapFrame(q: nat, cols: nat, rows: nat, screen: Screen)
    | OutFrame(q: nat, d: JsString)
    | SizeFrame(cols: nat, rows: nat)

  function EntryOf(q: nat, d: JsString): RingEntry { RingEntry(q, Json.EncodedLength(d), d) }

  /** Output costs what its JSON string takes. */
  lemma EntryIs(q: nat, d: JsString)
    ensures EntryOf(q, d) == RingEntry(q, |Json.Escape(d)| + 2, d)
  {
    Json.EncodedLengthIs(d);
  }

  /** The first `n` events. */
  function At(h: History, n: nat): (r: History)
    ensures n <= h.Len() ==> r.Len() == n
  {
    if h.Len() <= n then h else At(h.before, n)
  }

  /** The frames a client owes to the events from position `from` on. */
  function Feed(h: History, from: nat): seq<Delivery> {
    if h.Len() <= from then [] else Feed(h.before, from) + FramesOf(h.last)
  }

  function FramesOf(e: SlotEvent): seq<Delivery> {
    match e
    case Out(q, d) => [OutFrame(q, d)]
    case Size(cols, rows) => [SizeFrame(cols, rows)]
    case State(_) => []
    case Start(q, cols, rows) => [SnapFrame(q, cols, rows, NoScreen)]
  }

  /** The position just after the event numbered `n`. */
  function JoinAt(h: History, n: nat): nat {
    if h.Empty? then 0
    else if h.before.LastQ() >= n then JoinAt(h.before, n)
    else h.Len()
  }

  /** The output numbered `floor` or later. */
  function OutputFrom(h: History, floor: nat): seq<RingEntry> {
    if h.Empty? then []
    else
      var before := OutputFrom(h.before, floor);
      if h.last.Out? && h.last.q >= floor then before + [EntryOf(h.last.q, h.last.d)] else before
  }

  /** What the output numbered `floor` or later costs. */
  function CostFrom(h: History, floor: nat): nat {
    if h.Empty? then 0
    else CostFrom(h.before, floor) + (if h.last.Out? && h.last.q >= floor then EntryOf(h.last.q, h.last.d).cost else 0)
  }

  /** No process started at or after number `floor`. */
  predicate NoStartFrom(h: History, floor: nat) {
    h.Then? ==> NoStartFrom(h.before, floor) && (h.last.Start? ==> h.last.q < floor)
  }

  /** Every resize either comes before anything `floor` covers, or is recorded in `lastResizeQ`. */
  predicate ResizesRecorded(h: History, floor: nat, lastResizeQ: nat) {
    h.Then? ==>
      && ResizesRecorded(h.before, floor, lastResizeQ)
      && (h.last.Size? ==> h.before.LastQ() + 1 < floor || h.before.LastQ() < lastResizeQ)
  }

  lemma {:induction false} RecordedWeakens(h: History, floor: nat, lastResizeQ: nat, floor': nat, lastResizeQ': nat)
    requires floor <= floor' && ResizesRecorded(h, floor, lastResizeQ)
    requires lastResizeQ <= lastResizeQ' || h.LastQ() + 1 < floor'
    requires h.Proper()
    ensures ResizesRecorded(h, floor', lastResizeQ')
  {
    if h.Then? { RecordedWeakens(h.before, floor, lastResizeQ, floor', lastResizeQ'); }
  }

  /** `lastResizeQ` covers every resize since the last number; it can always be what a resume is checked
      against for a ring that starts now. */
  ghost predicate ResizeNoted(h: History, lastResizeQ: nat) {
    lastResizeQ <= h.LastQ() + 1 && ResizesRecorded(h, h.LastQ() + 1, lastResizeQ)
  }

  lemma NotedNext(h: History, e: SlotEvent, lastResizeQ: nat)
    requires h.Proper() && h.MayReport(e) && ResizeNoted(h, lastResizeQ)
    ensures e.Numbered() ==> ResizeNoted(Then(h, e), lastResizeQ) && ResizeNoted(Then(h, e), 0)
    ensures e.State? ==> ResizeNoted(Then(h, e), lastResizeQ)
    ensures e.Size? ==> ResizeNoted(Then(h, e), h.LastQ() + 1)
  {
    if e.Numbered() {
      RecordedWeakens(h, h.LastQ() + 1, lastResizeQ, e.q + 1, lastResizeQ);
      ResizesBelow(h, e.q + 1, 0);
    } else {
      RecordedWeakens(h, h.LastQ() + 1, lastResizeQ, h.LastQ() + 1, h.LastQ() + 1);
    }
  }

  lemma {:induction false} NoStartWeakens(h: History, floor: nat, floor': nat)
    requires h.Proper()
    requires (NoStartFrom(h, floor) && floor <= floor') || h.LastQ() < floor'
    ensures NoStartFrom(h, floor')
  {
    if h.Then? { NoStartWeakens(h.before, floor, floor'); }
  }

  lemma {:induction false} ResizesBelow(h: History, floor: nat, lastResizeQ: nat)
    requires h.LastQ() + 1 < floor
    ensures ResizesRecorded(h, floor, lastResizeQ)
  {
    if h.Then? { ResizesBelow(h.before, floor, lastResizeQ); }
  }

  /** The retained output is numbered consecutively from `floor` to the last number. */
  lemma {:induction false} OutputConsecutive(h: History, floor: nat)
    requires h.Proper() && NoStartFrom(h, floor) && 1 <= floor <= h.LastQ() + 1
    ensures |OutputFrom(h, floor)| == h.LastQ() + 1 - floor
    ensures forall k | 0 <= k < |OutputFrom(h, floor)| :: OutputFrom(h, floor)[k].q == floor + k
  {
    if h.Then? {
      if floor <= h.before.LastQ() + 1 {
        OutputConsecutive(h.before, floor);
      } else {
        OutputBelow(h.before, floor);
      }
    }
  }

  lemma {:induction false} OutputBelow(h: History, floor: nat)
    requires h.Proper() && h.LastQ() < floor
    ensures OutputFrom(h, floor) == [] && CostFrom(h, floor) == 0
  {
    if h.Then? { OutputBelow(h.before, floor); }
  }

  /** Raising the floor by one drops exactly the oldest retained piece. */
  lemma {:induction false} EvictOldest(h: History, floor: nat)
    requires h.Proper() && NoStartFrom(h, floor) && 1 <= floor <= h.LastQ()
    ensures |OutputFrom(h, floor)| > 0 && OutputFrom(h, floor + 1) == OutputFrom(h, floor)[1..]
    ensures CostFrom(h, floor) == OutputFrom(h, floor)[0].cost + CostFrom(h, floor + 1)
  {
    OutputConsecutive(h, floor);
    if floor <= h.before.LastQ() {
      EvictOldest(h.before, floor);
    } else {
      OutputBelow(h.before, floor + 1);
      OutputBelow(h.before, floor);
    }
  }

  lemma {:induction false} NoOutputNoCost(h: History, floor: nat)
    requires OutputFrom(h, floor) == []
    ensures CostFrom(h, floor) == 0
  {
    if h.Then? { NoOutputNoCost(h.before, floor); }
  }

  /** One eviction step: dropping the head entry leaves the output from the next floor, at its exact cost. */
  lemma EvictStep(h: History, floor: nat, live: seq<RingEntry>)
    requires h.Proper() && NoStartFrom(h, floor) && 1 <= floor <= h.LastQ() + 1
    requires live == OutputFrom(h, floor) && live != []
    ensures live[0].q == floor <= h.LastQ() && live[1..] == OutputFrom(h, floor + 1)
    ensures CostFrom(h, floor) == live[0].cost + CostFrom(h, floor + 1)
    ensures NoStartFrom(h, floor + 1)
  {
    OutputConsecutive(h, floor);
    EvictOldest(h, floor);
    NoStartWeakens(h, floor, floor + 1);
  }

  function AsFrames(entries: seq<RingEntry>): (fs: seq<Delivery>)
    ensures |fs| == |entries|
    ensures forall k | 0 <= k < |fs| :: fs[k] == OutFrame(entries[k].q, entries[k].d)
  {
    seq(|entries|, k requires 0 <= k < |entries| => OutFrame(entries[k].q, entries[k].d))
  }

  lemma {:induction false} JoinPosition(h: History, n: nat)
    requires n <= h.LastQ()
    ensures JoinAt(h, n) <= h.Len() && At(h, JoinAt(h, n)).LastQ() == n
  {
    if h.Then? && h.before.LastQ() >= n { JoinPosition(h.before, n); }
  }

  /** Replaying the retained output after `lastQ` is the whole feed after the event numbered `lastQ`:
      no output, size change or start is missed, whenever the resume conditions hold. */
  lemma {:induction false} ReplayIsFeed(h: History, floor: nat, lastResizeQ: nat, lastQ: nat)
    requires h.Proper() && NoStartFrom(h, floor) && ResizesRecorded(h, floor, lastResizeQ)
    requires 1 <= floor <= lastQ + 1 && lastResizeQ <= lastQ <= h.LastQ()
    ensures lastQ + 1 - floor <= |OutputFrom(h, floor)|
    ensures Feed(h, JoinAt(h, lastQ)) == AsFrames(OutputFrom(h, floor)[lastQ + 1 - floor..])
  {
    OutputConsecutive(h, floor);
    var skip := lastQ + 1 - floor;
    if h.Empty? {
    } else if h.before.LastQ() >= lastQ {
      ReplayIsFeed(h.before, floor, lastResizeQ, lastQ);
      JoinPosition(h.before, lastQ);
      if h.last.Out? { FramesSnoc(OutputFrom(h.before, floor), EntryOf(h.last.q, h.last.d), skip); }
    } else {
      assert OutputFrom(h, floor)[skip..] == [];
    }
  }

  lemma FramesSnoc(kept: seq<RingEntry>, e: RingEntry, skip: nat)
    requires skip <= |kept|
    ensures AsFrames((kept + [e])[skip..]) == AsFrames(kept[skip..]) + [OutFrame(e.q, e.d)]
  {
  }

  function TextOf(f: Delivery): JsString {
    if f.OutFrame? then f.d else []
  }

  function FrameText(fs: seq<Delivery>): JsString {
    if fs == [] then [] else FrameText(fs[..|fs| - 1]) + TextOf(fs[|fs| - 1])
  }

  lemma FrameTextSnoc(fs: seq<Delivery>, f: Delivery)
    ensures FrameText(fs + [f]) == FrameText(fs) + TextOf(f)
  {
    assert (fs + [f])[..|fs|] == fs;
  }

  /** A client that has the text up to a position and applies the feed from there has all of it. */
  lemma {:induction false} FeedText(h: History, from: nat)
    requires from <= h.Len()
    ensures h.Text() == At(h, from).Text() + FrameText(Feed(h, from))
  {
    if from < h.Len() {
      FeedText(h.before, from);
      var fed := Feed(h.before, from);
      match h.last {
        case State(_) => assert fed + [] == fed;
        case Out(q, d) => FrameTextSnoc(fed, OutFrame(q, d));
        case Size(cols, rows) => FrameTextSnoc(fed, SizeFrame(cols, rows));
        case Start(q, cols, rows) => FrameTextSnoc(fed, SnapFrame(q, cols, rows, NoScreen));
      }
    }
  }

  /** The numbers a client sees, in order; size frames carry none. */
  function Numbers(fs: seq<Delivery>): seq<int> {
    if fs == [] then []
    else Numbers(fs[..|fs| - 1]) + (if fs[|fs| - 1].SizeFrame? then [] else [fs[|fs| - 1].q])
  }

  lemma NumbersSnoc(fs: seq<Delivery>, f: Delivery)
    ensures Numbers(fs + [f]) == Numbers(fs) + (if f.SizeFrame? then [] else [f.q])
  {
    assert (fs + [f])[..|fs|] == fs;
  }

  /** first, first + 1, ..., last. */
  function Run(first: int, last: int): seq<int>
    decreases last - first
  {
    if last < first then [] else Run(first, last - 1) + [last]
  }

  lemma {:induction false} RunFrom(first: int, last: int)
    requires first <= last
    ensures Run(first, last) == [first] + Run(first + 1, last)
    decreases last - first
  {
    if first < last { RunFrom(first, last - 1); }
  }

  function NumberOf(e: SlotEvent): seq<int> {
    if e.Numbered() then [e.q] else []
  }

  lemma NumbersGrow(fs: seq<Delivery>, e: SlotEvent)
    ensures Numbers(fs + FramesOf(e)) == Numbers(fs) + NumberOf(e)
  {
    match e {
      case State(_) => assert fs + [] == fs;
      case Out(q, d) => NumbersSnoc(fs, OutFrame(q, d));
      case Size(cols, rows) => NumbersSnoc(fs, SizeFrame(cols, rows));
      case Start(q, cols, rows) => NumbersSnoc(fs, SnapFrame(q, cols, rows, NoScreen));
    }
  }

  lemma FeedStep(h: History, from: nat)
    requires from < h.Len()
    ensures At(h, from) == At(h.before, from) && Feed(h, from) == Feed(h.before, from) + FramesOf(h.last)
  {
  }

  lemma RunStep(first: int, last: int)
    requires first <= last + 1
    ensures Run(first, last + 1) == Run(first, last) + [last + 1]
  {
  }

  lemma LastQStep(h: History)
    requires h.Then? && h.Proper()
    ensures h.LastQ() == h.before.LastQ() + |NumberOf(h.last)|
    ensures NumberOf(h.last) == if h.last.Numbered() then [h.before.LastQ() + 1] else []
  {
  }

  lemma FeedNumbersStep(h: History, from: nat, base: nat, fed: seq<Delivery>)
    requires h.Then? && from < h.Len() && h.Proper() && base <= h.before.LastQ() && fed == Feed(h.before, from)
    requires Numbers(fed) == Run(base + 1, h.before.LastQ())
    ensures base <= h.LastQ() && Numbers(Feed(h, from)) == Run(base + 1, h.LastQ())
  {
    hide *;
    NumbersGrow(fed, h.last);
    FeedStep(h, from);
    LastQStep(h);
    RunStep(base + 1, h.before.LastQ());
    assert Numbers(fed) + [] == Numbers(fed);
  }

  /** The feed from any position carries every number after it exactly once, in order, up to the last. */
  lemma {:induction false} FeedNumbers(h: History, from: nat)
    requires h.Proper() && from <= h.Len()
    ensures At(h, from).LastQ() <= h.LastQ()
    ensures Numbers(Feed(h, from)) == Run(At(h, from).LastQ() + 1, h.LastQ())
  {
    hide Numbers, Feed, At, Run;
    if from < h.Len() {
      FeedStep(h, from);
      FeedNumbers(h.before, from);
      FeedNumbersStep(h, from, At(h, from).LastQ(), Feed(h.before, from));
    } else {
      NothingFed(h);
    }
  }

  lemma NothingFed(h: History)
    ensures At(h, h.Len()) == h && Numbers(Feed(h, h.Len())) == Run(h.LastQ() + 1, h.LastQ())
  {
  }

  // ---- the ring ----

  /** `entries[head..]` is live; `floor - 1` is the oldest number a client can still resume from. */
  datatype Ring = Ring(entries: seq<RingEntry>, head: nat, cost: nat, floor: nat)

  /** The live part is exactly the output from `floor` on, at its exact cost. */
  ghost predicate RingHolds(r: Ring, h: History) {
    && r.head <= |r.entries| && r.entries[r.head..] == OutputFrom(h, r.floor)
    && r.cost == CostFrom(h, r.floor)
    && 1 <= r.floor <= h.LastQ() + 1 && NoStartFrom(h, r.floor)
  }

  function EmptyRing(fedQ: nat): Ring { Ring([], 0, 0, fedQ + 1) }

  /** What holds of a retained ring: exact, within its bound, and no unrecorded resize falls inside it. */
  ghost predicate RingOk(r: Ring, h: History, lastResizeQ: nat) {
    RingHolds(r, h) && r.cost <= RING_BYTES && ResizesRecorded(h, r.floor, lastResizeQ)
  }

  lemma EmptyRingOk(h: History, lastResizeQ: nat)
    requires h.Proper() && ResizeNoted(h, lastResizeQ)
    ensures RingOk(EmptyRing(h.LastQ()), h, lastResizeQ)
  {
    OutputBelow(h, h.LastQ() + 1);
    NoStartWeakens(h, 0, h.LastQ() + 1);
  }

  lemma RingOkUnnumbered(r: Ring, h: History, e: SlotEvent, lastResizeQ: nat)
    requires h.Proper() && RingOk(r, h, lastResizeQ) && lastResizeQ <= h.LastQ() + 1
    ensures e.State? ==> RingOk(r, Then(h, e), lastResizeQ)
    ensures e.Size? ==> RingOk(r, Then(h, e), h.LastQ() + 1)
  {
    RecordedWeakens(h, r.floor, lastResizeQ, r.floor, h.LastQ() + 1);
  }

  /** Appends the newest output of `h`, then evicts from the front until the bound holds again, and no further. */
  method RingPush(ring: Ring, q: nat, d: JsString, ghost h: History, ghost lastResizeQ: nat) returns (r: Ring)
    requires h.Then? && h.Proper() && h.last == Out(q, d)
    requires RingOk(ring, h.before, lastResizeQ)
    ensures RingOk(r, h, lastResizeQ)
    ensures ring.floor <= r.floor
    ensures ring.floor < r.floor ==> CostFrom(h, r.floor - 1) > RING_BYTES
  {
    hide RingHolds, OutputFrom, CostFrom, NoStartFrom, ResizesRecorded;
    RingTakes(ring, h, q, d, lastResizeQ);
    r := ring.(entries := ring.entries + [EntryOf(q, d)], cost := ring.cost + EntryOf(q, d).cost);
    while r.cost > RING_BYTES && r.head < |r.entries|
      invariant RingHolds(r, h) && r.head <= |r.entries| && ring.floor <= r.floor
      invariant ring.floor < r.floor ==> CostFrom(h, r.floor - 1) > RING_BYTES
      decreases |r.entries| - r.head
    {
      RingEvicts(r, h);
      r := Evicted(r);
    }
    RingRests(ring, r, h, lastResizeQ);
    if r.head > 1024 && r.head * 2 > |r.entries| {
      RingCompacts(r, h);
      r := r.(entries := r.entries[r.head..], head := 0);
    }
  }

  lemma RingTakes(ring: Ring, h: History, q: nat, d: JsString, lastResizeQ: nat)
    requires h.Then? && h.Proper() && h.last == Out(q, d) && RingOk(ring, h.before, lastResizeQ)
    ensures RingHolds(ring.(entries := ring.entries + [EntryOf(q, d)], cost := ring.cost + EntryOf(q, d).cost), h)
    ensures ring.head <= |ring.entries|
  {
    hide EntryOf;
    assert (ring.entries + [EntryOf(q, d)])[ring.head..] == ring.entries[ring.head..] + [EntryOf(q, d)];
  }

  /** The ring without its oldest entry. */
  function Evicted(r: Ring): Ring
    requires r.head < |r.entries|
  {
    r.(cost := if r.cost >= r.entries[r.head].cost then r.cost - r.entries[r.head].cost else 0,
       floor := r.entries[r.head].q + 1, head := r.head + 1)
  }

  lemma RingEvicts(r: Ring, h: History)
    requires h.Proper() && RingHolds(r, h) && r.head < |r.entries|
    ensures r.cost >= r.entries[r.head].cost && RingHolds(Evicted(r), h)
    ensures Evicted(r).floor == r.floor + 1 && CostFrom(h, r.floor) == r.cost
  {
    hide OutputFrom, CostFrom, NoStartFrom;
    EvictStep(h, r.floor, r.entries[r.head..]);
    assert r.entries[r.head..][1..] == r.entries[r.head + 1..];
  }

  /** Once the cost fits, or nothing is left, the ring is in order. */
  lemma RingRests(ring: Ring, r: Ring, h: History, lastResizeQ: nat)
    requires h.Then? && h.Proper() && h.last.Out? && RingOk(ring, h.before, lastResizeQ)
    requires RingHolds(r, h) && ring.floor <= r.floor && (r.cost <= RING_BYTES || r.head >= |r.entries|)
    ensures RingOk(r, h, lastResizeQ) && r.head <= |r.entries|
  {
    hide OutputFrom, CostFrom, NoStartFrom;
    if r.head == |r.entries| { NoOutputNoCost(h, r.floor); }
    RecordedWeakens(h.before, ring.floor, lastResizeQ, r.floor, lastResizeQ);
  }

  lemma RingCompacts(r: Ring, h: History)
    requires RingHolds(r, h)
    ensures RingHolds(r.(entries := r.entries[r.head..], head := 0), h)
  {
    hide OutputFrom, CostFrom, NoStartFrom;
    DropNothing(r.entries[r.head..]);
  }

  lemma DropNothing<T>(entries: seq<T>)
    ensures entries[0..] == entries
  {
  }

  method QueueFrom(entries: seq<RingEntry>, first: nat) returns (queue: seq<Delivery>)
    requires first <= |entries|
    ensures queue == AsFrames(entries[first..])
  {
    queue := [];
    var i := first;
    while i < |entries|
      invariant first <= i <= |entries|
      invariant queue == AsFrames(entries[first..i])
    {
      queue := queue + [OutFrame(entries[i].q, entries[i].d)];
      i := i + 1;
    }
    assert entries[first..] == entries[first..|entries|];
  }

  /** Where the replay starts and what it is. */
  lemma ReplaySlice(r: Ring, lastQ: nat, h: History, lastResizeQ: nat)
    requires h.Proper() && RingOk(r, h, lastResizeQ) && r.floor <= lastQ + 1 && lastResizeQ <= lastQ <= h.LastQ()
    ensures lastQ == h.LastQ() ==> Feed(h, JoinAt(h, lastQ)) == []
    ensures lastQ < h.LastQ() ==>
              && r.head < |r.entries| && r.entries[r.head].q == r.floor
              && r.head + (lastQ + 1 - r.floor) <= |r.entries|
              && Feed(h, JoinAt(h, lastQ)) == AsFrames(r.entries[r.head + (lastQ + 1 - r.floor)..])
  {
    var live := r.entries[r.head..];
    OutputConsecutive(h, r.floor);
    ReplayIsFeed(h, r.floor, lastResizeQ, lastQ);
    hide OutputFrom, CostFrom, NoStartFrom, ResizesRecorded, Feed, JoinAt;
    assert lastQ < h.LastQ() ==> live[lastQ + 1 - r.floor..] == r.entries[r.head + (lastQ + 1 - r.floor)..];
    assert lastQ == h.LastQ() ==> live[lastQ + 1 - r.floor..] == [];
  }

  /** Queues the ring from the entry after `lastQ`: exactly the feed from there. */
  method ReplayFrom(r: Ring, lastQ: nat, fedQ: nat, ghost h: History, ghost lastResizeQ: nat)
    returns (queue: seq<Delivery>)
    requires h.Proper() && RingOk(r, h, lastResizeQ) && fedQ == h.LastQ()
    requires r.floor <= lastQ + 1 && lastResizeQ <= lastQ <= fedQ
    ensures queue == Feed(h, JoinAt(h, lastQ))
  {
    ReplaySlice(r, lastQ, h, lastResizeQ);
    hide *;
    queue := [];
    if lastQ < fedQ {
      var first := r.head + (lastQ + 1 - r.entries[r.head].q);
      queue := QueueFrom(r.entries, first);
    }
  }
}
