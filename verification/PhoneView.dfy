/** The phone view cache and its rate-limited delivery: no tap is ever left behind, and none hears of held
    payloads more often than once per gap. */
module PhoneView {
  import opened Options

  const PHONE_VIEW_MAX_BYTES := 128 * 1024

  type View = nat

  /** What the renderer hands over: whether it is a plain object that can be serialised, and its size then. */
  datatype Payload = Payload(id: nat, plain: bool, serialisable: bool, bytes: nat)

  /** A view's encoder; `None` is null, also when encoding throws. */
  type Encoder = Payload -> Option<nat>

  /** One send: when, what, and whether the cache held a payload for the view. */
  datatype Sent = Sent(at: int, value: Option<nat>, held: bool)

  /** An attached client; `due` is when its scheduled send fires, if one is scheduled. */
  datatype Tap = Tap(view: View, live: bool, due: Option<int>, got: seq<Sent>)

  function Current(held: map<View, Payload>, view: View, encode: Encoder): Option<nat> {
    if view in held then encode(held[view]) else None
  }

  function LastSent(t: Tap): Sent
    requires t.got != []
  {
    t.got[|t.got| - 1]
  }

  /** Sends that carry a held payload keep the gap to the send before. */
  predicate Spaced(got: seq<Sent>, gap: nat) {
    forall i | 0 < i < |got| && got[i].held :: got[i].at - got[i - 1].at >= gap
  }

  /** Either a send is scheduled, at the end of the gap, or the client has what the cache holds now; nothing is
      scheduled for an empty view. */
  predicate TapOk(t: Tap, held: map<View, Payload>, encode: Encoder, gap: nat, clock: int) {
    && t.got != [] && LastSent(t).at <= clock && Spaced(t.got, gap)
    && (t.live ==>
          && (t.due.Some? ==> t.view in held && t.due.value == LastSent(t).at + gap)
          && (t.due == None ==>
              LastSent(t).value == Current(held, t.view, encode) && LastSent(t).held == (t.view in held)))
  }

  predicate TapsOk(taps: seq<Tap>, held: map<View, Payload>, encode: Encoder, gap: nat, clock: int) {
    forall i | 0 <= i < |taps| :: TapOk(taps[i], held, encode, gap, clock)
  }

  function Send(t: Tap, held: map<View, Payload>, encode: Encoder, now: int): Tap {
    t.(got := t.got + [Sent(now, Current(held, t.view, encode), t.view in held)])
  }

  /** What a client hears of a change of its view: that it is empty at once, a payload at once if the gap is over, and
      otherwise at the gap's end, unless a send is scheduled already. */
  ghost predicate Reacts(t: Tap, r: Tap, held: map<View, Payload>, encode: Encoder, gap: nat, now: int)
    requires t.got != []
  {
    var end := LastSent(t).at + gap;
    if !t.live then r == t
    else if t.view !in held then r == t.(due := None, got := t.got + [Sent(now, None, false)])
    else if t.due.Some? then r == t
    else if end <= now then r == t.(got := t.got + [Sent(now, encode(held[t.view]), true)])
    else r == t.(due := Some(end))
  }

  /** What a client's listener does when its view changed. */
  method OnChange(t: Tap, held: map<View, Payload>, encode: Encoder, gap: nat, now: int,
                  ghost before: map<View, Payload>) returns (r: Tap)
    requires TapOk(t, before, encode, gap, now)
    ensures TapOk(r, held, encode, gap, now) && Reacts(t, r, held, encode, gap, now)
  {
    if !t.live { return t; }
    if t.view !in held {
      return Send(t.(due := None), held, encode, now);
    }
    if t.due.Some? { return t; }
    var wait := LastSent(t).at + gap - now;
    if wait <= 0 { return Send(t, held, encode, now); }
    return t.(due := Some(now + wait));
  }

  /** A change of other views is none of a client's business. */
  lemma OtherView(t: Tap, held: map<View, Payload>, later: map<View, Payload>, encode: Encoder, gap: nat, now: int)
    requires TapOk(t, held, encode, gap, now) && (t.view in held <==> t.view in later)
    requires t.view in held ==> held[t.view] == later[t.view]
    ensures TapOk(t, later, encode, gap, now)
  {
  }

  lemma Later(taps: seq<Tap>, held: map<View, Payload>, encode: Encoder, gap: nat, clock: int, now: int)
    requires TapsOk(taps, held, encode, gap, clock) && clock <= now
    ensures TapsOk(taps, held, encode, gap, now)
  {
  }

  /** A client reacts exactly if its view changed. */
  ghost predicate Heard(t: Tap, r: Tap, held: map<View, Payload>, changed: set<View>, encode: Encoder, gap: nat,
                        now: int) {
    t.got != [] && if t.view in changed then Reacts(t, r, held, encode, gap, now) else r == t
  }

  lemma HeardIs(t: Tap, r: Tap, held: map<View, Payload>, changed: set<View>, encode: Encoder, gap: nat, now: int)
    requires t.got != [] && if t.view in changed then Reacts(t, r, held, encode, gap, now) else r == t
    ensures Heard(t, r, held, changed, encode, gap, now)
  {
  }

  lemma SomethingGot(t: Tap, held: map<View, Payload>, encode: Encoder, gap: nat, now: int)
    requires TapOk(t, held, encode, gap, now)
    ensures t.got != []
  {
  }

  /** Notifies the taps of the changed views. */
  method Emit(taps: seq<Tap>, before: map<View, Payload>, held: map<View, Payload>, changed: set<View>, encode: Encoder,
              gap: nat, now: int)
    returns (r: seq<Tap>)
    requires TapsOk(taps, before, encode, gap, now)
    requires forall v | v !in changed :: (v in before <==> v in held) && (v in before ==> before[v] == held[v])
    ensures TapsOk(r, held, encode, gap, now) && |r| == |taps|
    ensures forall i | 0 <= i < |taps| :: Heard(taps[i], r[i], held, changed, encode, gap, now)
  {
    hide TapOk, Send, Heard, Reacts;
    r := [];
    var i := 0;
    while i < |taps|
      invariant 0 <= i <= |taps| && |r| == i && TapsOk(r, held, encode, gap, now)
      invariant forall j | 0 <= j < i :: Heard(taps[j], r[j], held, changed, encode, gap, now)
    {
      assert TapOk(taps[i], before, encode, gap, now);
      SomethingGot(taps[i], before, encode, gap, now);
      var t := taps[i];
      if t.view in changed {
        t := OnChange(t, held, encode, gap, now, before);
      } else {
        OtherView(t, before, held, encode, gap, now);
      }
      HeardIs(taps[i], t, held, changed, encode, gap, now);
      r := r + [t];
      i := i + 1;
    }
  }

  class PhoneView {
    const encode: Encoder
    const views: set<View>
    const gap: nat
    var held: map<View, Payload>
    var taps: seq<Tap>
    ghost var clock: int

    ghost predicate Valid()
      reads this
    {
      TapsOk(taps, held, encode, gap, clock) && held.Keys <= views
      && forall v | v in held :: held[v].plain && held[v].serialisable && held[v].bytes <= PHONE_VIEW_MAX_BYTES
    }

    constructor (encode: Encoder, views: set<View>, gap: nat)
      ensures Valid() && taps == [] && held == map[]
      ensures this.encode == encode && this.views == views && this.gap == gap
    {
      this.encode, this.views, this.gap, held, taps, clock := encode, views, gap, map[], [], 0;
    }

    /** A client for whom nothing is scheduled has what the cache holds. */
    lemma NoneBehind(i: nat)
      requires Valid() && i < |taps| && taps[i].live && taps[i].due == None
      ensures taps[i].got != []
      ensures LastSent(taps[i]).value == if taps[i].view in held then encode(held[taps[i].view]) else None
    {
      assert TapOk(taps[i], held, encode, gap, clock);
    }

    /** The latest payload of a view, if control is on and it is one the cache may hold. */
    method Ingest(view: View, payload: Payload, gateOpen: bool, now: int) returns (stored: bool)
      requires Valid() && now >= clock
      modifies this`held, this`taps, this`clock
      ensures Valid() && clock == now
      ensures stored <==>
                gateOpen && view in views && payload.plain && payload.serialisable
                && payload.bytes <= PHONE_VIEW_MAX_BYTES
      ensures held == if stored then old(held)[view := payload] else old(held)
      ensures |taps| == |old(taps)| && (!stored ==> taps == old(taps))
      ensures stored ==>
                forall i | 0 <= i < |taps| :: Heard(old(taps)[i], taps[i], held, {view}, encode, gap, now)
    {
      Later(taps, held, encode, gap, clock, now);
      clock := now;
      stored := gateOpen && view in views && payload.plain && payload.serialisable
      && payload.bytes <= PHONE_VIEW_MAX_BYTES;
      if !stored { return; }
      taps := Emit(taps, held, held[view := payload], {view}, encode, gap, now);
      held := held[view := payload];
    }

    /** Everything is dropped; every client of a view that held something is told so in the same step. */
    method Clear(now: int)
      requires Valid() && now >= clock
      modifies this`held, this`taps, this`clock
      ensures Valid() && clock == now && held == map[] && |taps| == |old(taps)|
      ensures forall i | 0 <= i < |taps| && old(taps)[i].live ::
                if old(taps)[i].view in old(held)
                then taps[i].got == old(taps)[i].got + [Sent(now, None, false)]
                     && taps[i].due == None
                else taps[i] == old(taps)[i]
    {
      Later(taps, held, encode, gap, clock, now);
      clock := now;
      taps := Emit(taps, held, map[], held.Keys, encode, gap, now);
      held := map[];
    }

    /** A client attaches and gets the current state at once. */
    method Attach(view: View, now: int)
      requires Valid() && now >= clock
      modifies this`taps, this`clock
      ensures Valid() && clock == now && |taps| == |old(taps)| + 1 && taps[..|old(taps)|] == old(taps)
      ensures taps[|old(taps)|] ==
              Tap(view, true, None, [Sent(now, if view in held then encode(held[view]) else None, view in held)])
    {
      Later(taps, held, encode, gap, clock, now);
      clock := now;
      taps := taps + [Send(Tap(view, true, None, []), held, encode, now)];
    }

    /** The scheduled send of client `i` fires, not before it is due. */
    method TimerFires(i: nat, now: int)
      requires Valid() && now >= clock && i < |taps| && taps[i].live && taps[i].due.Some? && now >= taps[i].due.value
      modifies this`taps, this`clock
      ensures Valid() && clock == now
      ensures old(taps)[i].view in held
      ensures var t := old(taps)[i];
              taps == old(taps)[i := t.(due := None, got := t.got + [Sent(now, encode(held[t.view]), true)])]
    {
      Later(taps, held, encode, gap, clock, now);
      clock := now;
      assert TapOk(taps[i], held, encode, gap, now);
      taps := taps[i := Send(taps[i].(due := None), held, encode, now)];
    }

    method Detach(i: nat)
      requires Valid() && i < |taps|
      modifies this`taps
      ensures Valid() && taps == old(taps)[i := old(taps)[i].(live := false, due := None)]
    {
      assert TapOk(taps[i], held, encode, gap, clock);
      taps := taps[i := taps[i].(live := false, due := None)];
    }
  }
}
