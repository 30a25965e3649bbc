/** The headless mirror of one PTY stream: a queue of writes, resizes and screen requests that takes effect
    in call order, with writes paced by xterm's parse callbacks. */
module TerminalMirror {
  import opened Utf16
  import opened TerminalRing

  const WRITE_HIGH_WATER := 1024 * 1024

  /** A queued call; `Ask` is a snapshot or viewport request. */
  datatype Op = Change(op: MirrorOp) | Ask(id: nat)

  /** What a request resolves to: nothing (disposed, or serializing failed), or the screen that has absorbed
      exactly `ops`. */
  datatype Answer = NoAnswer | Shown(ops: seq<MirrorOp>)

  /** Total UTF-16 units. */
  function TextLen(ws: seq<JsString>): nat {
    if ws == [] then 0 else |ws[0]| + TextLen(ws[1..])
  }

  function AsWrites(ws: seq<JsString>): seq<MirrorOp> {
    if ws == [] then [] else [Write(ws[0])] + AsWrites(ws[1..])
  }

  /** The screen changes among some queued calls, in order. */
  function Changes(ops: seq<Op>): seq<MirrorOp> {
    if ops == [] then []
    else (if ops[0].Change? then [ops[0].op] else []) + Changes(ops[1..])
  }

  /** UTF-16 units of the writes among some queued calls. */
  function WriteLen(ops: seq<Op>): nat {
    if ops == [] then 0
    else (if ops[0].Change? && ops[0].op.Write? then |ops[0].op.d| else 0) + WriteLen(ops[1..])
  }

  predicate NoEmptyWrites(ops: seq<Op>) {
    forall o | o in ops :: o.Change? && o.op.Write? ==> o.op.d != []
  }

  /** Each waiting request has its turn after exactly the changes called for before it; `n` of them precede
      `ops`. */
  predicate AsksInOrder(n: nat, ops: seq<Op>, asked: map<nat, nat>)
    decreases |ops|
  {
    ops != [] ==>
      && (ops[0].Ask? ==> ops[0].id in asked && asked[ops[0].id] == n)
      && AsksInOrder(if ops[0].Change? then n + 1 else n, ops[1..], asked)
  }

  predicate IsWaiting(ops: seq<Op>, id: nat) {
    exists k | 0 <= k < |ops| :: ops[k] == Ask(id)
  }

  /** The mirror's books. `issued` is every screen change called for, `asked[id]` how many of them preceded
      request `id`, `absorbed` what the screen shows, `unparsed` what xterm holds, `pend` our own queue. */
  ghost predicate BooksOk(pend: seq<Op>, queued: int, inTerm: int, unparsed: seq<JsString>, absorbed: seq<MirrorOp>,
                          issued: seq<MirrorOp>, asked: map<nat, nat>) {
    && issued == absorbed + AsWrites(unparsed) + Changes(pend)
    && AsksInOrder(|absorbed| + |unparsed|, pend, asked)
    && queued == WriteLen(pend) && inTerm == TextLen(unparsed)
    && NoEmptyWrites(pend) && (forall w | w in unparsed :: w != [])
  }

  /** Every request is either answered or still waits, once; an answer shows exactly what preceded it. */
  ghost predicate AnswersOk(pend: seq<Op>, answers: map<nat, Answer>, issued: seq<MirrorOp>, asked: map<nat, nat>) {
    && (forall id | id in asked :: asked[id] <= |issued| && (id in answers <==> !IsWaiting(pend, id)))
    && (forall k | 0 <= k < |pend| && pend[k].Ask? :: pend[k].id in asked)
    && (forall j, k | 0 <= j < k < |pend| && pend[j].Ask? :: pend[j] != pend[k])
    && (forall id | id in answers :: id in asked && (answers[id].Shown? ==> answers[id].ops == issued[..asked[id]]))
  }

  /** Whether a screen that has absorbed this much can be read; serializing it throws otherwise. */
  type Readable = seq<MirrorOp> -> bool

  /** A request is answered with the screen exactly if that could be read. */
  ghost predicate ShownIff(answers: map<nat, Answer>, issued: seq<MirrorOp>, asked: map<nat, nat>, readable: Readable) {
    forall id | id in answers && id in asked && asked[id] <= |issued| ::
      answers[id].Shown? <==> readable(issued[..asked[id]])
  }

  lemma ShownMore(answers: map<nat, Answer>, issued: seq<MirrorOp>, asked: map<nat, nat>, readable: Readable, id: nat,
                  answer: Answer)
    requires ShownIff(answers, issued, asked, readable)
    requires id in asked && asked[id] <= |issued| && (answer.Shown? <==> readable(issued[..asked[id]]))
    ensures ShownIff(answers[id := answer], issued, asked, readable)
  {
  }

  lemma ShownCalled(pend: seq<Op>, answers: map<nat, Answer>, issued: seq<MirrorOp>, asked: map<nat, nat>, o: Op,
                    readable: Readable)
    requires AnswersOk(pend, answers, issued, asked) && ShownIff(answers, issued, asked, readable)
    requires o.Ask? ==> o.id !in asked
    ensures ShownIff(answers, IssuedAfter(issued, o), AskedAfter(asked, o, |issued|), readable)
  {
    forall id | id in answers
      ensures asked[id] <= |issued| && IssuedAfter(issued, o)[..asked[id]] == issued[..asked[id]]
    {
    }
  }

  // ---- one lemma per step ----

  function CountWrites(ws: seq<JsString>): (n: nat)
    ensures n == |AsWrites(ws)| == |ws|
  {
    if ws == [] then 0 else 1 + CountWrites(ws[1..])
  }

  lemma {:induction false} WritesSnoc(ws: seq<JsString>, d: JsString)
    ensures AsWrites(ws + [d]) == AsWrites(ws) + [Write(d)] && TextLen(ws + [d]) == TextLen(ws) + |d|
  {
    if ws == [] {
      assert [] + [d] == [d] && [d][1..] == [];
    } else {
      WritesSnoc(ws[1..], d);
      assert (ws + [d])[1..] == ws[1..] + [d];
    }
  }

  /** With nothing unparsed, and only then, xterm holds no text. */
  lemma NothingHeld(ws: seq<JsString>)
    requires forall w | w in ws :: w != []
    ensures TextLen(ws) == 0 <==> ws == []
  {
    if ws != [] { assert ws[0] in ws; }
  }

  lemma PopWrite(pend: seq<Op>, d: JsString, queued: int, inTerm: int, unparsed: seq<JsString>, absorbed: seq<MirrorOp>,
                 issued: seq<MirrorOp>, asked: map<nat, nat>)
    requires BooksOk(pend, queued, inTerm, unparsed, absorbed, issued, asked) && pend != []
             && pend[0] == Change(Write(d))
    ensures queued >= |d| && BooksOk(pend[1..], queued - |d|, inTerm + |d|, unparsed + [d], absorbed, issued, asked)
  {
    WritesSnoc(unparsed, d);
    assert issued == absorbed + AsWrites(unparsed) + ([Write(d)] + Changes(pend[1..]));
    assert pend[0] in pend;
  }

  lemma PopResize(pend: seq<Op>, op: MirrorOp, queued: int, unparsed: seq<JsString>, absorbed: seq<MirrorOp>,
                  issued: seq<MirrorOp>, asked: map<nat, nat>)
    requires BooksOk(pend, queued, 0, unparsed, absorbed, issued, asked) && pend != [] && pend[0] == Change(op)
             && op.Resize?
    ensures BooksOk(pend[1..], queued, 0, unparsed, absorbed + [op], issued, asked)
  {
    NothingHeld(unparsed);
    assert issued == absorbed + AsWrites(unparsed) + ([op] + Changes(pend[1..]));
  }

  /** A request whose turn has come finds on the screen exactly what was called for before it. */
  lemma PopAsk(pend: seq<Op>, id: nat, queued: int, unparsed: seq<JsString>, absorbed: seq<MirrorOp>,
               issued: seq<MirrorOp>, asked: map<nat, nat>)
    requires BooksOk(pend, queued, 0, unparsed, absorbed, issued, asked) && pend != [] && pend[0] == Ask(id)
    ensures id in asked && asked[id] <= |issued| && absorbed == issued[..asked[id]]
    ensures BooksOk(pend[1..], queued, 0, unparsed, absorbed, issued, asked)
  {
    NothingHeld(unparsed);
  }

  lemma ParseOne(pend: seq<Op>, queued: int, inTerm: int, unparsed: seq<JsString>, absorbed: seq<MirrorOp>,
                 issued: seq<MirrorOp>, asked: map<nat, nat>)
    requires BooksOk(pend, queued, inTerm, unparsed, absorbed, issued, asked) && unparsed != []
    ensures BooksOk(pend, queued, inTerm - |unparsed[0]|, unparsed[1..], absorbed + [Write(unparsed[0])], issued, asked)
  {
    hide Changes, WriteLen, NoEmptyWrites, AsksInOrder;
    FirstParsed(absorbed, unparsed);
  }

  lemma FirstParsed(absorbed: seq<MirrorOp>, unparsed: seq<JsString>)
    requires unparsed != []
    ensures absorbed + AsWrites(unparsed) == (absorbed + [Write(unparsed[0])]) + AsWrites(unparsed[1..])
    ensures forall w | w in unparsed[1..] :: w in unparsed
  {
  }

  lemma {:induction false} ChangesSnoc(pend: seq<Op>, o: Op)
    ensures Changes(pend + [o]) == Changes(pend) + (if o.Change? then [o.op] else [])
    ensures WriteLen(pend + [o]) == WriteLen(pend) + (if o.Change? && o.op.Write? then |o.op.d| else 0)
  {
    if pend == [] {
      assert [] + [o] == [o] && [o][1..] == [];
    } else {
      assert (pend + [o])[1..] == pend[1..] + [o] && (pend + [o])[0] == pend[0];
      ChangesSnoc(pend[1..], o);
      var first := if pend[0].Change? then [pend[0].op] else [];
      var last := if o.Change? then [o.op] else [];
      assert first + (Changes(pend[1..]) + last) == (first + Changes(pend[1..])) + last;
    }
  }

  lemma {:induction false} AsksSnoc(n: nat, pend: seq<Op>, o: Op, asked: map<nat, nat>, more: map<nat, nat>)
    requires AsksInOrder(n, pend, asked)
    requires forall id | id in asked :: id in more && more[id] == asked[id]
    requires o.Ask? ==> o.id in more && more[o.id] == n + |Changes(pend)|
    ensures AsksInOrder(n, pend + [o], more)
    decreases |pend|
  {
    if pend == [] {
      assert [] + [o] == [o] && [o][1..] == [];
    } else {
      assert (pend + [o])[1..] == pend[1..] + [o];
      AsksSnoc(if pend[0].Change? then n + 1 else n, pend[1..], o, asked, more);
    }
  }

  lemma CallChange(pend: seq<Op>, op: MirrorOp, queued: int, inTerm: int, unparsed: seq<JsString>,
                   absorbed: seq<MirrorOp>, issued: seq<MirrorOp>, asked: map<nat, nat>)
    requires BooksOk(pend, queued, inTerm, unparsed, absorbed, issued, asked) && (op.Write? ==> op.d != [])
    ensures BooksOk(pend + [Change(op)], queued + LenOf(Change(op)), inTerm, unparsed, absorbed, issued + [op], asked)
  {
    ChangesSnoc(pend, Change(op));
    AsksSnoc(|absorbed| + |unparsed|, pend, Change(op), asked, asked);
  }

  lemma CallAsk(pend: seq<Op>, id: nat, queued: int, inTerm: int, unparsed: seq<JsString>, absorbed: seq<MirrorOp>,
                issued: seq<MirrorOp>, asked: map<nat, nat>)
    requires BooksOk(pend, queued, inTerm, unparsed, absorbed, issued, asked) && id !in asked
    ensures BooksOk(pend + [Ask(id)], queued, inTerm, unparsed, absorbed, issued, asked[id := |issued|])
  {
    ChangesSnoc(pend, Ask(id));
    var n := CountWrites(unparsed);
    AsksSnoc(|absorbed| + |unparsed|, pend, Ask(id), asked, asked[id := |issued|]);
    assert Changes(pend) + [] == Changes(pend);
  }

  /** Taking the first call leaves exactly the other requests waiting. */
  lemma PendTail(pend: seq<Op>, id: nat)
    requires pend != [] && forall k | 0 < k < |pend| && pend[0].Ask? :: pend[0] != pend[k]
    ensures IsWaiting(pend[1..], id) <==> IsWaiting(pend, id) && pend[0] != Ask(id)
  {
    if k :| 0 <= k < |pend| && pend[k] == Ask(id) && pend[0] != Ask(id) {
      assert pend[1..][k - 1] == Ask(id);
    }
    if k :| 0 <= k < |pend[1..]| && pend[1..][k] == Ask(id) {
      assert pend[k + 1] == Ask(id);
    }
  }

  /** Nothing of ours can move: the next queued call must wait for xterm, which still has text to parse. */
  predicate Blocked(pend: seq<Op>, inTerm: int) {
    pend != [] ==> if pend[0].Change? && pend[0].op.Write? then inTerm >= WRITE_HIGH_WATER else inTerm > 0
  }

  /** Queued calls never wait for nothing: while any remain, xterm holds a write whose parse callback resumes
      the queue. */
  lemma NeverStuck(pend: seq<Op>, queued: int, inTerm: int, unparsed: seq<JsString>, absorbed: seq<MirrorOp>,
                   issued: seq<MirrorOp>, asked: map<nat, nat>)
    requires BooksOk(pend, queued, inTerm, unparsed, absorbed, issued, asked) && Blocked(pend, inTerm) && pend != []
    ensures unparsed != []
  {
    NothingHeld(unparsed);
  }

  lemma Answered(pend: seq<Op>, id: nat, answer: Answer, answers: map<nat, Answer>, issued: seq<MirrorOp>,
                 asked: map<nat, nat>)
    requires AnswersOk(pend, answers, issued, asked) && pend != [] && pend[0] == Ask(id)
    requires id in asked && (answer.Shown? ==> answer.ops == issued[..asked[id]])
    ensures AnswersOk(pend[1..], answers[id := answer], issued, asked) && id !in answers
  {
    forall i | i in asked
      ensures IsWaiting(pend[1..], i) <==> IsWaiting(pend, i) && i != id
    {
      PendTail(pend, i);
    }
    assert pend[0] == Ask(id);
  }

  lemma ChangeTaken(pend: seq<Op>, answers: map<nat, Answer>, issued: seq<MirrorOp>, asked: map<nat, nat>)
    requires AnswersOk(pend, answers, issued, asked) && pend != [] && pend[0].Change?
    ensures AnswersOk(pend[1..], answers, issued, asked)
  {
    forall i | i in asked
      ensures IsWaiting(pend[1..], i) <==> IsWaiting(pend, i)
    {
      PendTail(pend, i);
    }
  }

  lemma CalledOne(pend: seq<Op>, o: Op, answers: map<nat, Answer>, issued: seq<MirrorOp>, more: seq<MirrorOp>,
                  asked: map<nat, nat>)
    requires AnswersOk(pend, answers, issued, asked) && issued <= more
    requires o.Ask? ==> more == issued && o.id !in asked
    ensures AnswersOk(pend + [o], answers, more, if o.Ask? then asked[o.id := |issued|] else asked)
  {
    var asked' := if o.Ask? then asked[o.id := |issued|] else asked;
    forall i | i in asked'
      ensures IsWaiting(pend + [o], i) <==> IsWaiting(pend, i) || o == Ask(i)
    {
      if k :| 0 <= k < |pend| && pend[k] == Ask(i) { assert (pend + [o])[k] == Ask(i); }
      if o == Ask(i) { assert (pend + [o])[|pend|] == o; }
    }
    forall id | id in answers && answers[id].Shown?
      ensures answers[id].ops == more[..asked[id]]
    {
      assert issued[..asked[id]] == more[..asked[id]];
    }
  }

  lemma AskKnown(pend: seq<Op>, answers: map<nat, Answer>, issued: seq<MirrorOp>, asked: map<nat, nat>)
    requires AnswersOk(pend, answers, issued, asked) && pend != [] && pend[0].Ask?
    ensures pend[0].id in asked
  {
  }

  lemma AnsweredAtOnce(id: nat, answers: map<nat, Answer>, issued: seq<MirrorOp>, asked: map<nat, nat>)
    requires AnswersOk([], answers, issued, asked) && id !in asked
    ensures AnswersOk([], answers[id := NoAnswer], issued, asked[id := |issued|]) && id !in answers
  {
    assert !IsWaiting([], id);
  }

  /** Answers every request still waiting with nothing. */
  method ResolveWaiting(queue: seq<Op>, head: nat, answers: map<nat, Answer>, ghost issued: seq<MirrorOp>,
                        ghost asked: map<nat, nat>)
    returns (r: map<nat, Answer>)
    requires head <= |queue| && AnswersOk(queue[head..], answers, issued, asked)
    ensures AnswersOk([], r, issued, asked) && asked.Keys == r.Keys
    ensures forall id | id in r :: r[id] == if id in answers then answers[id] else NoAnswer
  {
    hide AnswersOk;
    r := answers;
    var i := head;
    while i < |queue|
      invariant head <= i <= |queue|
      invariant AnswersOk(queue[i..], r, issued, asked)
      invariant forall id | id in answers :: id in r
      invariant forall id | id in r :: r[id] == if id in answers then answers[id] else NoAnswer
    {
      NextOf(queue, i);
      if queue[i].Ask? {
        AskKnown(queue[i..], r, issued, asked);
        Answered(queue[i..], queue[i].id, NoAnswer, r, issued, asked);
        r := r[queue[i].id := NoAnswer];
      } else {
        ChangeTaken(queue[i..], r, issued, asked);
      }
      i := i + 1;
    }
    assert queue[|queue|..] == [];
    AllAnswered(r, issued, asked);
  }

  lemma NextOf(queue: seq<Op>, i: nat)
    requires i < |queue|
    ensures queue[i..] != [] && queue[i..][0] == queue[i] && queue[i..][1..] == queue[i + 1..]
  {
  }

  lemma AllAnswered(answers: map<nat, Answer>, issued: seq<MirrorOp>, asked: map<nat, nat>)
    requires AnswersOk([], answers, issued, asked)
    ensures asked.Keys == answers.Keys
  {
    assert forall id :: !IsWaiting([], id);
  }

  /** What moves: our queue, what xterm holds, what the screen shows. */
  datatype Flow = Flow(pend: seq<Op>, unparsed: seq<JsString>, absorbed: seq<MirrorOp>)

  function Called(f: Flow, o: Op): Flow { f.(pend := f.pend + [o]) }

  /** Where the flow comes to rest: writes go to xterm up to the limit, all else waits until xterm holds nothing. */
  function Rested(f: Flow): Flow
    decreases |f.pend|
  {
    if f.pend == [] || Blocked(f.pend, TextLen(f.unparsed)) then f
    else
      match f.pend[0]
      case Ask(_) => Rested(f.(pend := f.pend[1..]))
      case Change(op) =>
        if op.Write? then Rested(Flow(f.pend[1..], f.unparsed + [op.d], f.absorbed))
        else Rested(Flow(f.pend[1..], f.unparsed, f.absorbed + [op]))
  }

  lemma RestedWrite(pend: seq<Op>, d: JsString, inTerm: int, unparsed: seq<JsString>, absorbed: seq<MirrorOp>)
    requires pend != [] && pend[0] == Change(Write(d)) && inTerm == TextLen(unparsed) && inTerm < WRITE_HIGH_WATER
    ensures Rested(Flow(pend, unparsed, absorbed)) == Rested(Flow(pend[1..], unparsed + [d], absorbed))
  {
  }

  lemma RestedOther(pend: seq<Op>, unparsed: seq<JsString>, absorbed: seq<MirrorOp>)
    requires pend != [] && TextLen(unparsed) == 0
    ensures pend[0].Ask? ==> Rested(Flow(pend, unparsed, absorbed)) == Rested(Flow(pend[1..], unparsed, absorbed))
    ensures pend[0].Change? && pend[0].op.Resize? ==>
              Rested(Flow(pend, unparsed, absorbed)) == Rested(Flow(pend[1..], unparsed, absorbed + [pend[0].op]))
  {
  }

  lemma RestedStill(f: Flow)
    requires f.pend == [] || Blocked(f.pend, TextLen(f.unparsed))
    ensures Rested(f) == f
  {
  }

  /** Coming to rest makes no work. */
  lemma {:induction false} RestsSmaller(f: Flow)
    ensures |Rested(f).pend| + |Rested(f).unparsed| <= |f.pend| + |f.unparsed|
    decreases |f.pend|
  {
    if f.pend != [] && !Blocked(f.pend, TextLen(f.unparsed)) {
      match f.pend[0]
      case Ask(_) => RestsSmaller(f.(pend := f.pend[1..]));
      case Change(op) =>
        if op.Write? {
          RestsSmaller(Flow(f.pend[1..], f.unparsed + [op.d], f.absorbed));
        } else {
          RestsSmaller(Flow(f.pend[1..], f.unparsed, f.absorbed + [op]));
        }
    }
  }

  /** While something is called for but not on the screen, xterm holds text. */
  lemma QuietShowsAll(pend: seq<Op>, queued: int, inTerm: int, unparsed: seq<JsString>, absorbed: seq<MirrorOp>,
                      issued: seq<MirrorOp>, asked: map<nat, nat>)
    requires BooksOk(pend, queued, inTerm, unparsed, absorbed, issued, asked) && Blocked(pend, inTerm)
    ensures unparsed == [] ==> pend == [] && absorbed == issued
  {
    if pend != [] {
      NeverStuck(pend, queued, inTerm, unparsed, absorbed, issued, asked);
    } else {
      assert absorbed + [] + [] == absorbed;
    }
  }

  lemma HeldIs(pend: seq<Op>, queued: int, inTerm: int, unparsed: seq<JsString>, absorbed: seq<MirrorOp>,
               issued: seq<MirrorOp>, asked: map<nat, nat>)
    requires BooksOk(pend, queued, inTerm, unparsed, absorbed, issued, asked)
    ensures inTerm == TextLen(unparsed) && queued == WriteLen(pend)
  {
  }

  class TerminalMirror {
    const readable: Readable
    var disposed: bool
    var inTerm: nat                // handed to xterm, not yet parsed
    var queued: nat                // waiting in our queue
    var queue: seq<Op>
    var head: nat
    var unparsed: seq<JsString>    // what xterm holds, oldest first
    var absorbed: seq<MirrorOp>    // what the screen shows
    var answers: map<nat, Answer>  // the requests resolved so far
    var nextId: nat
    ghost var issued: seq<MirrorOp>
    ghost var asked: map<nat, nat>
    ghost var dropped: nat         // text thrown away by disposing

    ghost function State(): Flow
      requires head <= |queue|
      reads this
    {
      Flow(queue[head..], unparsed, absorbed)
    }

    ghost predicate Running()
      reads this
    {
      && head <= |queue|
      && BooksOk(queue[head..], queued, inTerm, unparsed, absorbed, issued, asked)
      && AnswersOk(queue[head..], answers, issued, asked) && ShownIff(answers, issued, asked, readable)
      && (forall id | id in asked :: id < nextId)
    }

    ghost predicate Valid()
      reads this
    {
      if disposed then
        && queue == [] && head == 0 && AnswersOk([], answers, issued, asked)
        && inTerm == TextLen(unparsed) && queued == dropped && (forall id | id in asked :: id < nextId)
      else
        Running() && Blocked(queue[head..], inTerm) && dropped == 0
    }

    constructor (readable: Readable)
      ensures Valid() && !disposed && issued == [] && asked == map[] && answers == map[] && State() == Flow([], [], [])
      ensures this.readable == readable && nextId == 0
    {
      this.readable := readable;
      disposed, inTerm, queued, queue, head, unparsed, absorbed, answers, nextId :=
        false, 0, 0, [], 0, [], [], map[], 0;
      issued, asked, dropped := [], map[], 0;
    }

    /** An answer shows exactly what the mirror had been asked to absorb when the request was made; it shows nothing
        only if that could not be read or the mirror has been disposed. */
    lemma AnswerShows(id: nat)
      requires Valid() && id in answers
      ensures id in asked && asked[id] <= |issued| && (answers[id].Shown? ==> answers[id].ops == issued[..asked[id]])
      ensures !disposed ==>
                answers[id] == if readable(issued[..asked[id]]) then Shown(issued[..asked[id]]) else NoAnswer
    {
      hide BooksOk;
    }

    /** Lets the queue take effect in call order as far as pacing allows. */
    method Pump()
      requires !disposed && Running() && dropped == 0
      modifies this`inTerm, this`queued, this`queue, this`head, this`unparsed, this`absorbed, this`answers
      ensures Valid() && State() == Rested(old(State()))
      ensures old(answers).Keys <= answers.Keys && forall id | id in old(answers) :: answers[id] == old(answers)[id]
    {
      hide BooksOk, AnswersOk, ShownIff, Rested;
      ghost var rest := Rested(State());
      var waits := false;
      while head < |queue| && !waits
        invariant Running() && Rested(State()) == rest && (waits ==> Blocked(queue[head..], inTerm))
        invariant old(answers).Keys <= answers.Keys && forall id | id in old(answers) :: answers[id] == old(answers)[id]
        decreases |queue| - head, !waits
      {
        waits := TakeNext();
      }
      HeldIs(queue[head..], queued, inTerm, unparsed, absorbed, issued, asked);
      RestedStill(State());
      if head > 1024 && head * 2 > |queue| {
        DropNothing(queue[head..]);
        queue, head := queue[head..], 0;
      }
    }

    /** The next call in the queue takes effect, unless it has to wait. */
    method TakeNext() returns (waits: bool)
      requires !disposed && Running() && head < |queue|
      modifies this`inTerm, this`queued, this`head, this`unparsed, this`absorbed, this`answers
      ensures Running() && Rested(State()) == Rested(old(State()))
      ensures if waits then unchanged(this) && Blocked(queue[head..], inTerm) else head == old(head) + 1
      ensures old(answers).Keys <= answers.Keys && forall id | id in old(answers) :: answers[id] == old(answers)[id]
    {
      hide BooksOk, AnswersOk, ShownIff, Rested;
      var op := queue[head];
      NextOf(queue, head);
      HeldIs(queue[head..], queued, inTerm, unparsed, absorbed, issued, asked);
      if op.Change? && op.op.Write? {
        if inTerm >= WRITE_HIGH_WATER { return true; }
        PopWrite(queue[head..], op.op.d, queued, inTerm, unparsed, absorbed, issued, asked);
        ChangeTaken(queue[head..], answers, issued, asked);
        RestedWrite(queue[head..], op.op.d, inTerm, unparsed, absorbed);
        head, queued, inTerm, unparsed := head + 1, queued - |op.op.d|, inTerm + |op.op.d|, unparsed + [op.op.d];
      } else {
        if inTerm > 0 { return true; }
        RestedOther(queue[head..], unparsed, absorbed);
        if op.Change? {
          PopResize(queue[head..], op.op, queued, unparsed, absorbed, issued, asked);
          ChangeTaken(queue[head..], answers, issued, asked);
          head, absorbed := head + 1, absorbed + [op.op];
        } else {
          var answer := if readable(absorbed) then Shown(absorbed) else NoAnswer;
          PopAsk(queue[head..], op.id, queued, unparsed, absorbed, issued, asked);
          Answered(queue[head..], op.id, answer, answers, issued, asked);
          ShownMore(answers, issued, asked, readable, op.id, answer);
          head, answers := head + 1, answers[op.id := answer];
        }
      }
      return false;
    }

    /** A call joins the queue, which then takes effect as far as it can. */
    method Enqueue(o: Op)
      requires !disposed && Running() && dropped == 0 && (LenOf(o) == 0 ==> o.Ask? || !o.op.Write?)
               && (o.Ask? ==> o.id !in asked && o.id < nextId)
      modifies this`queue, this`issued, this`asked, this`inTerm, this`queued, this`head, this`unparsed, this`absorbed,
               this`answers
      ensures Valid() && State() == Rested(Called(old(State()), o))
      ensures issued == IssuedAfter(old(issued), o) && asked == AskedAfter(old(asked), o, |old(issued)|)
      ensures forall id | id in old(answers) :: id in answers && answers[id] == old(answers)[id]
    {
      hide BooksOk, AnswersOk, ShownIff, Rested, LenOf, IssuedAfter, AskedAfter;
      Enqueued(queue, head, o, queued, inTerm, unparsed, absorbed, issued, asked, answers);
      ShownCalled(queue[head..], answers, issued, asked, o, readable);
      queue, queued, issued, asked :=
        queue + [o], queued + LenOf(o), IssuedAfter(issued, o), AskedAfter(asked, o, |issued|);
      Pump();
    }

    /** A write of nothing is no write. */
    method Write(data: JsString)
      requires Valid()
      modifies this
      ensures Valid() && disposed == old(disposed) && asked == old(asked)
      ensures issued == if disposed || data == [] then old(issued) else old(issued) + [MirrorOp.Write(data)]
      ensures !disposed && data != [] ==>
                head <= |queue| && State() == Rested(Called(old(State()), Change(MirrorOp.Write(data))))
      ensures forall id | id in old(answers) :: id in answers && answers[id] == old(answers)[id]
    {
      hide BooksOk, AnswersOk, ShownIff, Rested;
      if disposed || data == [] { return; }
      Enqueue(Change(MirrorOp.Write(data)));
    }

    method Resize(cols: nat, rows: nat)
      requires Valid()
      modifies this
      ensures Valid() && disposed == old(disposed) && asked == old(asked)
      ensures issued == if disposed then old(issued) else old(issued) + [MirrorOp.Resize(cols, rows)]
      ensures !disposed ==>
                head <= |queue| && State() == Rested(Called(old(State()), Change(MirrorOp.Resize(cols, rows))))
      ensures forall id | id in old(answers) :: id in answers && answers[id] == old(answers)[id]
    {
      hide BooksOk, AnswersOk, ShownIff, Rested;
      if disposed { return; }
      Enqueue(Change(MirrorOp.Resize(cols, rows)));
    }

    /** A snapshot or viewport request. Whenever it is answered with a screen, that screen has absorbed exactly
        the changes called for before the request; a disposed mirror answers at once with nothing. */
    method Request() returns (id: nat)
      requires Valid()
      modifies this
      ensures Valid() && disposed == old(disposed) && issued == old(issued)
      ensures id !in old(asked) && asked == old(asked)[id := |issued|]
      ensures disposed ==> id in answers && answers[id] == NoAnswer
      ensures !disposed ==> head <= |queue| && State() == Rested(Called(old(State()), Ask(id)))
      ensures forall i | i in old(answers) :: i in answers && answers[i] == old(answers)[i]
    {
      hide BooksOk, AnswersOk, ShownIff, Rested;
      id := nextId;
      nextId := nextId + 1;
      if disposed {
        AnsweredAtOnce(id, answers, issued, asked);
        asked, answers := asked[id := |issued|], answers[id := NoAnswer];
      } else {
        Enqueue(Ask(id));
      }
    }

    /** xterm has parsed its oldest write; the callback may come after a dispose. */
    method ParseDone()
      requires Valid() && unparsed != []
      modifies this
      ensures Valid() && disposed == old(disposed) && issued == old(issued) && asked == old(asked)
              && dropped == old(dropped)
      ensures var w := old(unparsed)[0];
              if disposed
              then unparsed == old(unparsed)[1..] && absorbed == old(absorbed) + [MirrorOp.Write(w)]
                   && answers == old(answers)
              else State() == Rested(Parsed(old(State())))
      ensures forall id | id in old(answers) :: id in answers && answers[id] == old(answers)[id]
    {
      hide BooksOk, AnswersOk, ShownIff, Rested, TextLen;
      if !disposed {
        HeldIs(queue[head..], queued, inTerm, unparsed, absorbed, issued, asked);
        ParseOne(queue[head..], queued, inTerm, unparsed, absorbed, issued, asked);
      }
      FirstHeld(unparsed);
      inTerm, unparsed, absorbed := inTerm - |unparsed[0]|, unparsed[1..], absorbed + [MirrorOp.Write(unparsed[0])];
      if !disposed { Pump(); }
    }

    /** Every waiting request is answered with nothing, the queue is dropped. `queued` is not reset, so the count of
        pending text is right from then on if and only if no text was waiting in the queue. */
    method Dispose()
      requires Valid()
      modifies this
      ensures Valid() && disposed && issued == old(issued) && asked == old(asked) && unparsed == old(unparsed)
      ensures asked.Keys <= answers.Keys
      ensures forall id | id in asked :: answers[id] == if id in old(answers) then old(answers)[id] else NoAnswer
      ensures !old(disposed) ==>
                && dropped == WriteLen(old(queue[head..]))
                && (queued + inTerm == TextLen(unparsed) <==> WriteLen(old(queue[head..])) == 0)
      ensures old(disposed) ==> unchanged(this)
    {
      hide BooksOk, AnswersOk, ShownIff, TextLen, WriteLen;
      if disposed {
        AllAnswered(answers, issued, asked);
        return;
      }
      HeldIs(queue[head..], queued, inTerm, unparsed, absorbed, issued, asked);
      answers := ResolveWaiting(queue, head, answers, issued, asked);
      disposed, queue, head, dropped := true, [], 0, queued;
    }

    /** Once xterm has parsed all it was given nothing waits any more: every request has its answer and the queue is
        empty, and the screen of a mirror that is not disposed shows all that was ever called for. */
    lemma QuietAnswersAll()
      requires Valid() && unparsed == []
      ensures asked.Keys == answers.Keys && queue[head..] == [] && (!disposed ==> absorbed == issued)
    {
      hide AnswersOk, BooksOk, Blocked;
      if !disposed { QuietShowsAll(queue[head..], queued, inTerm, unparsed, absorbed, issued, asked); }
      AllAnswered(answers, issued, asked);
    }

    /** xterm parses all it holds and all that the queue then gives it; that comes to an end. */
    method ParseAll()
      requires Valid()
      modifies this
      ensures Valid() && unparsed == [] && disposed == old(disposed) && issued == old(issued) && asked == old(asked)
      ensures asked.Keys == answers.Keys
      ensures forall id | id in old(answers) :: id in answers && answers[id] == old(answers)[id]
    {
      hide BooksOk, AnswersOk, ShownIff, Rested, Blocked;
      while unparsed != []
        invariant Valid() && disposed == old(disposed) && issued == old(issued) && asked == old(asked)
        invariant forall id | id in old(answers) :: id in answers && answers[id] == old(answers)[id]
        decreases |queue| - head + |unparsed|
      {
        RestsSmaller(Parsed(State()));
        ParseDone();
      }
      QuietAnswersAll();
    }

    /** Text called for but not yet parsed: what xterm holds and what waits in the queue. A disposed mirror has no
        queue, but goes on counting the text it dropped with it. */
    method PendingBytes() returns (n: nat)
      requires Valid()
      ensures n == TextLen(unparsed) + WriteLen(queue[head..]) + dropped
    {
      n := queued + inTerm;
    }
  }

  function LenOf(o: Op): nat { if o.Change? && o.op.Write? then |o.op.d| else 0 }

  function IssuedAfter(issued: seq<MirrorOp>, o: Op): seq<MirrorOp> { if o.Change? then issued + [o.op] else issued }

  function AskedAfter(asked: map<nat, nat>, o: Op, n: nat): map<nat, nat> { if o.Ask? then asked[o.id := n] else asked }

  lemma Enqueued(queue: seq<Op>, head: nat, o: Op, queued: nat, inTerm: nat, unparsed: seq<JsString>,
                 absorbed: seq<MirrorOp>, issued: seq<MirrorOp>, asked: map<nat, nat>, answers: map<nat, Answer>)
    requires head <= |queue| && BooksOk(queue[head..], queued, inTerm, unparsed, absorbed, issued, asked)
    requires AnswersOk(queue[head..], answers, issued, asked)
    requires (LenOf(o) == 0 ==> o.Ask? || !o.op.Write?) && (o.Ask? ==> o.id !in asked)
    ensures (queue + [o])[head..] == queue[head..] + [o]
    ensures AskedAfter(asked, o, |issued|).Keys == if o.Ask? then asked.Keys + {o.id} else asked.Keys
    ensures BooksOk((queue + [o])[head..], queued + LenOf(o), inTerm, unparsed, absorbed, IssuedAfter(issued, o),
                    AskedAfter(asked, o, |issued|))
    ensures AnswersOk((queue + [o])[head..], answers, IssuedAfter(issued, o), AskedAfter(asked, o, |issued|))
  {
    hide BooksOk, AnswersOk;
    assert (queue + [o])[head..] == queue[head..] + [o];
    CalledOne(queue[head..], o, answers, issued, IssuedAfter(issued, o), asked);
    if o.Change? {
      CallChange(queue[head..], o.op, queued, inTerm, unparsed, absorbed, issued, asked);
    } else {
      CallAsk(queue[head..], o.id, queued, inTerm, unparsed, absorbed, issued, asked);
    }
  }

  lemma FirstHeld(ws: seq<JsString>)
    requires ws != []
    ensures TextLen(ws) == |ws[0]| + TextLen(ws[1..])
  {
  }

  function Parsed(f: Flow): Flow
    requires f.unparsed != []
  {
    Flow(f.pend, f.unparsed[1..], f.absorbed + [MirrorOp.Write(f.unparsed[0])])
  }

  /** A mirror disposed while a write waits behind a resize: it goes on counting a unit that nothing holds. */
  method DisposedWhileQueued() returns (pending: nat, held: nat)
    ensures pending == 1 && held == 0
  {
    hide BooksOk, AnswersOk, ShownIff, Rested, Called, WriteLen, TextLen;
    var mirror := new TerminalMirror(_ => true);
    RestExample();
    mirror.Write([0x61]);
    mirror.Resize(80, 24);
    mirror.Write([0x62]);
    mirror.Dispose();
    mirror.ParseDone();
    pending := mirror.PendingBytes();
    held := TextLen(mirror.unparsed);
  }

  lemma RestExample()
    ensures var a, size, b := Change(Write([0x61])), Change(Resize(80, 24)), Change(Write([0x62]));
            && Rested(Called(Flow([], [], []), a)) == Flow([], [[0x61]], [])
            && Rested(Called(Flow([], [[0x61]], []), size)) == Flow([size], [[0x61]], [])
            && Rested(Called(Flow([size], [[0x61]], []), b)) == Flow([size, b], [[0x61]], [])
            && WriteLen([size, b]) == 1 && TextLen([]) == 0 && WriteLen([]) == 0
  {
    LenOfTwo(Change(Resize(80, 24)), Change(Write([0x62])));
  }

  lemma LenOfTwo(a: Op, b: Op)
    ensures WriteLen([a, b]) == LenOf(a) + LenOf(b)
  {
    assert [a, b][1..] == [b] && [b][1..] == [];
    assert WriteLen([b]) == LenOf(b);
  }
}
