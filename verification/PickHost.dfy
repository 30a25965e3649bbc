/** The pick host: per-slot records, launches and exits, screen readings and the tick that lets the engine write.
    Every write ever made is logged; the log says what each one relied on. */
module PickHost {
  import opened Options
  import opened ApplyEngine

  datatype Slot = Claude | Terminal2 | Unowned(id: nat)

  /** A finished screen reading, when it began and under which epoch of its slot. */
  datatype Stored = Stored(reading: Reading, startedAt: int, epoch: nat)

  /** The running tick: the slot whose screen is being read, and the slots still to come. */
  datatype Tick = Tick(slot: Slot, startedAt: int, epoch: nat, rest: seq<Slot>)

  /** One write: when, over which reading begun when, in which epoch, when that epoch began, when the slot's process was
      last started or seen to exit, and how often it had been by then. */
  datatype Write = Write(slot: Slot, effort: Effort, at: int, readAt: int, reading: Reading, epoch: nat, epochAt: int,
                         since: int, turns: nat)

  datatype Config = Config(owned: seq<Slot>, quietMs: nat, readMaxAgeMs: nat, launchGraceMs: nat, minWriteGapMs: nat)

  /** Everything about one slot except its record. */
  datatype Signals = Signals(epoch: nat, epochAt: int, reading: Option<Stored>, lastOutput: Option<int>,
                             lastInput: Option<int>, launchAt: int, lastWriteAt: Option<int>)

  function QuietStart(now: int): Signals { Signals(0, now, None, None, None, 0, None) }

  datatype Settled = SettledOk | SettledDraft | SettledUnknown

  function SettledAt(s: Signals, startedAt: int, quietMs: nat): Settled {
    if s.lastOutput == None || startedAt - s.lastOutput.value < quietMs then SettledUnknown
    else if s.lastInput.Some? && startedAt - s.lastInput.value < quietMs then SettledDraft
    else SettledOk
  }

  /** The reading the engine may rely on now. */
  function IdleFor(s: Signals, now: int, c: Config): Reading {
    if s.reading == None || s.reading.value.epoch != s.epoch || now - s.reading.value.startedAt > c.readMaxAgeMs
    then NotKnown
    else
      var r := s.reading.value;
      if r.reading == Generating then
        if s.lastInput.Some? && r.startedAt - s.lastInput.value < c.quietMs then Draft else Generating
      else if r.reading != Idle then r.reading
      else
        match SettledAt(s, r.startedAt, c.quietMs)
        case SettledOk => Idle
        case SettledDraft => Draft
        case SettledUnknown => NotKnown
  }

  /** A new epoch: the old process's readings and output say nothing about the new one. */
  function Bump(s: Signals, now: int): Signals {
    s.(epoch := s.epoch + 1, epochAt := now, reading := None, lastOutput := None)
  }

  /** A launch also begins its grace time and forgets the last write. */
  function NewEpoch(s: Signals, now: int): (r: Signals)
    ensures r.epochAt == now && r.reading == None && r.lastWriteAt == None
  {
    Bump(s, now).(launchAt := now, lastWriteAt := None)
  }

  /** A new epoch began now: nothing read, printed or written before it counts. `launchAt`: the latest launch. */
  ghost predicate Begun(before: Signals, after: Signals, now: int, launchAt: int) {
    && after.epoch == before.epoch + 1 && after.epochAt == now && after.launchAt == launchAt
    && after.reading == None && after.lastOutput == None && after.lastWriteAt == None
    && after.lastInput == before.lastInput
  }

  lemma EpochBegins(s: Signals, now: int)
    ensures Begun(s, Bump(s.(lastWriteAt := None), now), now, s.launchAt) && Begun(s, NewEpoch(s, now), now, now)
  {
  }

  lemma BegunSince(s: Signals, read: Signals, now: int)
    requires read == s.(reading := read.reading)
    ensures forall after :: Begun(read, after, now, s.launchAt) <==> Begun(s, after, now, s.launchAt)
  {
  }

  /** A shell where a thread should be: it was read after quiet, and the grace time of the latest launch is over. */
  ghost predicate Gone(s: Signals, t: Tick, reading: Reading, now: int, c: Config) {
    && reading == Shell && s.lastOutput.Some? && t.startedAt - s.lastOutput.value >= c.quietMs
    && (s.lastInput.Some? ==> t.startedAt - s.lastInput.value >= c.quietMs) && now - s.launchAt >= c.launchGraceMs
  }

  lemma GoneIs(s: Signals, t: Tick, reading: Reading, now: int, c: Config)
    ensures reading == Shell && SettledAt(s, t.startedAt, c.quietMs) == SettledOk && now - s.launchAt >= c.launchGraceMs
            <==> Gone(s, t, reading, now, c)
    ensures forall r :: SettledAt(s.(reading := r), t.startedAt, c.quietMs) == SettledAt(s, t.startedAt, c.quietMs)
  {
  }

  /** The screens of the owned slots are read one after the other: the next is the first with a queue waiting. */
  ghost predicate ReadsNext(tick: Option<Tick>, rest: seq<Slot>, disposed: bool, records: map<Slot, Rec>,
                            signals: map<Slot, Signals>, now: int) {
    if disposed || forall s | s in rest && s in records :: !HasPendingQueue(records[s]) then tick == None
    else
      exists i | 0 <= i < |rest| ::
        && rest[i] in records && rest[i] in signals && HasPendingQueue(records[rest[i]])
        && tick == Some(Tick(rest[i], now, signals[rest[i]].epoch, rest[i + 1..]))
        && forall j | 0 <= j < i && rest[j] in records :: !HasPendingQueue(records[rest[j]])
  }

  /** What the engine's reading rests on when it allows a write: a read of this epoch, not too old, with nothing
      typed since a quiet time before it began, and, for an idle screen, nothing printed either. */
  predicate RestsOn(s: Signals, reading: Reading, readAt: int, now: int, c: Config) {
    && s.epochAt <= readAt <= now && now - readAt <= c.readMaxAgeMs
    && (s.lastInput.Some? ==> s.lastInput.value + c.quietMs <= readAt)
    && (reading == Idle ==> s.lastOutput.Some? && s.lastOutput.value + c.quietMs <= readAt)
  }

  ghost predicate SignalsOk(s: Signals, clock: int) {
    && s.epochAt <= clock
    && (s.reading.Some? ==> s.reading.value.epoch == s.epoch && s.epochAt <= s.reading.value.startedAt <= clock)
    && (s.lastWriteAt.Some? ==> s.lastWriteAt.value <= clock)
  }

  /** The engine may rely on a reading of an idle or generating screen exactly if it is of this epoch, not too old and
      taken after quiet. */
  lemma ReadingRests(s: Signals, now: int, c: Config, r: Reading)
    requires SignalsOk(s, now) && (r == Idle || r == Generating)
    ensures IdleFor(s, now, c) == r <==>
            s.reading.Some? && s.reading.value.reading == r && RestsOn(s, r, s.reading.value.startedAt, now, c)
  {
  }

  /** The log's promises. */
  ghost predicate LogOk(writes: seq<Write>, c: Config) {
    && (forall k | 0 <= k < |writes| ::
          var w := writes[k];
          && w.slot in c.owned && !w.slot.Unowned? && Launchable(w.effort)
          && (w.reading == Idle || w.reading == Generating)
          && w.epochAt <= w.readAt <= w.at && w.at - w.readAt <= c.readMaxAgeMs)
    && (forall j, k | 0 <= j < k < |writes| && writes[j].slot == writes[k].slot && writes[j].epoch == writes[k].epoch ::
          writes[k].at - writes[j].at >= c.minWriteGapMs)
  }

  /** The slot's last write of this epoch is the one the gap is measured from. */
  ghost predicate GapKnown(writes: seq<Write>, slot: Slot, s: Signals) {
    forall k | 0 <= k < |writes| && writes[k].slot == slot ::
      writes[k].epoch <= s.epoch
      && (writes[k].epoch == s.epoch ==> s.lastWriteAt.Some? && writes[k].at <= s.lastWriteAt.value)
  }

  lemma LogGrows(writes: seq<Write>, w: Write, s: Signals, c: Config)
    requires LogOk(writes, c) && GapKnown(writes, w.slot, s) && w.epoch == s.epoch
    requires w.slot in c.owned && !w.slot.Unowned? && Launchable(w.effort)
             && (w.reading == Idle || w.reading == Generating)
    requires w.epochAt <= w.readAt <= w.at && w.at - w.readAt <= c.readMaxAgeMs
    requires s.lastWriteAt.Some? ==> w.at - s.lastWriteAt.value >= c.minWriteGapMs
    ensures LogOk(writes + [w], c) && GapKnown(writes + [w], w.slot, s.(lastWriteAt := Some(w.at)))
  {
  }

  ghost predicate AllOk(signals: map<Slot, Signals>, writes: seq<Write>, clock: int, c: Config) {
    && LogOk(writes, c) && (forall s | s in c.owned :: s in signals)
    && forall s | s in signals :: SignalsOk(signals[s], clock) && GapKnown(writes, s, signals[s])
  }

  lemma TimePasses(signals: map<Slot, Signals>, writes: seq<Write>, clock: int, now: int, c: Config)
    requires AllOk(signals, writes, clock, c) && clock <= now
    ensures AllOk(signals, writes, now, c)
  {
    hide LogOk, GapKnown;
  }

  /** Replacing one slot's signals. */
  lemma OneChanged(signals: map<Slot, Signals>, writes: seq<Write>, clock: int, c: Config, slot: Slot, s: Signals)
    requires AllOk(signals, writes, clock, c) && SignalsOk(s, clock) && GapKnown(writes, slot, s)
    ensures AllOk(signals[slot := s], writes, clock, c)
  {
    hide LogOk, GapKnown, SignalsOk;
  }

  lemma Logged(signals: map<Slot, Signals>, writes: seq<Write>, clock: int, c: Config, w: Write, s: Signals)
    requires AllOk(signals, writes, clock, c) && w.slot in signals && s == signals[w.slot].(lastWriteAt := Some(w.at))
             && w.at == clock
    requires LogOk(writes + [w], c) && GapKnown(writes + [w], w.slot, s)
    ensures AllOk(signals[w.slot := s], writes + [w], clock, c)
  {
    hide LogOk;
    forall k | k in signals && k != w.slot
      ensures GapKnown(writes + [w], k, signals[k])
    {
      assert GapKnown(writes, k, signals[k]);
    }
  }

  /** What a launch would run, if the record can be launched. A queued budget step is not a desire. */
  function PlanLaunch(r: Rec, usage: Usage): Option<Plan> {
    if r.halted then None
    else
      var desired := if r.queue.Some? && r.queue.value.trigger != ByBudget then r.queue else None;
      var folded := Pick(if r.modelPending.Some? then r.modelPending.value else r.intended.model,
                         if desired.Some? then desired.value.pick.effort else r.intended.effort);
      var source :=
        if (desired.Some? || r.modelPending.Some?) && r.pendingSource.Some? then r.pendingSource.value else r.source;
      var (pick, level) := ApplyBudget(folded, usage, source, r.lastBudgetLevel);
      if Launchable(pick.effort) then Some(Plan(pick.model, pick.effort, level)) else None
  }

  /** The last entry of a grown log: one launchable effort, other than the running one, written for a live,
      unhalted record with a queue, on a reading of this epoch. */
  ghost predicate OneWrite(before: seq<Write>, after: seq<Write>, slot: Slot, r: Rec, next: Rec, s: Signals, now: int,
                           c: Config) {
    after == before
    || (|after| == |before| + 1 && after[..|before|] == before
        && var w := after[|before|];
           && w.slot == slot && w.at == now && w.epoch == s.epoch && w.epochAt == s.epochAt
           && WriteAllowed(r, w.effort, now, s.lastWriteAt, c.minWriteGapMs, w.reading)
           && RestsOn(s, w.reading, w.readAt, now, c)
           && next.queue == None && next.launched == Some(Base(r).(effort := w.effort)))
  }

  lemma CheckedKeeps(r: Rec, usage: Usage, written: Option<Effort>, next: Rec)
    requires Checked(r, usage, written, next)
    ensures Wish(next) == Wish(r) && next.live == r.live
    ensures written.Some? ==> next.queue == None && next.launched == Some(Base(r).(effort := written.value))
  {
  }

  /** The effort that the log grew by, if it grew. */
  ghost function EffortLogged(before: seq<Write>, after: seq<Write>): Option<Effort> {
    if after == before || after == [] then None else Some(after[|after| - 1].effort)
  }

  /** With this reading, the engine writes: the effort that the queue comes to may be written now. */
  ghost predicate Due(r: Rec, s: Signals, t: Tick, reading: Reading, usage: Usage, portOk: bool, now: int, c: Config) {
    && portOk && HasPendingQueue(r)
    && WriteAllowed(r, Target(r, usage), now, s.lastWriteAt, c.minWriteGapMs,
                    IdleFor(s.(reading := Some(Stored(reading, t.startedAt, t.epoch))), now, c))
  }

  /** Nothing is written where a shell is seen. */
  lemma ShellNotDue(r: Rec, s: Signals, t: Tick, usage: Usage, portOk: bool, now: int, c: Config)
    ensures !Due(r, s, t, Shell, usage, portOk, now, c)
  {
  }

  /** The record of a live process belongs to an epoch that began no earlier than the process did. */
  predicate Covered(records: map<Slot, Rec>, signals: map<Slot, Signals>, since: map<Slot, int>, slot: Slot) {
    slot in records && slot in signals && slot in since && (records[slot].live ==> since[slot] <= signals[slot].epochAt)
  }

  ghost predicate AllCovered(records: map<Slot, Rec>, signals: map<Slot, Signals>, since: map<Slot, int>, c: Config) {
    forall s | s in c.owned :: Covered(records, signals, since, s)
  }

  /** No write relied on a reading begun before its slot's latest start or exit. */
  ghost predicate FreshWrites(writes: seq<Write>) {
    forall w | w in writes :: w.since <= w.readAt
  }

  /** One slot's record, signals and latest start or exit change. */
  lemma CoveredOne(records: map<Slot, Rec>, signals: map<Slot, Signals>, since: map<Slot, int>, c: Config, slot: Slot,
                   r: Rec, s: Signals, at: int)
    requires AllCovered(records, signals, since, c) && (r.live ==> at <= s.epochAt)
    ensures AllCovered(records[slot := r], signals[slot := s], since[slot := at], c)
  {
    forall k | k in c.owned
      ensures Covered(records[slot := r], signals[slot := s], since[slot := at], k)
    {
      assert Covered(records, signals, since, k);
    }
  }

  /** A new entry notes its slot's latest start or exit. */
  ghost predicate LogsStart(before: seq<Write>, after: seq<Write>, since: map<Slot, int>, turns: map<Slot, nat>,
                            slot: Slot) {
    after == before
    || (after != [] && slot in since && slot in turns && after[|after| - 1].since == since[slot]
        && after[|after| - 1].turns == turns[slot])
  }

  /** The slot's process was started or exited once more. */
  function OneMore(turns: map<Slot, nat>, slot: Slot): (r: map<Slot, nat>)
    ensures r.Keys == turns.Keys
  {
    if slot in turns then turns[slot := turns[slot] + 1] else turns
  }

  lemma FreshGrows(writes: seq<Write>, w: Write)
    requires FreshWrites(writes) && w.since <= w.readAt
    ensures FreshWrites(writes + [w])
  {
  }

  /** Two writes between the same starts and exits of their slot's process are the gap apart, whatever epochs they fell
      in. */
  ghost predicate GapsOk(writes: seq<Write>, c: Config) {
    forall j, k | 0 <= j < k < |writes| && writes[j].slot == writes[k].slot && writes[j].turns == writes[k].turns ::
      writes[k].at - writes[j].at >= c.minWriteGapMs
  }

  /** Since the slot's latest start or exit, either its record has died or its latest write is what the gap is measured
      from. */
  ghost predicate LastKnown(writes: seq<Write>, slot: Slot, turns: nat, r: Rec, s: Signals) {
    forall k | 0 <= k < |writes| && writes[k].slot == slot ::
      && writes[k].turns <= turns
      && (writes[k].turns == turns && r.live ==> s.lastWriteAt.Some? && writes[k].at <= s.lastWriteAt.value)
  }

  /** The gap is kept and will be: a record that is not live writes nothing until a launch makes it live. */
  ghost predicate Spaced(writes: seq<Write>, turns: map<Slot, nat>, records: map<Slot, Rec>,
                         signals: map<Slot, Signals>, c: Config) {
    && GapsOk(writes, c)
    && forall s | s in c.owned ::
         s in turns && s in records && s in signals && LastKnown(writes, s, turns[s], records[s], signals[s])
  }

  /** One slot changes: its process was started or exited, or its record died, or neither and no write is forgotten. */
  lemma SpacedOne(writes: seq<Write>, turns: map<Slot, nat>, records: map<Slot, Rec>, signals: map<Slot, Signals>,
                  c: Config, slot: Slot, n: nat, r: Rec, s: Signals)
    requires Spaced(writes, turns, records, signals, c) && slot in c.owned && n >= turns[slot]
    requires n > turns[slot] || !r.live || (records[slot].live && s.lastWriteAt == signals[slot].lastWriteAt)
    ensures Spaced(writes, turns[slot := n], records[slot := r], signals[slot := s], c)
  {
    assert LastKnown(writes, slot, turns[slot], records[slot], signals[slot]);
    assert LastKnown(writes, slot, n, r, s);
    hide GapsOk, LastKnown;
  }

  /** A record changes, but not to live. */
  lemma SpacedRecord(writes: seq<Write>, turns: map<Slot, nat>, records: map<Slot, Rec>, signals: map<Slot, Signals>,
                     c: Config, slot: Slot, r: Rec)
    requires Spaced(writes, turns, records, signals, c) && slot in c.owned && (r.live ==> records[slot].live)
    ensures Spaced(writes, turns, records[slot := r], signals, c)
  {
    SpacedOne(writes, turns, records, signals, c, slot, turns[slot], r, signals[slot]);
    assert turns[slot := turns[slot]] == turns && signals[slot := signals[slot]] == signals;
  }

  /** Signals change, but not the time of the last write. */
  lemma SpacedSignals(writes: seq<Write>, turns: map<Slot, nat>, records: map<Slot, Rec>, signals: map<Slot, Signals>,
                      c: Config, slot: Slot, s: Signals)
    requires Spaced(writes, turns, records, signals, c) && slot in c.owned && s.lastWriteAt == signals[slot].lastWriteAt
    ensures Spaced(writes, turns, records, signals[slot := s], c)
  {
    SpacedOne(writes, turns, records, signals, c, slot, turns[slot], records[slot], s);
    assert turns[slot := turns[slot]] == turns && records[slot := records[slot]] == records;
  }

  /** The record dies. */
  lemma SpacedDeath(writes: seq<Write>, turns: map<Slot, nat>, records: map<Slot, Rec>, signals: map<Slot, Signals>,
                    c: Config, slot: Slot, s: Signals)
    requires Spaced(writes, turns, records, signals, c) && slot in c.owned
    ensures Spaced(writes, turns, records[slot := MarkExited(records[slot])], signals[slot := s], c)
  {
    SpacedOne(writes, turns, records, signals, c, slot, turns[slot], MarkExited(records[slot]), s);
    assert turns[slot := turns[slot]] == turns;
  }

  /** The process was started or exited. */
  lemma SpacedTurn(writes: seq<Write>, turns: map<Slot, nat>, records: map<Slot, Rec>, signals: map<Slot, Signals>,
                   c: Config, slot: Slot)
    requires Spaced(writes, turns, records, signals, c) && slot in c.owned
    ensures Spaced(writes, turns[slot := turns[slot] + 1], records, signals, c)
  {
    SpacedOne(writes, turns, records, signals, c, slot, turns[slot] + 1, records[slot], signals[slot]);
    assert records[slot := records[slot]] == records && signals[slot := signals[slot]] == signals;
  }

  /** A launch begins with a new record. */
  lemma SpacedLaunch(writes: seq<Write>, turns: map<Slot, nat>, records: map<Slot, Rec>, signals: map<Slot, Signals>,
                     c: Config, slot: Slot, r: Rec, s: Signals)
    requires Spaced(writes, turns, records, signals, c) && slot in c.owned
    ensures Spaced(writes, OneMore(turns, slot), records[slot := r], signals[slot := s], c)
  {
    SpacedOne(writes, turns, records, signals, c, slot, turns[slot] + 1, r, s);
  }

  /** A write of a live record, the gap after the last one known. */
  lemma SpacedWrite(writes: seq<Write>, turns: map<Slot, nat>, records: map<Slot, Rec>, signals: map<Slot, Signals>,
                    c: Config, w: Write, r: Rec, s: Signals)
    requires Spaced(writes, turns, records, signals, c) && w.slot in c.owned && w.turns == turns[w.slot]
    requires records[w.slot].live && s.lastWriteAt == Some(w.at)
    requires var last := signals[w.slot].lastWriteAt;
             last.Some? ==> last.value <= w.at && w.at - last.value >= c.minWriteGapMs
    ensures Spaced(writes + [w], turns, records[w.slot := r], signals[w.slot := s], c)
  {
    assert LastKnown(writes, w.slot, turns[w.slot], records[w.slot], signals[w.slot]);
    forall k | k in c.owned
      ensures LastKnown(writes + [w], k, turns[k], records[w.slot := r][k], signals[w.slot := s][k])
    {
      assert LastKnown(writes, k, turns[k], records[k], signals[k]);
    }
  }

  /** Each owned slot's record wishes for what its log of picks says. */
  ghost predicate Wished(records: map<Slot, Rec>, wishes: map<Slot, Pick>, c: Config) {
    forall s | s in c.owned :: s in records && s in wishes && Wish(records[s]) == wishes[s]
  }

  lemma WishedOne(records: map<Slot, Rec>, wishes: map<Slot, Pick>, c: Config, slot: Slot, r: Rec)
    requires Wished(records, wishes, c) && slot in records && Wish(r) == Wish(records[slot])
    ensures Wished(records[slot := r], wishes, c)
  {
    hide Wish;
  }

  /** An accepted pick becomes the wish unless it is a budget step. */
  lemma PickNoted(records: map<Slot, Rec>, wishes: map<Slot, Pick>, c: Config, slot: Slot, pick: Pick, source: Source,
                  trigger: Trigger)
    requires Wished(records, wishes, c) && slot in c.owned && slot in records
    requires SubmitPick(records[slot], pick, source, trigger).Some?
    ensures var r := SubmitPick(records[slot], pick, source, trigger).value;
            && Wished(records[slot := r], wishes[slot := Wish(r)], c)
            && (source == Auto && trigger == ByBudget ==> wishes[slot := Wish(r)] == wishes)
            && (trigger != ByBudget ==> Wish(r) == pick)
  {
    hide SubmitPick, Wish;
    var r := SubmitPick(records[slot], pick, source, trigger).value;
    WishedNew(records, wishes, c, slot, r);
    if source == Auto && trigger == ByBudget {
      StepWaits(records[slot], pick);
      assert slot in wishes && wishes[slot] == Wish(r);
    } else {
      PickIsWished(records[slot], pick, source, trigger);
    }
  }

  lemma WishedNew(records: map<Slot, Rec>, wishes: map<Slot, Pick>, c: Config, slot: Slot, r: Rec)
    requires Wished(records, wishes, c)
    ensures Wished(records[slot := r], wishes[slot := Wish(r)], c)
  {
    hide Wish;
  }

  predicate AllKnown(records: map<Slot, Rec>, since: map<Slot, int>, turns: map<Slot, nat>, c: Config) {
    forall s | s in c.owned :: s in records && s in since && s in turns && !s.Unowned?
  }

  /** Plans wait for owned slots that are not live. */
  predicate NoneLive(pending: map<Slot, Plan>, records: map<Slot, Rec>, c: Config) {
    forall s | s in pending :: s in c.owned && s in records && !records[s].live
  }

  lemma LaunchKnown(records: map<Slot, Rec>, since: map<Slot, int>, turns: map<Slot, nat>, pending: map<Slot, Plan>,
                    c: Config, slot: Slot, r: Rec, now: int)
    requires AllKnown(records, since, turns, c) && NoneLive(pending, records, c) && slot in c.owned
    ensures slot in records && slot in turns
    ensures AllKnown(records[slot := r], since[slot := now], OneMore(turns, slot), c)
    ensures NoneLive(pending - {slot}, records[slot := r], c)
  {
  }

  class PickHost {
    const c: Config
    var records: map<Slot, Rec>
    var signals: map<Slot, Signals>
    var pending: map<Slot, Plan>
    var disposed: bool
    var tick: Option<Tick>
    ghost var clock: int            // time of the latest event
    ghost var writes: seq<Write>
    ghost var since: map<Slot, int> // per slot, the latest start or exit of any kind
    ghost var turns: map<Slot, nat> // and how many there have been
    ghost var wishes: map<Slot, Pick> // per slot, the last pick accepted that was no budget step, or what it began with

    ghost predicate Valid()
      reads this
    {
      && AllKnown(records, since, turns, c) && AllOk(signals, writes, clock, c)
      && (tick.Some? ==> TickOk(tick.value, signals, clock, c))
      && NoneLive(pending, records, c)
      && Spaced(writes, turns, records, signals, c) && Wished(records, wishes, c)
    }

    /** Every live record's epoch covers its process, and no write relied on an older reading. */
    ghost predicate Orderly()
      reads this
    {
      AllCovered(records, signals, since, c) && FreshWrites(writes)
    }

    constructor (c: Config, records: map<Slot, Rec>, now: int)
      requires forall s | s in c.owned :: s in records && !s.Unowned?
      ensures Valid() && this.c == c && writes == [] && tick == None && !disposed
      ensures Orderly() && forall s | s in c.owned :: !this.records[s].live && wishes[s] == Wish(records[s])
      ensures forall s | s in c.owned ::
                && s in signals && signals[s].launchAt == 0 && signals[s].reading == None
                && signals[s].lastOutput == None && signals[s].lastInput == None && signals[s].lastWriteAt == None
    {
      hide AllOk, AllCovered, FreshWrites, Spaced, Wished, MarkExited, Wish;
      this.c, this.pending, disposed, tick, clock, writes := c, map[], false, None, now, [];
      this.since := map s | s in records :: now;
      this.turns := map s | s in records :: 0;
      this.wishes := map s | s in records :: Wish(records[s]);
      this.records := map s | s in records :: if s in c.owned then MarkExited(records[s]) else records[s];
      this.signals := map s | s in records :: QuietStart(now);
      new;
      Begins(records, now, c, this.records, this.signals, this.since, this.turns, this.wishes);
    }

    method OnPick(slot: Slot, pick: Pick, source: Source, trigger: Trigger, now: int) returns (rejected: bool)
      requires Valid() && now >= clock
      modifies this`records, this`clock, this`wishes
      ensures Valid() && clock == now && (old(Orderly()) ==> Orderly()) && NoneStarted(old(records), records)
      ensures rejected || (source == Auto && trigger == ByBudget) ==> wishes == old(wishes)
      ensures !rejected && trigger != ByBudget ==> wishes == old(wishes)[slot := pick]
      ensures rejected <==> slot !in c.owned || SubmitPick(old(records)[slot], pick, source, trigger) == None
      ensures rejected ==> records == old(records)
      ensures !rejected ==> records == old(records)[slot := SubmitPick(old(records)[slot], pick, source, trigger).value]
    {
      hide AllOk, TickOk, SubmitPick, AllCovered, FreshWrites, Spaced, Wished;
      TimeMoves(now);
      if slot !in c.owned { return true; }
      var next := SubmitPick(records[slot], pick, source, trigger);
      SubmitRespects(records[slot], pick, source, trigger);
      rejected := next == None;
      if !rejected {
        RecordChanges(records, signals, since, c, slot, next.value);
        SpacedRecord(writes, turns, records, signals, c, slot, next.value);
        PickNoted(records, wishes, c, slot, pick, source, trigger);
        records, wishes := records[slot := next.value], wishes[slot := Wish(next.value)];
      }
    }

    method ReportConfirmed(slot: Slot, now: int)
      requires Valid() && now >= clock && slot in c.owned
      modifies this`records, this`clock
      ensures Valid() && clock == now && (old(Orderly()) ==> Orderly())
      ensures records == old(records)[slot := old(records)[slot].(outcome := Confirmed, pendingStepDown := false)]
    {
      hide AllOk, TickOk, AllCovered, FreshWrites, Spaced, Wished;
      TimeMoves(now);
      RecordChanges(records, signals, since, c, slot, records[slot].(outcome := Confirmed, pendingStepDown := false));
      SpacedRecord(writes, turns, records, signals, c, slot,
                   records[slot].(outcome := Confirmed, pendingStepDown := false));
      WishedOne(records, wishes, c, slot, records[slot].(outcome := Confirmed, pendingStepDown := false));
      records := records[slot := records[slot].(outcome := Confirmed, pendingStepDown := false)];
    }

    method ClearHalt(slot: Slot, now: int)
      requires Valid() && now >= clock && slot in c.owned
      modifies this`records, this`clock
      ensures Valid() && clock == now && records == old(records)[slot := old(records)[slot].(halted := false)]
      ensures old(Orderly()) ==> Orderly()
    {
      hide AllOk, TickOk, AllCovered, FreshWrites, Spaced, Wished;
      TimeMoves(now);
      RecordChanges(records, signals, since, c, slot, records[slot].(halted := false));
      SpacedRecord(writes, turns, records, signals, c, slot, records[slot].(halted := false));
      WishedOne(records, wishes, c, slot, records[slot].(halted := false));
      records := records[slot := records[slot].(halted := false)];
    }

    /** The launch did not come up as wanted: the slot halts. A reported pick replaces the assumed one, and a queued one
        names the model that runs. */
    method ReportNotApplied(slot: Slot, actual: Option<Pick>, now: int)
      requires Valid() && now >= clock && slot in c.owned
      modifies this`records, this`clock
      ensures Valid() && clock == now && records.Keys == old(records).Keys
      ensures records[slot].halted && !HasPendingQueue(records[slot]) && (old(Orderly()) ==> Orderly())
      ensures old(records)[slot].halted ==> records == old(records)
      ensures !old(records)[slot].halted ==>
                var r, u := old(records)[slot], records[slot];
                var known := actual.Some? && Launchable(actual.value.effort);
                && records == old(records)[slot := u] && u.outcome == NotApplied
                && Base(u) == (if known then actual.value else Base(r))
                && u == r.(halted := true, outcome := NotApplied, launched := u.launched, queue := u.queue)
                && (u.launched.Some? <==> known || r.launched.Some?) && (u.queue.Some? <==> r.queue.Some?)
                && (r.queue.Some? ==>
                      var wanted := r.queue.value.pick;
                      u.queue.value ==
                      r.queue.value.(pick := if known then Pick(actual.value.model, wanted.effort) else wanted))
      ensures NoneStarted(old(records), records)
    {
      hide AllOk, TickOk, AllCovered, FreshWrites, Spaced, Wished;
      TimeMoves(now);
      var r := records[slot];
      if r.halted { return; }
      var known := if actual.Some? && Launchable(actual.value.effort) then actual else None;
      var next := r.(launched := if known.Some? then known else r.launched, halted := true, outcome := NotApplied,
                     queue := if known.Some? && r.queue.Some?
                              then Some(r.queue.value.(pick := r.queue.value.pick.(model := known.value.model)))
                                   else r.queue);
      RecordChanges(records, signals, since, c, slot, next);
      SpacedRecord(writes, turns, records, signals, c, slot, next);
      WishedOne(records, wishes, c, slot, next);
      records := records[slot := next];
    }

    ghost method TimeMoves(now: int)
      requires Valid() && now >= clock
      modifies this`clock
      ensures Valid() && clock == now && (old(Orderly()) ==> Orderly())
    {
      hide AllOk, TickOk, AllCovered, FreshWrites, Spaced, Wished;
      TimePasses(signals, writes, clock, now, c);
      if tick.Some? { TickLater(tick.value, signals, clock, now, c); }
      clock := now;
    }

    /** The slot's process was started or exited. That is harmless if and only if its record is not live or its epoch
        began just now. */
    ghost method Turn(slot: Slot, now: int)
      requires Valid() && now == clock && slot in c.owned
      modifies this`since, this`turns
      ensures Valid() && since == old(since)[slot := now] && turns == OneMore(old(turns), slot) && slot in signals
      ensures old(Orderly()) ==> (Orderly() <==> !records[slot].live || signals[slot].epochAt == now)
    {
      hide AllOk, TickOk, SignalsOk, AllCovered, FreshWrites, Spaced, Wished;
      Owned(signals, writes, clock, c, slot);
      OwnedOk(signals, writes, clock, c, slot);
      UnplannedCovered(records, signals, since, c, slot, now);
      SpacedTurn(writes, turns, records, signals, c, slot);
      since, turns := since[slot := now], turns[slot := turns[slot] + 1];
    }

    /** The slot's process is gone or replaced: nothing read of it counts any more. */
    method Forget(slot: Slot, now: int)
      requires Valid() && now == clock && slot in c.owned
      modifies this`records, this`signals
      ensures Valid() && records == old(records)[slot := MarkExited(old(records)[slot])]
      ensures slot in old(signals) && slot in signals && signals == old(signals)[slot := signals[slot]]
              && Begun(old(signals)[slot], signals[slot], now, old(signals)[slot].launchAt)
      ensures !records[slot].live && signals[slot].epochAt == now && signals[slot].lastWriteAt == None
      ensures old(Orderly()) ==> Orderly()
    {
      hide AllOk, TickOk, AllCovered, FreshWrites, SignalsOk, Begun;
      Owned(signals, writes, clock, c, slot);
      var s := Bump(signals[slot].(lastWriteAt := None), now);
      EpochBegins(signals[slot], now);
      Bumped(signals, writes, clock, c, slot, s);
      TickStays(tick, signals, clock, c, slot, s);
      ExitCovered(records, signals, since, c, slot, s);
      SpacedDeath(writes, turns, records, signals, c, slot, s);
      ExitKeepsWish(records[slot]);
      WishedOne(records, wishes, c, slot, MarkExited(records[slot]));
      records := records[slot := MarkExited(records[slot])];
      signals := signals[slot := s];
    }

    /** A command for a launch: a live slot is given up first; `commandOk`: the command could be built. */
    method LaunchFor(slot: Slot, usage: Usage, commandOk: bool, now: int) returns (plan: Option<Plan>)
      requires Valid() && now >= clock
      modifies this`records, this`signals, this`pending, this`clock
      ensures Valid() && clock == now && (old(Orderly()) ==> Orderly())
      ensures slot !in c.owned ==> plan == None && records == old(records) && pending == old(pending)
      ensures slot in c.owned ==>
                && records == (if old(records)[slot].live then old(records)[slot := MarkExited(old(records)[slot])]
                               else old(records))
                && plan == (if commandOk then PlanLaunch(records[slot], usage) else None)
                && pending == (if plan.Some? then old(pending)[slot := plan.value] else old(pending) - {slot})
      ensures NoneStarted(old(records), records)
      ensures slot in c.owned ==>
                !records[slot].live && (plan.Some? <==> slot in pending) && (plan.Some? ==> !records[slot].halted)
      ensures slot in c.owned && old(records)[slot].live ==>
                signals[slot].epochAt == now && slot in old(signals)
                && Begun(old(signals)[slot], signals[slot], now, old(signals)[slot].launchAt)
      ensures slot in c.owned && !old(records)[slot].live ==> signals == old(signals)
    {
      hide AllOk, TickOk, Bump, SignalsOk, PlanLaunch, AllCovered, FreshWrites, Spaced, Wished, Begun;
      TimeMoves(now);
      if slot !in c.owned { return None; }
      if records[slot].live { Forget(slot, now); }
      plan := PlanLaunch(records[slot], usage);
      PlanNotHalted(records[slot], usage);
      if plan == None || !commandOk {
        pending := pending - {slot};
        plan := None;
      } else {
        pending := pending[slot := plan.value];
      }
    }

    /** The slot was spawned. Without a plan waiting, or halted, it is not managed and nothing is concluded. That is
        harmless if and only if a plan was waiting, or the record was not live, or its epoch began just now: then only
        the new process's screen will be relied on. */
    method OnLaunched(slot: Slot, now: int)
      requires Valid() && now >= clock
      modifies this`records, this`signals, this`pending, this`clock, this`since, this`turns
      ensures Valid() && clock == now && records.Keys == old(records).Keys
      ensures !disposed && slot in c.owned && slot in old(pending) && !old(records)[slot].halted ==>
                && records == old(records)[slot := MarkLaunched(old(records)[slot], old(pending)[slot])]
                && slot in old(signals) && Begun(old(signals)[slot], signals[slot], now, now)
      ensures disposed || slot !in c.owned || slot !in old(pending) || old(records)[slot].halted ==>
                records == old(records) && signals == old(signals)
      ensures disposed || slot !in c.owned ==> since == old(since) && turns == old(turns) && pending == old(pending)
      ensures !disposed && slot in c.owned ==> pending == old(pending) - {slot}
      ensures !disposed && slot in c.owned ==> since == old(since)[slot := now] && turns == OneMore(old(turns), slot)
      ensures old(Orderly()) ==>
                (Orderly() <==>
                 disposed || slot !in c.owned || slot in old(pending) || !old(records)[slot].live
                 || old(signals)[slot].epochAt == now)
    {
      hide AllOk, TickOk, SignalsOk, AllCovered, FreshWrites, Spaced, Wished, MarkLaunched, OneMore, Begun;
      TimeMoves(now);
      if disposed || slot !in c.owned { return; }
      Owned(signals, writes, clock, c, slot);
      if slot !in pending || records[slot].halted {
        Turn(slot, now);
        pending := pending - {slot};
      } else {
        LaunchPlanned(slot, now);
      }
    }

    /** The process of a waiting plan is there: a new epoch begins with the plan's record. */
    method LaunchPlanned(slot: Slot, now: int)
      requires Valid() && now == clock && slot in c.owned && slot in pending && slot in signals && slot in records
      modifies this`records, this`signals, this`pending, this`since, this`turns
      ensures Valid() && pending == old(pending) - {slot} && since == old(since)[slot := now]
              && turns == OneMore(old(turns), slot)
      ensures records == old(records)[slot := MarkLaunched(old(records)[slot], old(pending)[slot])]
      ensures Begun(old(signals)[slot], signals[slot], now, now)
      ensures old(Orderly()) ==> Orderly()
    {
      hide AllOk, TickOk, SignalsOk, AllCovered, FreshWrites, Spaced, Wished, MarkLaunched, OneMore, NewEpoch, Begun,
           Wish, AllKnown, NoneLive;
      LaunchKnown(records, since, turns, pending, c, slot, MarkLaunched(records[slot], pending[slot]), now);
      var r, s := MarkLaunched(records[slot], pending[slot]), NewEpoch(signals[slot], now);
      EpochBegins(signals[slot], now);
      Launched(tick, signals, writes, clock, c, slot);
      LaunchCovered(records, signals, since, c, slot, pending[slot], s, now);
      SpacedLaunch(writes, turns, records, signals, c, slot, r, s);
      LaunchKeepsWish(records[slot], pending[slot]);
      WishedOne(records, wishes, c, slot, r);
      records, signals := records[slot := r], signals[slot := s];
      since, turns, pending := since[slot := now], OneMore(turns, slot), pending - {slot};
    }

    /** The slot's process exited, or something else was launched in it. */
    method ResetSlot(slot: Slot, now: int)
      requires Valid() && now >= clock
      modifies this`records, this`signals, this`pending, this`clock, this`since, this`turns
      ensures Valid() && clock == now && (old(Orderly()) ==> Orderly())
      ensures NoneStarted(old(records), records)
      ensures disposed || slot !in c.owned ==>
                since == old(since) && turns == old(turns) && records == old(records) && pending == old(pending)
      ensures !disposed && slot in c.owned ==>
                records == old(records)[slot := MarkExited(old(records)[slot])] && pending == old(pending) - {slot}
      ensures !disposed && slot in c.owned ==>
                && !records[slot].live && signals[slot].epochAt == now && slot !in pending
                && slot in old(signals) && Begun(old(signals)[slot], signals[slot], now, old(signals)[slot].launchAt)
                && since == old(since)[slot := now] && turns == OneMore(old(turns), slot)
    {
      hide AllOk, TickOk, SignalsOk, AllCovered, FreshWrites, Spaced, Wished, OneMore, Bump, Begun;
      TimeMoves(now);
      if disposed || slot !in c.owned { return; }
      Forget(slot, now);
      Turn(slot, now);
      pending := pending - {slot};
    }

    method NoteUserInput(slot: Slot, now: int)
      requires Valid() && now >= clock
      modifies this`signals, this`clock
      ensures Valid() && clock == now && (old(Orderly()) ==> Orderly())
      ensures if slot in c.owned
              then slot in old(signals) && signals == old(signals)[slot := old(signals)[slot].(lastInput := Some(now))]
              else signals == old(signals)
    {
      hide AllOk, TickOk, SignalsOk, AllCovered, FreshWrites, Spaced, Wished;
      TimeMoves(now);
      if slot in c.owned {
        Owned(signals, writes, clock, c, slot);
        SignalsChange(records, signals, since, c, slot, signals[slot].(lastInput := Some(now)));
        SpacedSignals(writes, turns, records, signals, c, slot, signals[slot].(lastInput := Some(now)));
        Noted(signals, writes, clock, c, slot, signals[slot].(lastInput := Some(now)));
        TickStays(tick, signals, clock, c, slot, signals[slot].(lastInput := Some(now)));
        signals := signals[slot := signals[slot].(lastInput := Some(now))];
      }
    }

    method NoteOutput(slot: Slot, now: int)
      requires Valid() && now >= clock
      modifies this`signals, this`clock
      ensures Valid() && clock == now && (old(Orderly()) ==> Orderly())
      ensures if slot in c.owned
              then slot in old(signals) && signals == old(signals)[slot := old(signals)[slot].(lastOutput := Some(now))]
              else signals == old(signals)
    {
      hide AllOk, TickOk, SignalsOk, AllCovered, FreshWrites, Spaced, Wished;
      TimeMoves(now);
      if slot in c.owned {
        Owned(signals, writes, clock, c, slot);
        SignalsChange(records, signals, since, c, slot, signals[slot].(lastOutput := Some(now)));
        SpacedSignals(writes, turns, records, signals, c, slot, signals[slot].(lastOutput := Some(now)));
        Noted(signals, writes, clock, c, slot, signals[slot].(lastOutput := Some(now)));
        TickStays(tick, signals, clock, c, slot, signals[slot].(lastOutput := Some(now)));
        signals := signals[slot := signals[slot].(lastOutput := Some(now))];
      }
    }

    /** Begins the next screen read of the tick, or ends it. */
    method NextRead(rest: seq<Slot>, now: int)
      requires Valid() && now == clock && forall s | s in rest :: s in c.owned
      modifies this`tick
      ensures Valid() && (disposed ==> tick == None)
      ensures ReadsNext(tick, rest, disposed, records, signals, now)
      ensures old(Orderly()) ==> Orderly()
    {
      hide AllOk, SignalsOk, AllCovered, FreshWrites, Spaced, Wished;
      tick := None;
      if disposed { return; }
      var i := 0;
      while i < |rest|
        invariant 0 <= i <= |rest| && tick == None
        invariant forall j | 0 <= j < i :: !HasPendingQueue(records[rest[j]])
      {
        var slot := rest[i];
        assert slot in rest;
        if HasPendingQueue(records[slot]) {
          Owned(signals, writes, clock, c, slot);
          OwnedOk(signals, writes, clock, c, slot);
          var s := signals[slot];
          tick := Some(Tick(slot, now, s.epoch, rest[i + 1..]));
          return;
        }
        i := i + 1;
      }
    }

    /** One tick at a time. */
    method TickStart(now: int)
      requires Valid() && now >= clock
      modifies this`tick, this`clock
      ensures Valid() && clock == now && (old(Orderly()) ==> Orderly())
      ensures if disposed || old(tick).Some? then tick == old(tick)
              else ReadsNext(tick, c.owned, disposed, records, signals, now)
    {
      hide AllOk, TickOk, AllCovered, FreshWrites, Spaced, Wished, ReadsNext;
      TimeMoves(now);
      if disposed || tick.Some? { return; }
      NextRead(c.owned, now);
    }

    /** The awaited reading arrives. If the slot entered a new epoch meanwhile it is dropped; a shell where a
        thread should be demotes the record; otherwise the engine may write once. */
    method ReadDone(reading: Reading, usage: Usage, portOk: bool, now: int)
      requires Valid() && tick.Some? && now >= clock
      modifies this`records, this`signals, this`writes, this`tick, this`clock
      ensures Valid() && clock == now && (old(Orderly()) ==> Orderly())
      ensures NoneStarted(old(records), records)
      ensures old(tick).value.slot in old(records) && old(tick).value.slot in records
              && old(tick).value.slot in old(signals)
      ensures LogsStart(old(writes), writes, since, turns, old(tick).value.slot)
      ensures OneWrite(old(writes), writes, old(tick).value.slot, old(records)[old(tick).value.slot],
                       records[old(tick).value.slot],
                       old(signals)[old(tick).value.slot], now, c)
      ensures old(disposed) || old(signals)[old(tick).value.slot].epoch != old(tick).value.epoch ==>
                writes == old(writes) && records == old(records)
      ensures writes != old(writes) <==>
                && !old(disposed) && old(signals)[old(tick).value.slot].epoch == old(tick).value.epoch
                && Due(old(records)[old(tick).value.slot], old(signals)[old(tick).value.slot], old(tick).value, reading,
                       usage, portOk, now, c)
      ensures !old(disposed) && old(signals)[old(tick).value.slot].epoch == old(tick).value.epoch ==>
                (records[old(tick).value.slot].live <==>
                 old(records)[old(tick).value.slot].live
                 && !Gone(old(signals)[old(tick).value.slot], old(tick).value, reading, now, c))
      ensures ReadsNext(tick, old(tick).value.rest, disposed, records, signals, now)
      ensures !old(disposed) && old(signals)[old(tick).value.slot].epoch == old(tick).value.epoch
              && !Gone(old(signals)[old(tick).value.slot], old(tick).value, reading, now, c) ==>
                Checked(old(records)[old(tick).value.slot], usage, EffortLogged(old(writes), writes),
                        records[old(tick).value.slot])
      ensures forall s | s in records && s != old(tick).value.slot :: records[s] == old(records)[s]
    {
      hide AllOk, TickOk, SignalsOk, OneWrite, AllCovered, FreshWrites, Spaced, Wished, Due, Gone, ReadsNext, Checked,
           EffortLogged, MarkExited;
      var t := tick.value;
      TickSlot(t, signals, clock, c);
      NoWrite(writes, t.slot, records[t.slot], records[t.slot], signals[t.slot], now, c);
      TimeMoves(now);
      if !disposed && signals[t.slot].epoch == t.epoch { Judge(t, reading, usage, portOk, now); }
      NextRead(t.rest, now);
    }

    /** A reading of the current epoch. */
    method Judge(t: Tick, reading: Reading, usage: Usage, portOk: bool, now: int)
      requires Valid() && now == clock && tick == Some(t) && t.slot in c.owned && t.slot in signals
               && signals[t.slot].epoch == t.epoch
      modifies this`records, this`signals, this`writes
      ensures Valid() && t.slot in records && (old(Orderly()) ==> Orderly()) && NoneStarted(old(records), records)
      ensures OneWrite(old(writes), writes, t.slot, old(records)[t.slot], records[t.slot], old(signals)[t.slot], now, c)
      ensures writes != old(writes) <==>
                Due(old(records)[t.slot], old(signals)[t.slot], t, reading, usage, portOk, now, c)
      ensures LogsStart(old(writes), writes, since, turns, t.slot)
      ensures if Gone(old(signals)[t.slot], t, reading, now, c)
              then t.slot in signals && Begun(old(signals)[t.slot], signals[t.slot], now, old(signals)[t.slot].launchAt)
                   && records == old(records)[t.slot := MarkExited(old(records)[t.slot])] && !records[t.slot].live
              else records[t.slot].live == old(records)[t.slot].live
                   && Checked(old(records)[t.slot], usage, EffortLogged(old(writes), writes), records[t.slot])
      ensures forall s | s in records && s != t.slot :: records[s] == old(records)[s]
    {
      hide Checked, EffortLogged, AllOk, TickOk, SignalsOk, OneWrite, AllCovered, FreshWrites, Spaced, Wished, Due,
           SettledAt, Gone, Begun;
      var s := signals[t.slot];
      var read := s.(reading := Some(Stored(reading, t.startedAt, t.epoch)));
      ReadStored(t, signals, writes, clock, c, read);
      SignalsChange(records, signals, since, c, t.slot, read);
      SpacedSignals(writes, turns, records, signals, c, t.slot, read);
      NoWrite(writes, t.slot, records[t.slot], MarkExited(records[t.slot]), s, now, c);
      ShellNotDue(records[t.slot], s, t, usage, portOk, now, c);
      GoneIs(s, t, reading, now, c);
      BegunSince(s, read, now);
      signals := signals[t.slot := read];
      if reading == Shell && SettledAt(read, t.startedAt, c.quietMs) == SettledOk
         && now - read.launchAt >= c.launchGraceMs {
        Forget(t.slot, now);
        return;
      }
      Check(t, s, reading, usage, portOk, now);
    }

    /** The engine decides; `before` are the slot's signals without the new reading. */
    method Check(t: Tick, before: Signals, reading: Reading, usage: Usage, portOk: bool, now: int)
      requires Valid() && now == clock && tick == Some(t) && t.slot in c.owned && t.slot in signals
      requires signals[t.slot] == before.(reading := Some(Stored(reading, t.startedAt, t.epoch)))
               && before.epoch == t.epoch
      modifies this`records, this`signals, this`writes
      ensures Valid() && t.slot in records && (old(Orderly()) ==> Orderly()) && NoneStarted(old(records), records)
      ensures OneWrite(old(writes), writes, t.slot, old(records)[t.slot], records[t.slot], before, now, c)
      ensures writes != old(writes) <==> Due(old(records)[t.slot], before, t, reading, usage, portOk, now, c)
      ensures LogsStart(old(writes), writes, since, turns, t.slot)
      ensures records[t.slot].live == old(records)[t.slot].live
      ensures Checked(old(records)[t.slot], usage, EffortLogged(old(writes), writes), records[t.slot])
      ensures records == old(records)[t.slot := records[t.slot]]
    {
      hide AllOk, TickOk, SignalsOk, OneWrite, AllCovered, FreshWrites, Spaced, Wished, IdleFor, WriteAllowed, Target,
           Wish, Checked;
      var r, read := records[t.slot], signals[t.slot];
      var idle := IdleFor(read, now, c);
      var next, written := OnIdleCheck(r, usage, now, read.lastWriteAt, c.minWriteGapMs, idle, portOk);
      CheckedKeeps(r, usage, written, next);
      if written == None {
        RecordChanges(records, signals, since, c, t.slot, next);
        WishedOne(records, wishes, c, t.slot, next);
        SpacedRecord(writes, turns, records, signals, c, t.slot, next);
        NoWrite(writes, t.slot, r, next, before, now, c);
        records := records[t.slot := next];
        return;
      }
      Written(t, before, reading, next, written.value, idle, now);
    }

    /** The effort was written: that is noted, and the record says what runs now. */
    method Written(t: Tick, ghost before: Signals, ghost reading: Reading, next: Rec, effort: Effort, idle: Reading,
                   now: int)
      requires Valid() && now == clock && tick == Some(t) && t.slot in c.owned && t.slot in signals
      requires signals[t.slot] == before.(reading := Some(Stored(reading, t.startedAt, t.epoch)))
               && before.epoch == t.epoch
      requires idle == IdleFor(signals[t.slot], now, c)
      requires WriteAllowed(records[t.slot], effort, now, signals[t.slot].lastWriteAt, c.minWriteGapMs, idle)
      requires next.queue == None && next.launched == Some(Base(records[t.slot]).(effort := effort))
      requires Wish(next) == Wish(records[t.slot]) && next.live == records[t.slot].live
      modifies this`records, this`signals, this`writes
      ensures Valid() && t.slot in records && (old(Orderly()) ==> Orderly()) && NoneStarted(old(records), records)
      ensures OneWrite(old(writes), writes, t.slot, old(records)[t.slot], records[t.slot], before, now, c)
      ensures writes != old(writes) && LogsStart(old(writes), writes, since, turns, t.slot)
      ensures EffortLogged(old(writes), writes) == Some(effort) && records == old(records)[t.slot := next]
    {
      hide AllOk, TickOk, SignalsOk, OneWrite, AllCovered, FreshWrites, Spaced, Wished, IdleFor, WriteAllowed, Wish;
      var r, read := records[t.slot], signals[t.slot];
      ghost var w := Write(t.slot, effort, now, t.startedAt, idle, before.epoch, before.epochAt, since[t.slot],
                           turns[t.slot]);
      AllowedLive(signals, writes, clock, c, t.slot, r, effort, now, idle);
      RecordChanges(records, signals, since, c, t.slot, next);
      WishedOne(records, wishes, c, t.slot, next);
      SpacedWrite(writes, turns, records, signals, c, w, next, read.(lastWriteAt := Some(now)));
      WriteCovered(records, signals, since, writes, c, t, clock, r, effort, now, idle);
      if FreshWrites(writes) && w.since <= w.readAt { FreshGrows(writes, w); }
      WriteLogged(t, signals, writes, clock, c, w, read, r, next, before, reading);
      SignalsChange(records[t.slot := next], signals, since, c, t.slot, read.(lastWriteAt := Some(now)));
      records, signals, writes :=
        records[t.slot := next], signals[t.slot := read.(lastWriteAt := Some(now))], writes + [w];
    }

    /** Nothing is read or written after disposal, and no reading is kept. */
    method Dispose(now: int)
      requires Valid() && now >= clock
      modifies this`disposed, this`signals, this`clock
      ensures Valid() && disposed && clock == now && (old(Orderly()) ==> Orderly())
      ensures if old(disposed) then signals == old(signals)
              else forall s | s in c.owned :: s in signals && signals[s].reading == None
    {
      hide AllOk, TickOk, AllCovered, FreshWrites, Spaced, Wished;
      TimeMoves(now);
      if disposed { return; }
      disposed := true;
      var i := 0;
      while i < |c.owned|
        invariant 0 <= i <= |c.owned| && Valid() && disposed && clock == now && (old(Orderly()) ==> Orderly())
        invariant forall j | 0 <= j < i :: c.owned[j] in signals && signals[c.owned[j]].reading == None
      {
        NextEpoch(c.owned[i], now);
        i := i + 1;
      }
    }

    /** The slot's epoch ends, its record stays. */
    method NextEpoch(slot: Slot, now: int)
      requires Valid() && now == clock && slot in c.owned
      modifies this`signals
      ensures Valid() && (old(Orderly()) ==> Orderly())
      ensures slot in old(signals) && signals == old(signals)[slot := Bump(old(signals)[slot], now)]
    {
      hide AllOk, TickOk, AllCovered, FreshWrites, Spaced, Wished, SignalsOk;
      Owned(signals, writes, clock, c, slot);
      OwnedOk(signals, writes, clock, c, slot);
      var s := Bump(signals[slot], now);
      Bumped(signals, writes, clock, c, slot, s);
      TickStays(tick, signals, clock, c, slot, s);
      SignalsChange(records, signals, since, c, slot, s);
      SpacedSignals(writes, turns, records, signals, c, slot, s);
      signals := signals[slot := s];
    }
  }

  // ---- one lemma per step ----

  /** At the start nothing runs. */
  lemma Begins(given: map<Slot, Rec>, now: int, c: Config, records: map<Slot, Rec>, signals: map<Slot, Signals>,
               since: map<Slot, int>, turns: map<Slot, nat>, wishes: map<Slot, Pick>)
    requires forall s | s in c.owned :: s in given
    requires records.Keys == signals.Keys == since.Keys == turns.Keys == wishes.Keys == given.Keys
    requires forall s | s in given :: signals[s] == QuietStart(now) && wishes[s] == Wish(given[s])
    requires forall s | s in c.owned :: records[s] == MarkExited(given[s])
    ensures AllOk(signals, [], now, c) && AllCovered(records, signals, since, c) && FreshWrites([])
    ensures Spaced([], turns, records, signals, c) && Wished(records, wishes, c)
    ensures forall s | s in c.owned :: !records[s].live
  {
    forall s | s in c.owned
      ensures !records[s].live && Wish(records[s]) == Wish(given[s])
    {
      ExitKeepsWish(given[s]);
    }
  }

  /** No record became live. */
  ghost predicate NoneStarted(before: map<Slot, Rec>, after: map<Slot, Rec>) {
    after.Keys == before.Keys && forall s | s in before && after[s].live :: before[s].live
  }

  /** A record changes, but not to live. */
  lemma RecordChanges(records: map<Slot, Rec>, signals: map<Slot, Signals>, since: map<Slot, int>, c: Config,
                      slot: Slot, r: Rec)
    requires slot in records && (r.live ==> records[slot].live)
    ensures AllCovered(records, signals, since, c) ==> AllCovered(records[slot := r], signals, since, c)
  {
    if AllCovered(records, signals, since, c) {
      forall k | k in c.owned
        ensures Covered(records[slot := r], signals, since, k)
      {
        assert Covered(records, signals, since, k);
      }
    }
  }

  /** Signals change within an epoch, or a later one begins. */
  lemma SignalsChange(records: map<Slot, Rec>, signals: map<Slot, Signals>, since: map<Slot, int>, c: Config,
                      slot: Slot, s: Signals)
    requires slot in signals && s.epochAt >= signals[slot].epochAt
    ensures AllCovered(records, signals, since, c) ==> AllCovered(records, signals[slot := s], since, c)
  {
    if AllCovered(records, signals, since, c) {
      forall k | k in c.owned
        ensures Covered(records, signals[slot := s], since, k)
      {
        assert Covered(records, signals, since, k);
      }
    }
  }

  lemma ExitCovered(records: map<Slot, Rec>, signals: map<Slot, Signals>, since: map<Slot, int>, c: Config, slot: Slot,
                    s: Signals)
    requires slot in records && slot in since
    ensures AllCovered(records, signals, since, c) ==>
              AllCovered(records[slot := MarkExited(records[slot])], signals[slot := s], since, c)
  {
    if AllCovered(records, signals, since, c) {
      var r := MarkExited(records[slot]);
      assert !r.live;
      assert since[slot := since[slot]] == since;
      CoveredOne(records, signals, since, c, slot, r, s, since[slot]);
    }
  }

  lemma LaunchCovered(records: map<Slot, Rec>, signals: map<Slot, Signals>, since: map<Slot, int>, c: Config,
                      slot: Slot, plan: Plan, s: Signals, now: int)
    requires s.epochAt == now
    ensures AllCovered(records, signals, since, c) && slot in records ==>
              AllCovered(records[slot := MarkLaunched(records[slot], plan)], signals[slot := s], since[slot := now], c)
  {
    hide AllCovered, MarkLaunched;
    if AllCovered(records, signals, since, c) && slot in records {
      CoveredOne(records, signals, since, c, slot, MarkLaunched(records[slot], plan), s, now);
    }
  }

  /** A start that changes nothing is covered exactly if no live record claims the new process. */
  lemma UnplannedCovered(records: map<Slot, Rec>, signals: map<Slot, Signals>, since: map<Slot, int>, c: Config,
                         slot: Slot, now: int)
    requires slot in c.owned && slot in records && slot in signals && signals[slot].epochAt <= now
    ensures AllCovered(records, signals, since, c) ==>
              (AllCovered(records, signals, since[slot := now], c) <==>
               !records[slot].live || signals[slot].epochAt == now)
  {
    if AllCovered(records, signals, since, c) {
      forall k | k in c.owned
        ensures Covered(records, signals, since[slot := now], k) <==>
                  k != slot || !records[slot].live || signals[slot].epochAt == now
      {
        assert Covered(records, signals, since, k);
      }
    }
  }

  /** An allowed write relies on a reading begun after the slot's latest start or exit. */
  lemma WriteCovered(records: map<Slot, Rec>, signals: map<Slot, Signals>, since: map<Slot, int>, writes: seq<Write>,
                     c: Config, t: Tick, clock: int, r: Rec, effort: Effort, now: int, reading: Reading)
    requires t.slot in c.owned && t.slot in signals && t.slot in records && t.slot in since
    requires TickOk(t, signals, clock, c) && signals[t.slot].epoch == t.epoch
    requires WriteAllowed(r, effort, now, signals[t.slot].lastWriteAt, c.minWriteGapMs, reading)
             && records[t.slot].live == r.live
    ensures AllCovered(records, signals, since, c) ==> since[t.slot] <= t.startedAt
  {
    if AllCovered(records, signals, since, c) { assert Covered(records, signals, since, t.slot); }
  }

  /** The read began while its slot was in the epoch noted, and not before that epoch did. */
  ghost predicate TickOk(t: Tick, signals: map<Slot, Signals>, clock: int, c: Config) {
    && t.slot in c.owned && t.slot in signals && t.startedAt <= clock && (forall s | s in t.rest :: s in c.owned)
    && t.epoch <= signals[t.slot].epoch
    && (t.epoch == signals[t.slot].epoch ==> signals[t.slot].epochAt <= t.startedAt)
  }

  lemma TickLater(t: Tick, signals: map<Slot, Signals>, clock: int, now: int, c: Config)
    requires TickOk(t, signals, clock, c) && clock <= now
    ensures TickOk(t, signals, now, c)
  {
  }

  lemma TickSlot(t: Tick, signals: map<Slot, Signals>, clock: int, c: Config)
    requires TickOk(t, signals, clock, c)
    ensures t.slot in c.owned && t.slot in signals && forall s | s in t.rest :: s in c.owned
  {
  }

  lemma TickStays(tick: Option<Tick>, signals: map<Slot, Signals>, clock: int, c: Config, slot: Slot, s: Signals)
    requires tick.Some? ==> TickOk(tick.value, signals, clock, c)
    requires slot in signals
             && (s.epoch > signals[slot].epoch || (s.epoch, s.epochAt) == (signals[slot].epoch, signals[slot].epochAt))
    ensures tick.Some? ==> TickOk(tick.value, signals[slot := s], clock, c)
  {
  }

  lemma Owned(signals: map<Slot, Signals>, writes: seq<Write>, clock: int, c: Config, slot: Slot)
    requires AllOk(signals, writes, clock, c) && slot in c.owned
    ensures slot in signals
  {
  }

  lemma OwnedOk(signals: map<Slot, Signals>, writes: seq<Write>, clock: int, c: Config, slot: Slot)
    requires AllOk(signals, writes, clock, c) && slot in signals
    ensures SignalsOk(signals[slot], clock) && signals[slot].epochAt <= clock
  {
  }

  lemma Bumped(signals: map<Slot, Signals>, writes: seq<Write>, clock: int, c: Config, slot: Slot, s: Signals)
    requires AllOk(signals, writes, clock, c) && slot in signals && s.epoch > signals[slot].epoch && s.epochAt == clock
    requires s.reading == None && (s.lastWriteAt == None || s.lastWriteAt == signals[slot].lastWriteAt)
    ensures AllOk(signals[slot := s], writes, clock, c)
  {
    assert SignalsOk(signals[slot], clock);
    assert GapKnown(writes, slot, signals[slot]);
    OneChanged(signals, writes, clock, c, slot, s);
  }

  lemma Launched(tick: Option<Tick>, signals: map<Slot, Signals>, writes: seq<Write>, clock: int, c: Config, slot: Slot)
    requires AllOk(signals, writes, clock, c) && slot in signals
    requires tick.Some? ==> TickOk(tick.value, signals, clock, c)
    ensures AllOk(signals[slot := NewEpoch(signals[slot], clock)], writes, clock, c)
    ensures tick.Some? ==> TickOk(tick.value, signals[slot := NewEpoch(signals[slot], clock)], clock, c)
  {
    hide AllOk, TickOk;
    Bumped(signals, writes, clock, c, slot, NewEpoch(signals[slot], clock));
    TickStays(tick, signals, clock, c, slot, NewEpoch(signals[slot], clock));
  }

  /** A note about input or output changes nothing that was concluded. */
  lemma Noted(signals: map<Slot, Signals>, writes: seq<Write>, clock: int, c: Config, slot: Slot, s: Signals)
    requires AllOk(signals, writes, clock, c) && slot in signals
    requires s == signals[slot].(lastInput := s.lastInput, lastOutput := s.lastOutput)
    ensures AllOk(signals[slot := s], writes, clock, c)
  {
    assert GapKnown(writes, slot, signals[slot]);
    OneChanged(signals, writes, clock, c, slot, s);
  }

  lemma ReadStored(t: Tick, signals: map<Slot, Signals>, writes: seq<Write>, clock: int, c: Config, s: Signals)
    requires AllOk(signals, writes, clock, c) && TickOk(t, signals, clock, c) && signals[t.slot].epoch == t.epoch
    requires s.reading.Some? && s == signals[t.slot].(reading := s.reading) && s.reading.value.startedAt == t.startedAt
             && s.reading.value.epoch == t.epoch
    ensures AllOk(signals[t.slot := s], writes, clock, c) && TickOk(t, signals[t.slot := s], clock, c)
  {
    assert GapKnown(writes, t.slot, signals[t.slot]);
    OneChanged(signals, writes, clock, c, t.slot, s);
  }

  /** Only a live record writes, and only the gap after the last write known. */
  lemma AllowedLive(signals: map<Slot, Signals>, writes: seq<Write>, clock: int, c: Config, slot: Slot, r: Rec,
                    effort: Effort, now: int, reading: Reading)
    requires AllOk(signals, writes, clock, c) && slot in signals && clock == now
    requires WriteAllowed(r, effort, now, signals[slot].lastWriteAt, c.minWriteGapMs, reading)
    ensures r.live
    ensures var last := signals[slot].lastWriteAt;
            last.Some? ==> last.value <= now && now - last.value >= c.minWriteGapMs
  {
  }

  /** What a launch would run is the wish, as far as the budget lets whoever made it; a halted record launches
      nothing. */
  lemma PlanIsWish(r: Rec, usage: Usage)
    ensures var waits := r.modelPending.Some? || (r.queue.Some? && r.queue.value.trigger != ByBudget);
            var owner := if waits && r.pendingSource.Some? then r.pendingSource.value else r.source;
            var (run, level) := ApplyBudget(Wish(r), usage, owner, r.lastBudgetLevel);
            && (PlanLaunch(r, usage).Some? <==> !r.halted && Launchable(run.effort))
            && (PlanLaunch(r, usage).Some? ==> PlanLaunch(r, usage).value == Plan(run.model, run.effort, level))
            && (owner == Manual ==> run == Wish(r))
  {
  }

  lemma PlanNotHalted(r: Rec, usage: Usage)
    ensures PlanLaunch(r, usage).Some? ==> !r.halted && Launchable(PlanLaunch(r, usage).value.effort)
  {
  }

  lemma NoWrite(writes: seq<Write>, slot: Slot, r: Rec, next: Rec, s: Signals, now: int, c: Config)
    ensures OneWrite(writes, writes, slot, r, next, s, now, c)
  {
  }

  lemma WriteLogged(t: Tick, signals: map<Slot, Signals>, writes: seq<Write>, clock: int, c: Config, w: Write,
                    read: Signals, r: Rec, next: Rec, before: Signals, reading: Reading)
    requires AllOk(signals, writes, clock, c) && TickOk(t, signals, clock, c) && !t.slot.Unowned?
    requires read == before.(reading := Some(Stored(reading, t.startedAt, t.epoch))) && signals[t.slot] == read
             && read.epoch == t.epoch
    requires w == Write(t.slot, w.effort, clock, t.startedAt, IdleFor(read, clock, c), before.epoch, before.epochAt,
                        w.since, w.turns)
    requires WriteAllowed(r, w.effort, clock, read.lastWriteAt, c.minWriteGapMs, w.reading)
    requires next.queue == None && next.launched == Some(Base(r).(effort := w.effort))
    ensures AllOk(signals[t.slot := read.(lastWriteAt := Some(clock))], writes + [w], clock, c)
    ensures TickOk(t, signals[t.slot := read.(lastWriteAt := Some(clock))], clock, c)
    ensures OneWrite(writes, writes + [w], t.slot, r, next, before, clock, c)
  {
    ReadingRests(read, clock, c, IdleFor(read, clock, c));
    assert GapKnown(writes, t.slot, read);
    LogGrows(writes, w, read, c);
    hide IdleFor, LogOk;
    Logged(signals, writes, clock, c, w, read.(lastWriteAt := Some(clock)));
    assert (writes + [w])[..|writes|] == writes;
  }
}
