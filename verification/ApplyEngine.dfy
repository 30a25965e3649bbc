/** When a queued effort pick may be written to a running thread: the budget policy, the record of one thread
    and the engine's decision. */
module ApplyEngine {
  import opened Options

  datatype Model = Haiku | Sonnet | Opus
  /** An effort as stored; `Unlisted` is any name outside the launchable ones. */
  datatype Effort = Low | Medium | High | XHigh | MaxEffort | Unlisted(name: nat)
  datatype Pick = Pick(model: Model, effort: Effort)
  datatype Source = Auto | Manual
  datatype Trigger = ByBudget | ByOther
  datatype Level = NoLevel | StepLevel | FloorLevel
  datatype Usage = Usage(session: real, week: real)
  datatype Outcome = NoOutcome | Sent | Confirmed | NotApplied

  /** Position in the list of launchable efforts, -1 for any other. */
  function Rank(e: Effort): int {
    match e
    case Low => 0
    case Medium => 1
    case High => 2
    case XHigh => 3
    case MaxEffort => 4
    case Unlisted(_) => -1
  }

  predicate Launchable(e: Effort) { !e.Unlisted? }

  const LAUNCH_EFFORTS: seq<Effort> := [Low, Medium, High, XHigh, MaxEffort]

  /** An effort's rank is its place among those that can be launched, -1 if it is none of them. */
  lemma RankIs(e: Effort)
    ensures Launchable(e) <==> e in LAUNCH_EFFORTS
    ensures e !in LAUNCH_EFFORTS ==> Rank(e) == -1
    ensures forall i | 0 <= i < |LAUNCH_EFFORTS| :: Rank(LAUNCH_EFFORTS[i]) == i
  {
    if Launchable(e) { assert LAUNCH_EFFORTS[Rank(e)] == e; }
  }

  // ---- the budget ----

  const HYSTERESIS := 5.0
  const STEP_SESSION := 70.0
  const STEP_WEEK := 75.0
  const FLOOR := 90.0

  function LevelFor(u: Usage, prev: Level): Level {
    if u.session >= FLOOR || u.week >= FLOOR then FloorLevel
    else if prev == FloorLevel && (u.session >= FLOOR - HYSTERESIS || u.week >= FLOOR - HYSTERESIS) then FloorLevel
    else if u.session >= STEP_SESSION || u.week >= STEP_WEEK then StepLevel
    else if prev != NoLevel && (u.session >= STEP_SESSION - HYSTERESIS || u.week >= STEP_WEEK - HYSTERESIS)
         then StepLevel
    else NoLevel
  }

  /** The rungs a budget step goes down. */
  function StepDown(p: Pick): Pick {
    if p == Pick(Sonnet, Medium) then Pick(Haiku, Low)
    else if p == Pick(Sonnet, High) then Pick(Sonnet, Medium)
    else if p == Pick(Opus, High) then Pick(Sonnet, High)
    else p
  }

  function ApplyBudget(p: Pick, u: Usage, source: Source, prev: Level): (Pick, Level) {
    var level := LevelFor(u, prev);
    if source == Manual then (p, NoLevel)
    else if level == NoLevel then (p, level)
    else if level == FloorLevel then (Pick(Haiku, Low), level)
    else (StepDown(p), level)
  }

  /** The budget never raises an effort, leaves a manual pick alone, and once a level is reached keeps it until
      usage falls five points below its threshold. */
  lemma BudgetOnlyLowers(p: Pick, u: Usage, source: Source, prev: Level)
    ensures var (q, level) := ApplyBudget(p, u, source, prev);
            && (Launchable(p.effort) ==> Launchable(q.effort) && Rank(q.effort) <= Rank(p.effort))
            && (source == Manual ==> q == p)
            && (source == Auto && prev == FloorLevel && level != FloorLevel ==>
                u.session < FLOOR - HYSTERESIS && u.week < FLOOR - HYSTERESIS)
            && (source == Auto && prev != NoLevel && level == NoLevel ==>
                u.session < STEP_SESSION - HYSTERESIS && u.week < STEP_WEEK - HYSTERESIS)
  {
  }

  lemma BudgetLevel(p: Pick, u: Usage, source: Source, prev: Level)
    ensures var (q, level) := ApplyBudget(p, u, source, prev);
            if source == Manual then q == p else level == LevelFor(u, prev)
  {
  }

  function LevelRank(level: Level): nat {
    match level
    case NoLevel => 0
    case StepLevel => 1
    case FloorLevel => 2
  }

  /** Without a past the level is the usage's own: the floor from 90, a step from 70 of the session or 75 of the week.
      A level once reached is kept as long as five points more would reach it. */
  lemma LevelKept(u: Usage, prev: Level)
    ensures LevelFor(u, NoLevel).FloorLevel? <==> u.session >= 90.0 || u.week >= 90.0
    ensures LevelFor(u, NoLevel).NoLevel? <==> u.session < 70.0 && u.week < 75.0
    ensures var plain, kept := LevelFor(u, NoLevel), LevelFor(Usage(u.session + 5.0, u.week + 5.0), NoLevel);
            LevelFor(u, prev) == if LevelRank(prev) <= LevelRank(plain) then plain
                                 else if LevelRank(prev) <= LevelRank(kept) then prev else kept
  {
  }

  /** The rungs, the cheapest first. */
  const LADDER := [Pick(Haiku, Low), Pick(Sonnet, Medium), Pick(Sonnet, High), Pick(Opus, High)]

  /** A step goes down one rung; what is no rung, or the lowest, stays. The floor is the lowest rung. */
  lemma BudgetSteps(p: Pick, u: Usage, prev: Level)
    ensures var (q, level) := ApplyBudget(p, u, Auto, prev);
            && level == LevelFor(u, prev) && (level.NoLevel? ==> q == p) && (level.FloorLevel? ==> q == LADDER[0])
            && (level.StepLevel? ==>
                  && (forall i | 0 < i < |LADDER| && p == LADDER[i] :: q == LADDER[i - 1])
                  && (p !in LADDER || p == LADDER[0] ==> q == p))
    ensures ApplyBudget(p, u, Manual, prev) == (p, NoLevel)
  {
  }

  // ---- the record ----

  datatype Queued = Queued(pick: Pick, trigger: Trigger, source: Source)

  datatype Rec = Rec(live: bool, intended: Pick, launched: Option<Pick>, lastBudgetLevel: Level, pendingStepDown: bool,
                     source: Source, queue: Option<Queued>, modelPending: Option<Model>, pendingSource: Option<Source>,
                     halted: bool, outcome: Outcome)

  /** The running pick, as far as known. */
  function Base(r: Rec): Pick { if r.launched.Some? then r.launched.value else r.intended }

  /** What the record is to run in the end: what waits, or else what was intended. A queued budget step is no wish. */
  function Wish(r: Rec): Pick {
    Pick(if r.modelPending.Some? then r.modelPending.value else r.intended.model,
         if r.queue.Some? && r.queue.value.trigger != ByBudget then r.queue.value.pick.effort else r.intended.effort)
  }

  datatype Plan = Plan(model: Model, effort: Effort, budgetLevel: Level)

  function MarkLaunched(r: Rec, plan: Plan): Rec {
    var modelUsed := r.modelPending == Some(plan.model);
    var effortUsed := r.queue.Some? && r.queue.value.trigger != ByBudget && r.queue.value.pick.effort == plan.effort;
    var dropped := r.queue.Some? && r.queue.value.trigger == ByBudget;
    var queue := if dropped || effortUsed || r.queue == None then None
                 else Some(r.queue.value.(pick := r.queue.value.pick.(model := plan.model)));
    var modelPending := if modelUsed then None else r.modelPending;
    var intended :=
      Pick(if modelUsed then plan.model else r.intended.model, if effortUsed then plan.effort else r.intended.effort);
    r.(live := true, lastBudgetLevel := plan.budgetLevel, intended := intended,
       launched := Some(Pick(plan.model, plan.effort)),
       source := if (modelUsed || effortUsed) && r.pendingSource.Some? then r.pendingSource.value else r.source,
       queue := queue, modelPending := modelPending,
       pendingSource := if queue.Some? || modelPending.Some? then r.pendingSource else None,
       outcome := if queue.Some? || modelPending.Some? then NoOutcome else Sent,
       pendingStepDown := plan.budgetLevel != NoLevel)
  }

  /** The process is gone: queue, held model and halt stay. */
  function MarkExited(r: Rec): Rec {
    if !r.live && r.outcome != Sent then r
    else r.(live := false, outcome := if r.outcome == Sent then NoOutcome else r.outcome)
  }

  /** A launch changes no wish. What it runs waits no longer, everything else does, and a budget step is forgotten. */
  lemma LaunchKeepsWish(r: Rec, plan: Plan)
    ensures var u := MarkLaunched(r, plan);
            && Wish(u) == Wish(r) && u.live && u.launched == Some(Pick(plan.model, plan.effort)) && u.halted == r.halted
            && u.modelPending == (if r.modelPending == Some(plan.model) then None else r.modelPending)
            && (u.queue.Some? <==>
                r.queue.Some? && r.queue.value.trigger != ByBudget && r.queue.value.pick.effort != plan.effort)
            && (u.queue.Some? ==>
                u.queue.value == r.queue.value.(pick := Pick(plan.model, r.queue.value.pick.effort)))
            && u.pendingSource == (if u.queue.Some? || u.modelPending.Some? then r.pendingSource else None)
            && u.outcome == (if u.queue.Some? || u.modelPending.Some? then NoOutcome else Sent)
            && u.lastBudgetLevel == plan.budgetLevel && (u.pendingStepDown <==> plan.budgetLevel != NoLevel)
  {
  }

  /** A wish that a launch fulfils hands its source to the record. */
  lemma LaunchSource(r: Rec, plan: Plan)
    ensures var u := MarkLaunched(r, plan);
            var fulfilled := u.modelPending != r.modelPending
                             || (r.queue.Some? && r.queue.value.trigger != ByBudget && u.queue == None);
            u.source == if fulfilled && r.pendingSource.Some? then r.pendingSource.value else r.source
  {
  }

  /** An exit changes no wish, and a command sent is confirmed no more. */
  lemma ExitKeepsWish(r: Rec)
    ensures var u := MarkExited(r);
            && Wish(u) == Wish(r) && !u.live && u.outcome != Sent
            && u == r.(live := false, outcome := u.outcome) && (r.outcome != Sent ==> u.outcome == r.outcome)
            && (r.outcome == Sent ==> u.outcome == NoOutcome)
  {
  }

  predicate HasPendingQueue(r: Rec) { r.live && !r.halted && r.queue.Some? }

  predicate ManualOnly(e: Effort) { e == XHigh || e == MaxEffort }

  /** A submitted pick; `None` is a rejection. What differs from the running pick waits: the model until the
      next launch, the effort in the queue. */
  function SubmitPick(r: Rec, next: Pick, source: Source, trigger: Trigger): Option<Rec> {
    if source == Auto && (ManualOnly(next.effort) || r.pendingSource == Some(Manual)) then None
    else
      var budget := source == Auto && trigger == ByBudget;
      var base := Base(r);
      if !r.live && !r.halted then
        Some(if budget then r
             else r.(intended := next, source := source, queue := None, modelPending := None, pendingSource := None))
      else if budget then
        if r.source == Manual || r.pendingSource == Some(Manual) || r.modelPending.Some?
           || (r.queue.Some? && r.queue.value.trigger != ByBudget)
        then Some(r)
        else
          var queue :=
            if next.effort != base.effort then Some(Queued(Pick(base.model, next.effort), trigger, source)) else None;
          Some(r.(queue := queue, pendingSource := if queue.Some? then Some(source) else None,
                  outcome := if queue.Some? && r.outcome == Sent then NoOutcome else r.outcome))
      else
        var modelPending := if next.model != base.model then Some(next.model) else None;
        var queue :=
          if next.effort != base.effort then Some(Queued(Pick(base.model, next.effort), trigger, source)) else None;
        var intended := Pick(if modelPending == None then next.model else r.intended.model,
                             if queue == None then next.effort else r.intended.effort);
        Some(r.(intended := intended, queue := queue, modelPending := modelPending,
                pendingSource := if queue.Some? || modelPending.Some? then Some(source) else None,
                outcome := if (queue.Some? || modelPending.Some?) && r.outcome == Sent then NoOutcome else r.outcome,
                source := if source == Manual || intended != r.intended then source else r.source))
  }

  /** A submission never touches what is running, an automatic one never takes the place of a pending manual
      pick, a budget step is never taken for a wish, and what is queued always differs from what runs. */
  lemma SubmitRespects(r: Rec, next: Pick, source: Source, trigger: Trigger)
    ensures var u := SubmitPick(r, next, source, trigger);
            && (source == Auto && r.pendingSource == Some(Manual) ==> u == None)
            && (u.Some? ==>
                  && (u.value.live, u.value.halted, u.value.launched) == (r.live, r.halted, r.launched)
                  && (source == Auto && trigger == ByBudget ==> u.value.intended == r.intended)
                  && (source == Auto && trigger == ByBudget && r.source == Manual ==> u.value == r)
                  && (u.value.queue.Some? && u.value.queue != r.queue ==>
                      u.value.queue.value.pick.effort != Base(r).effort)
                  && (u.value.modelPending.Some? && u.value.modelPending != r.modelPending ==>
                      u.value.modelPending.value != Base(r).model))
  {
  }

  /** Only an automatic pick is rejected: one that only a user may make, or one against a pending pick of a user's. */
  lemma RejectedExactly(r: Rec, next: Pick, source: Source, trigger: Trigger)
    ensures SubmitPick(r, next, source, trigger) == None <==>
              source == Auto && (next.effort == XHigh || next.effort == MaxEffort || r.pendingSource == Some(Manual))
  {
  }

  /** An accepted pick becomes the wish. While something runs, what differs from the running pick waits, the model
      until the next launch and the effort in the queue, and nothing else does. */
  lemma PickIsWished(r: Rec, next: Pick, source: Source, trigger: Trigger)
    requires SubmitPick(r, next, source, trigger).Some? && !(source == Auto && trigger == ByBudget)
    ensures var u := SubmitPick(r, next, source, trigger).value;
            var runs, waits := r.live || r.halted, u.queue.Some? || u.modelPending.Some?;
            && (trigger != ByBudget ==> Wish(u) == next)
            && (u.queue.Some? <==> runs && next.effort != Base(r).effort)
            && (u.queue.Some? ==> u.queue.value == Queued(Pick(Base(r).model, next.effort), trigger, source))
            && (u.modelPending.Some? <==> runs && next.model != Base(r).model)
            && (u.modelPending.Some? ==> u.modelPending.value == next.model)
            && u.intended == Pick(if u.modelPending.Some? then r.intended.model else next.model,
                                  if u.queue.Some? then r.intended.effort else next.effort)
            && u.pendingSource == (if waits then Some(source) else None)
            && u.source == (if runs && source == Auto && u.intended == r.intended then r.source else source)
            && u.outcome == (if waits && r.outcome == Sent then NoOutcome else r.outcome)
            && (u.lastBudgetLevel, u.pendingStepDown) == (r.lastBudgetLevel, r.pendingStepDown)
  {
  }

  /** A budget step changes no wish. It waits, if it differs from what runs, only where nothing wished waits and no user
      picked; otherwise nothing changes. */
  lemma StepWaits(r: Rec, next: Pick)
    ensures var u := SubmitPick(r, next, Auto, ByBudget);
            var free := (r.live || r.halted) && r.source == Auto && r.modelPending == None
                        && (r.queue == None || r.queue.value.trigger == ByBudget);
            u.Some? ==>
              && Wish(u.value) == Wish(r) && (!free ==> u.value == r)
              && (free ==>
                    && u.value == r.(queue := u.value.queue, pendingSource := u.value.pendingSource,
                                     outcome := u.value.outcome)
                    && (u.value.queue.Some? <==> next.effort != Base(r).effort)
                    && (u.value.queue.Some? ==>
                        u.value.queue.value == Queued(Pick(Base(r).model, next.effort), ByBudget, Auto))
                    && u.value.pendingSource == (if u.value.queue.Some? then Some(Auto) else None)
                    && u.value.outcome == (if u.value.queue.Some? && r.outcome == Sent then NoOutcome else r.outcome))
  {
  }

  // ---- the decision ----

  datatype Reading = Idle | Generating | Busy | Picker | Modal | SwitchModelModal | Draft | Shell | NotKnown

  /** What a write requires of the record, the effort, the last write and the screen. */
  predicate WriteAllowed(r: Rec, effort: Effort, now: int, last: Option<int>, gap: int, reading: Reading) {
    && HasPendingQueue(r) && Launchable(effort) && effort != Base(r).effort
    && (last.Some? ==> now - last.value >= gap)
    && (reading == Idle
        || (reading == Generating && r.queue.value.trigger == ByBudget && Rank(effort) < Rank(Base(r).effort)))
  }

  /** The effort a queue comes to now: the wish's, a budget step's taken afresh from what was intended, after what the
      budget allows the running model. */
  function Target(r: Rec, usage: Usage): Effort
    requires r.queue.Some?
  {
    var q := r.queue.value;
    var wished := if q.trigger == ByBudget then r.intended.effort else q.pick.effort;
    ApplyBudget(Pick(Base(r).model, wished), usage, q.source, r.lastBudgetLevel).0.effort
  }

  /** What an idle check leaves of the record, an effort having been written or not. No wish changes; the queue is done
      with if its effort was written or runs already, and otherwise nothing changes. */
  ghost predicate Checked(r: Rec, usage: Usage, written: Option<Effort>, next: Rec) {
    && next.launched == (if written.Some? then Some(Base(r).(effort := written.value)) else r.launched)
    && Wish(next) == Wish(r) && (next.live, next.halted, next.modelPending) == (r.live, r.halted, r.modelPending)
    && if written.Some? || (HasPendingQueue(r) && Launchable(Base(r).effort) && Target(r, usage) == Base(r).effort) then
         r.queue.Some?
         && var q := r.queue.value;
            var wish := q.trigger != ByBudget;
            && next.queue == None
            && next.intended == (if wish then Pick(r.intended.model, q.pick.effort) else r.intended)
            && next.source == (if wish then q.source else r.source)
            && next.pendingSource == (if r.modelPending.Some? then r.pendingSource else None)
            && (q.source == Manual ==> next.lastBudgetLevel == r.lastBudgetLevel)
            && (q.source == Auto ==> next.lastBudgetLevel == LevelFor(usage, r.lastBudgetLevel))
            && next.outcome == (if written == None then r.outcome else if r.modelPending.Some? then NoOutcome else Sent)
            && next.pendingStepDown == (r.pendingStepDown || (written.Some? && !wish))
       else next == r
  }

  /** One idle check. `portOk`: the port accepts the write, should there be one. It writes the target exactly when it
      may, and then, or when the target runs already, the queue is done with. No wish changes. */
  method OnIdleCheck(r: Rec, usage: Usage, now: int, last: Option<int>, gap: int, reading: Reading, portOk: bool)
    returns (next: Rec, written: Option<Effort>)
    ensures written.Some? <==>
              portOk && HasPendingQueue(r) && WriteAllowed(r, Target(r, usage), now, last, gap, reading)
    ensures written.Some? ==> written.value == Target(r, usage)
    ensures written.Some? && r.queue.value.source == Manual && r.queue.value.trigger != ByBudget ==>
              written.value == r.queue.value.pick.effort
    ensures Checked(r, usage, written, next)
  {
    hide ApplyBudget, LevelFor, Rank, Launchable;
    next, written := r, None;
    if !r.live || r.halted || r.queue == None { return; }
    var q, base := r.queue.value, Base(r);
    var input := if q.trigger == ByBudget then r.intended.effort else q.pick.effort;
    var (pick, level) := ApplyBudget(Pick(base.model, input), usage, q.source, r.lastBudgetLevel);
    BudgetLevel(Pick(base.model, input), usage, q.source, r.lastBudgetLevel);
    var effort := pick.effort;
    var levelAfter := if q.source == Manual then r.lastBudgetLevel else level;
    if !Launchable(effort) { return; }
    var desire := q.trigger != ByBudget;
    var intended := if desire then r.intended.(effort := q.pick.effort) else r.intended;
    var consumed := r.(intended := intended, source := if desire then q.source else r.source, queue := None,
                       pendingSource := if r.modelPending.Some? then r.pendingSource else None,
                       lastBudgetLevel := levelAfter);
    if effort == base.effort {
      next := consumed;
      return;
    }
    var stepDown := Rank(effort) < Rank(base.effort);
    if last.Some? && now - last.value < gap { return; }
    var midTurnOk := reading == Generating && q.trigger == ByBudget && stepDown;
    if reading != Idle && !midTurnOk { return; }
    if !portOk { return; }
    written := Some(effort);
    next := consumed.(launched := Some(base.(effort := effort)),
                      outcome := if r.modelPending.Some? then NoOutcome else Sent,
                      pendingStepDown := r.pendingStepDown || q.trigger == ByBudget);
  }
}
