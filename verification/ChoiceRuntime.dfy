/** What the terminals' start and exit events tell the pick host. A start that no plan of ours waits for is reported as
    foreign, and that makes the host's promise about its readings hold over every run. */
module ChoiceRuntime {
  import opened Options
  import opened ApplyEngine
  import opened PickHost

  /** What the readback of a launch shows: nothing yet, the wanted pick, or another. */
  datatype Judged = Undecided | AsWanted | Otherwise

  /** The records after the first `n` of the budget's picks: each accepted one is submitted to its slot's record. */
  ghost function StepsTo(records: map<Slot, Rec>, picks: seq<(Slot, Pick)>, n: nat, owned: seq<Slot>): map<Slot, Rec>
    requires n <= |picks|
  {
    if n == 0 then records
    else
      var before, (slot, pick) := StepsTo(records, picks, n - 1, owned), picks[n - 1];
      if slot !in owned || slot !in before then before
      else
        var u := ApplyEngine.SubmitPick(before[slot], pick, Auto, ByBudget);
        if u.Some? then before[slot := u.value] else before
  }

  class ChoiceRuntime {
    const host: PickHost
    var planned: set<Slot>            // a launch command of ours is on its way
    var running: set<Slot>
    var disposed: bool

    /** Every write the host ever made relied on a reading begun after its slot's latest start or exit; and a slot that
        waits for a planned start has no live record. */
    ghost predicate Valid()
      reads this, host
    {
      && host.Valid() && host.Orderly() && host.disposed == disposed
      && forall s | s in planned ::
           s in host.c.owned && s in host.pending && s in host.records && !host.records[s].live
    }

    constructor (c: Config, records: map<Slot, Rec>, now: int)
      requires forall s | s in c.owned :: s in records && !s.Unowned?
      ensures Valid() && fresh(host) && host.c == c && planned == {} && !disposed
      ensures forall s | s in c.owned :: host.wishes[s] == Wish(records[s])
    {
      host := new PickHost(c, records, now);
      planned, running, disposed := {}, {}, false;
    }

    /** A process was started in the slot; it may be gone again already. Whatever the host knew, it now knows when. */
    method OnStart(slot: Slot, gone: bool, now: int)
      requires Valid() && now >= host.clock
      modifies this`planned, this`running, host
      ensures Valid() && host.writes == old(host.writes) && host.wishes == old(host.wishes)
      ensures !disposed && slot in host.c.owned ==>
                slot in host.since && host.since[slot] == now && host.turns == OneMore(old(host.turns), slot)
      ensures if disposed then planned == old(planned) && running == old(running) && host.records == old(host.records)
              else planned == old(planned) - {slot} && running == old(running) + (if gone then {} else {slot})
      ensures !disposed && slot in old(planned) && !old(host.records)[slot].halted ==>
                host.records ==
                old(host.records)[slot := MarkLaunched(old(host.records)[slot], old(host.pending)[slot])]
      ensures !disposed && slot in host.c.owned && (slot !in old(planned) || old(host.records)[slot].halted) ==>
                !host.records[slot].live
    {
      hide AllOk, TickOk, AllCovered, FreshWrites, Spaced, SignalsOk, Wished, MarkLaunched, MarkExited,
           PlanLaunch, OneWrite, OneMore;
      if disposed { return; }
      if !gone { running := running + {slot}; }
      if slot in planned {
        planned := planned - {slot};
        host.OnLaunched(slot, now);
      } else {
        host.ResetSlot(slot, now);
      }
    }

    /** The slot's process exited. A plan made while it was still running belongs to its replacement and is made
        again. */
    method OnExit(slot: Slot, usage: Usage, commandOk: bool, now: int)
      requires Valid() && now >= host.clock
      modifies this`planned, this`running, host
      ensures Valid() && host.writes == old(host.writes) && host.wishes == old(host.wishes)
      ensures !disposed && slot in host.c.owned ==>
                slot in host.since && host.since[slot] == now && host.turns == OneMore(old(host.turns), slot)
      ensures if disposed then planned == old(planned) && host.records == old(host.records) else
                && running == old(running) - {slot} && planned - {slot} == old(planned) - {slot}
                && (slot in host.c.owned ==>
                    host.records == old(host.records)[slot := MarkExited(old(host.records)[slot])])
                && (slot in planned <==>
                    slot in old(planned) && slot in old(running) && commandOk && slot in host.c.owned
                    && PlanLaunch(host.records[slot], usage).Some?)
    {
      hide AllOk, TickOk, AllCovered, FreshWrites, Spaced, SignalsOk, Wished, MarkLaunched, MarkExited,
           PlanLaunch, OneWrite, OneMore;
      if disposed { return; }
      var replacement := slot in running && slot in planned;
      running := running - {slot};
      if slot in host.c.owned { ExitKeepsWish(host.records[slot]); }
      OnForeignLaunch(slot, now);
      if replacement { var _ := LaunchCommandFor(slot, usage, commandOk, now); }
    }

    /** A command for the slot's next launch, if the host has one. */
    method LaunchCommandFor(slot: Slot, usage: Usage, commandOk: bool, now: int) returns (plan: Option<Plan>)
      requires Valid() && now >= host.clock
      modifies this`planned, host
      ensures Valid() && host.writes == old(host.writes) && host.wishes == old(host.wishes)
      ensures if disposed then plan == None && planned == old(planned) && host.records == old(host.records) else
                && (plan.Some? <==> slot in planned)
                && plan == (if slot in host.c.owned && commandOk then PlanLaunch(host.records[slot], usage) else None)
                && (slot in host.c.owned ==>
                    host.records == if old(host.records)[slot].live
                                    then old(host.records)[slot := MarkExited(old(host.records)[slot])]
                                    else old(host.records))
      ensures planned - {slot} == old(planned) - {slot} && host.since == old(host.since)
              && host.turns == old(host.turns)
    {
      hide AllOk, TickOk, AllCovered, FreshWrites, Spaced, SignalsOk, Wished, MarkLaunched, MarkExited,
           PlanLaunch, OneWrite, OneMore;
      if disposed { return None; }
      plan := host.LaunchFor(slot, usage, commandOk, now);
      planned := if plan.Some? then planned + {slot} else planned - {slot};
    }

    /** Something else was launched, or the launch failed: no plan is waiting any more. */
    method OnForeignLaunch(slot: Slot, now: int)
      requires Valid() && now >= host.clock
      modifies this`planned, host
      ensures Valid() && host.writes == old(host.writes) && host.wishes == old(host.wishes) && host.clock == now
      ensures planned == old(planned) - {slot}
      ensures host.records == if !disposed && slot in host.c.owned
                              then old(host.records)[slot := MarkExited(old(host.records)[slot])] else old(host.records)
      ensures !disposed && slot in host.c.owned ==>
                slot in host.since && host.since[slot] == now && host.turns == OneMore(old(host.turns), slot)
    {
      hide AllOk, TickOk, AllCovered, FreshWrites, Spaced, SignalsOk, Wished, MarkLaunched, MarkExited,
           PlanLaunch, OneWrite, OneMore;
      planned := planned - {slot};
      host.ResetSlot(slot, now);
    }

    /** The host's tick reads the next screen. */
    method TickStart(now: int)
      requires Valid() && now >= host.clock
      modifies host`tick, host`clock
      ensures Valid()
      ensures if disposed || old(host.tick).Some? then host.tick == old(host.tick)
              else ReadsNext(host.tick, host.c.owned, false, host.records, host.signals, now)
    {
      hide ReadsNext;
      host.TickStart(now);
    }

    /** The awaited reading arrives: the only step that writes. */
    method ReadDone(reading: Reading, usage: Usage, portOk: bool, now: int)
      requires Valid() && host.tick.Some? && now >= host.clock
      modifies host
      ensures Valid() && |host.writes| <= |old(host.writes)| + (if disposed then 0 else 1)
      ensures host.wishes == old(host.wishes)
      ensures host.writes != old(host.writes) <==>
                var t := old(host.tick).value;
                && !disposed && old(host.signals)[t.slot].epoch == t.epoch
                && Due(old(host.records)[t.slot], old(host.signals)[t.slot], t, reading, usage, portOk, now, host.c)
      ensures GapsOk(host.writes, host.c) && forall w | w in host.writes :: w.since <= w.readAt
      ensures LogsStart(old(host.writes), host.writes, host.since, host.turns, old(host.tick).value.slot)
    {
      hide AllOk, TickOk, AllCovered, Wished, Due, LogsStart, WriteAllowed, RestsOn;
      host.ReadDone(reading, usage, portOk, now);
    }

    /** The user picks, and from then on that is what the slot's record wishes for. */
    method SubmitPick(slot: Slot, pick: Pick, now: int) returns (rejected: bool)
      requires Valid() && now >= host.clock
      modifies host`records, host`clock, host`wishes
      ensures Valid() && (rejected ==> host.records == old(host.records))
      ensures rejected <==> disposed || slot !in host.c.owned || !Launchable(pick.effort)
      ensures host.wishes == if rejected then old(host.wishes) else old(host.wishes)[slot := pick]
      ensures !rejected ==>
                var u := ApplyEngine.SubmitPick(old(host.records)[slot], pick, Manual, ByOther);
                u.Some? && host.records == old(host.records)[slot := u.value]
    {
      hide AllOk, TickOk, AllCovered, FreshWrites, Spaced, SignalsOk, Wished, ApplyEngine.SubmitPick;
      if disposed || slot !in host.c.owned || !Launchable(pick.effort) { return true; }
      RejectedExactly(host.records[slot], pick, Manual, ByOther);
      rejected := host.OnPick(slot, pick, Manual, ByOther, now);
    }

    /** A statusline arrives: the budget may submit picks, and the first terminal's launch may be judged by it. One that
        did not take halts the terminal. */
    method OnStatusline(picks: seq<(Slot, Pick)>, judged: Judged, now: int)
      requires Valid() && now >= host.clock
      modifies host`records, host`clock, host`wishes
      ensures Valid() && (disposed ==> host.records == old(host.records)) && host.wishes == old(host.wishes)
      ensures !disposed && judged.Otherwise? && Claude in host.c.owned ==>
                host.records[Claude].halted && !HasPendingQueue(host.records[Claude])
      ensures !disposed ==>
                var steps := StepsTo(old(host.records), picks, |picks|, host.c.owned);
                && (forall s | s in steps && s != Claude :: s in host.records && host.records[s] == steps[s])
                && (judged.Undecided? || Claude !in host.c.owned ==> host.records == steps)
                && (judged.AsWanted? && Claude in host.c.owned ==>
                      Claude in steps && Claude in host.records
                      && host.records[Claude] == steps[Claude].(outcome := Confirmed, pendingStepDown := false))
    {
      hide AllOk, TickOk, AllCovered, FreshWrites, Spaced, Wished, SignalsOk, ApplyEngine.SubmitPick, HasPendingQueue,
           StepsTo;
      if disposed { return; }
      BudgetPass(picks, now);
      if Claude in host.c.owned {
        match judged
        case Undecided =>
        case AsWanted => host.ReportConfirmed(Claude, now);
        case Otherwise => host.ReportNotApplied(Claude, None, now);
      }
    }

    /** The budget's picks, one after the other. */
    method BudgetPass(picks: seq<(Slot, Pick)>, now: int)
      requires Valid() && now >= host.clock
      modifies host`records, host`clock, host`wishes
      ensures Valid() && now >= host.clock && host.wishes == old(host.wishes)
      ensures host.records == StepsTo(old(host.records), picks, |picks|, host.c.owned)
    {
      hide AllOk, TickOk, AllCovered, FreshWrites, Spaced, Wished, SignalsOk, ApplyEngine.SubmitPick;
      var i := 0;
      while i < |picks|
        invariant 0 <= i <= |picks| && Valid() && now >= host.clock && host.wishes == old(host.wishes)
        invariant host.records == StepsTo(old(host.records), picks, i, host.c.owned)
      {
        var _ := host.OnPick(picks[i].0, picks[i].1, Auto, ByBudget, now);
        i := i + 1;
      }
    }

    method ClearHalt(slot: Slot, now: int)
      requires Valid() && now >= host.clock
      modifies host`records, host`clock
      ensures Valid() && (disposed || slot !in host.c.owned ==> host.records == old(host.records))
      ensures !disposed && slot in host.c.owned ==>
                slot in old(host.records)
                && host.records == old(host.records)[slot := old(host.records)[slot].(halted := false)]
    {
      hide AllOk, TickOk, AllCovered, FreshWrites, Spaced;
      if disposed || slot !in host.c.owned { return; }
      host.ClearHalt(slot, now);
    }

    /** Input is noted even after disposal. */
    method NoteInput(slot: Slot, now: int)
      requires Valid() && now >= host.clock
      modifies host`signals, host`clock
      ensures Valid()
      ensures if slot in host.c.owned
              then slot in old(host.signals)
                   && host.signals == old(host.signals)[slot := old(host.signals)[slot].(lastInput := Some(now))]
              else host.signals == old(host.signals)
    {
      host.NoteUserInput(slot, now);
    }

    method NoteOutput(slot: Slot, now: int)
      requires Valid() && now >= host.clock
      modifies host`signals, host`clock
      ensures Valid()
      ensures if !disposed && slot in host.c.owned
              then slot in old(host.signals)
                   && host.signals == old(host.signals)[slot := old(host.signals)[slot].(lastOutput := Some(now))]
              else host.signals == old(host.signals)
    {
      hide AllOk, TickOk, AllCovered, FreshWrites, Spaced, SignalsOk, Wished;
      if disposed { return; }
      host.NoteOutput(slot, now);
    }

    /** Afterwards nothing is written any more, whatever reading is still awaited. */
    method Dispose(now: int)
      requires Valid() && now >= host.clock
      modifies this`disposed, host`disposed, host`signals, host`clock
      ensures Valid() && disposed
    {
      hide AllOk, TickOk, AllCovered, FreshWrites, Spaced, SignalsOk;
      if disposed { return; }
      disposed := true;
      host.Dispose(now);
    }
  }
}
