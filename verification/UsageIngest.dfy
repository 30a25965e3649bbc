/** Scoring of finished dispatches against a growing table. A completion may be stored before runs that ended
    earlier; a durable watermark remembers from where scores may be partial, and rescoring settles them. Each
    method is one transaction, so a crash may fall between any two of them. A completion is taken only while a
    transcript's history holds the dispatch open. */
module UsageIngest {
  import opened Options
  import opened Sets
  import opened Baseline

  type FileId = nat

  /** What a completion notification says, possibly without a time. */
  datatype Notice = Notice(ended: Option<int>, duration: Option<nat>, status: Status, toolErrors: Option<nat>)

  function CompletionOf(agent: Option<Agent>, n: Notice): Completion
    requires n.ended.Some?
  {
    Completion(agent, n.ended.value, n.duration, n.status, n.toolErrors)
  }

  /** A notification with the agent of the open dispatch; `toolErrors` comes from the run's own transcript. */
  datatype Completion = Completion(agent: Option<Agent>, ended: int, duration: Option<nat>, status: Status,
                                   toolErrors: Option<nat>)

  /** Only a completed run is scored for slowness and for tool errors. */
  function ElapsedOf(c: Completion): nat {
    if c.status == Completed && c.duration.Some? then c.duration.value else 0
  }

  function ErrorsOf(c: Completion): Option<nat> { if c.status == Completed then c.toolErrors else None }

  predicate OverFloor(c: Completion) { ErrorsOf(c).Some? && ErrorsOf(c).value >= TOOL_ERROR_FLOOR }

  /** The score of a completion: a failed run 4, a killed one 2, and a completed one 3 from three tool errors on, 2 if
      it took more than three times its baseline, and 1 otherwise, as one whose status is unknown. */
  lemma ScoreIs(c: Completion, median: Option<real>)
    requires median.Some? ==> median.value > 0.0
    ensures var slow := median.Some? && c.duration.Some? && c.duration.value as real > 3.0 * median.value;
            ComputeSeverity(ExitFor(c.status), ElapsedOf(c), median, ErrorsOf(c)) ==
            match c.status
            case Failed => 4
            case WasKilled => 2
            case Unknown => 1
            case Completed => if c.toolErrors.Some? && c.toolErrors.value >= 3 then 3 else if slow then 2 else 1
    ensures match c.status
            case Failed => ExitFor(c.status) == Error
            case WasKilled => ExitFor(c.status) == Killed
            case Unknown => ExitFor(c.status) == Ok
            case Completed => ExitFor(c.status) == Ok
  {
  }

  /** The row stores the completion. The tool-error count itself is not stored: a completed row above 2 stands
      for it. */
  predicate Stores(r: Row, c: Completion) {
    && r.agent == c.agent && r.ended == c.ended && r.duration == c.duration
    && r.status == Some(c.status) && r.exit == ExitFor(c.status)
    && (c.status == Completed ==> (r.severity >= 3 <==> OverFloor(c)))
  }

  /** Severity and median of the row are those the whole table gives. */
  ghost predicate ScoredRow(t: Table, id: Id, c: Completion) {
    && id in t && MedianIs(t, c.agent, id, c.ended, t[id].median)
    && t[id].severity == ComputeSeverity(ExitFor(c.status), ElapsedOf(c), t[id].median, ErrorsOf(c))
  }

  /** The scored rows are those of the completions. */
  predicate Sound(t: Table, given: map<Id, Completion>) {
    && DistinctEnds(t)
    && (forall id | id in given :: id in t && Stores(t[id], given[id]))
    && forall id | id in t && t[id].status.Some? :: id in given
  }

  predicate Before(ended: int, mark: Option<int>) { mark == None || ended < mark.value }

  /** Every row that ended before the watermark is scored by the whole table. */
  ghost predicate Settled(t: Table, given: map<Id, Completion>, mark: Option<int>) {
    forall id | id in given && Before(given[id].ended, mark) :: ScoredRow(t, id, given[id])
  }

  function Lowered(mark: Option<int>, ended: int): Option<int> {
    Some(if mark.Some? then Min(mark.value, ended) else ended)
  }

  /** No other admissible run of the agent ended at the same time. */
  predicate EndsApart(t: Table, id: Id, agent: Option<Agent>, ended: int) {
    forall j | j in t && j != id && Counts(t[j]) && t[j].agent == agent :: t[j].ended != ended
  }

  /** Without row `id` every row that ended before the watermark, and whose window held it, would still have the
      baseline it was scored with. */
  ghost predicate BaselinesKeep(t: Table, given: map<Id, Completion>, id: Id, mark: Option<int>) {
    forall k | k in given && k in t && k != id && Before(given[k].ended, mark) && InWindow(t, id, k, given[k]) ::
      MedianIs(t - {id}, given[k].agent, k, given[k].ended, t[k].median)
  }

  predicate InWindow(t: Table, id: Id, k: Id, c: Completion) {
    id in Window(t, Eligible(t, c.agent, k, c.ended))
  }

  // ---- open dispatches ----

  /** The dispatches a transcript's history holds open, each with its agent. */
  type Opens = map<(FileId, Id), Option<Agent>>

  /** Row `id` is a completion's, or one that baselines look at. */
  predicate Had(t: Table, given: map<Id, Completion>, id: Id) {
    id in given || (id in t && Counts(t[id]))
  }

  /** `seen` are the dispatches ever opened or stored, `reopened` those opened again afterwards: only they can be open
      twice, or open after a completion. */
  ghost predicate OpensOk(open: Opens, t: Table, given: map<Id, Completion>, seen: set<Id>, reopened: set<Id>) {
    && (forall e | e in open :: e.1 in seen && (Had(t, given, e.1) ==> e.1 in reopened))
    && (forall e, f | e in open && f in open && e.1 == f.1 && e != f :: e.1 in reopened)
    && forall id :: Had(t, given, id) ==> id in seen
  }

  // ---- one lemma per step ----

  /** A baseline is positive, so storing it unless it is positive stores it. */
  lemma PositiveMedian(t: Table, agent: Option<Agent>, self: Id, before: int, m: Option<real>)
    requires MedianIs(t, agent, self, before, m)
    ensures m.Some? ==> m.value > 0.0
  {
    var w := Window(t, Eligible(t, agent, self, before));
    if |w| >= BASELINE_MIN_SAMPLES {
      var a: nat, b: nat :| Middle(t, w, a, b) && m == Some(Half(a + b));
      assert Shorter(t, w, a + 1) != {};
      var id :| id in Shorter(t, w, a + 1);
      assert Admissible(t[id], agent.value, before);
      assert a >= 1;
    }
  }

  /** An unrelated change of the table keeps a row's score. */
  lemma ScoredFrame(t: Table, u: Table, id: Id, c: Completion)
    requires ScoredRow(t, id, c) && id in u && u[id].severity == t[id].severity && u[id].median == t[id].median
    requires Eligible(t, c.agent, id, c.ended) == Eligible(u, c.agent, id, c.ended)
    requires forall j | j in Eligible(t, c.agent, id, c.ended) ::
               t[j].ended == u[j].ended && t[j].duration == u[j].duration
    ensures ScoredRow(u, id, c)
  {
    hide MedianIs, ComputeSeverity, Eligible;
    MedianFrame(t, u, c.agent, id, c.ended, t[id].median);
  }

  lemma AdmissibleCounts(r: Row, agent: Agent, before: int)
    ensures Admissible(r, agent, before) ==> Counts(r) && r.agent == Some(agent) && r.ended < before
  {
  }

  /** A row that did not end before a run has no part in its baseline. */
  lemma RowTooLate(t: Table, id: Id, row: Row, k: Id, c: Completion, m: Option<real>)
    requires k != id && k in t && (Counts(row) ==> row.ended >= c.ended)
    ensures MedianIs(t[id := row], c.agent, k, c.ended, m) <==> MedianIs(t - {id}, c.agent, k, c.ended, m)
  {
    var u, v := t[id := row], t - {id};
    if c.agent.Some? { AdmissibleCounts(row, c.agent.value, c.ended); }
    assert Eligible(u, c.agent, k, c.ended) == Eligible(v, c.agent, k, c.ended);
    hide Eligible, MedianIs;
    if MedianIs(u, c.agent, k, c.ended, m) { MedianFrame(u, v, c.agent, k, c.ended, m); }
    if MedianIs(v, c.agent, k, c.ended, m) { MedianFrame(v, u, c.agent, k, c.ended, m); }
  }

  /** A row outside a run's window has no part in its baseline either. */
  lemma OutsideWindow(t: Table, id: Id, k: Id, c: Completion, m: Option<real>)
    requires k != id && k in t && !InWindow(t, id, k, c)
    ensures MedianIs(t - {id}, c.agent, k, c.ended, m) <==> MedianIs(t, c.agent, k, c.ended, m)
  {
    var u := t - {id};
    var e, f := Eligible(t, c.agent, k, c.ended), Eligible(u, c.agent, k, c.ended);
    assert f == e - {id};
    hide Eligible, IsMedian;
    WindowWithout(t, e, id);
    WindowFrame(t, u, f);
    if IsMedian(t, Window(t, e), m) { SameMedian(t, u, Window(t, e), m); }
    if IsMedian(u, Window(t, e), m) { SameMedian(u, t, Window(t, e), m); }
  }

  lemma WindowWithout(t: Table, e: set<Id>, id: Id)
    requires e <= t.Keys && id !in Window(t, e)
    ensures Window(t, e - {id}) == Window(t, e)
  {
    forall j | j in e && j != id
      ensures |Later(t, e - {id}, j)| < BASELINE_WINDOW <==> |Later(t, e, j)| < BASELINE_WINDOW
    {
      SubsetSize(Later(t, e - {id}, j), Later(t, e, j));
      if id in e && t[id].ended > t[j].ended {
        assert Later(t, e, id) <= Later(t, e - {id}, j);
        SubsetSize(Later(t, e, id), Later(t, e - {id}, j));
      } else {
        assert Later(t, e - {id}, j) == Later(t, e, j);
      }
    }
  }

  /** Storing a completion keeps every score below the new watermark right if and only if the row it replaces, if
      any, was needed for none of their baselines. */
  lemma IngestExactly(t: Table, given: map<Id, Completion>, mark: Option<int>, id: Id, row: Row, c: Completion)
    requires Sound(t, given) && Settled(t, given, mark) && Stores(row, c)
    ensures Settled(t[id := row], given[id := c], Lowered(mark, c.ended)) <==>
              BaselinesKeep(t, given, id, Lowered(mark, c.ended))
  {
    hide Stores, InWindow, ComputeSeverity, MedianIs, DistinctEnds;
    StoresFields(row, c);
    var u, given', mark' := t[id := row], given[id := c], Lowered(mark, c.ended);
    forall k | k in given && k != id && Before(given[k].ended, mark')
      ensures ScoredRow(u, k, given[k]) <==>
                InWindow(t, id, k, given[k]) ==> MedianIs(t - {id}, given[k].agent, k, given[k].ended, t[k].median)
    {
      assert ScoredRow(t, k, given[k]);
      RowTooLate(t, id, row, k, given[k], t[k].median);
      if !InWindow(t, id, k, given[k]) { OutsideWindow(t, id, k, given[k], t[k].median); }
    }
    hide ScoredRow;
    assert forall k | k in given' && Before(given'[k].ended, mark') :: k != id && given'[k] == given[k];
  }

  /** A dispatch without a row that counts is needed for nothing. */
  lemma NothingNeedsIt(t: Table, given: map<Id, Completion>, id: Id, mark: Option<int>)
    requires id in t ==> !Counts(t[id])
    ensures BaselinesKeep(t, given, id, mark)
  {
    forall k | k in given
      ensures !InWindow(t, id, k, given[k])
    {
      if id in t && given[k].agent.Some? { AdmissibleCounts(t[id], given[k].agent.value, given[k].ended); }
      hide Counts;
    }
  }

  lemma NotEligible(t: Table, id: Id, row: Row, agent: Option<Agent>, k: Id, before: int)
    requires id !in t && !Counts(row)
    ensures Eligible(t[id := row], agent, k, before) == Eligible(t, agent, k, before)
  {
    if agent.Some? { AdmissibleCounts(row, agent.value, before); }
  }

  lemma UncountedKeepsOne(t: Table, id: Id, row: Row, k: Id, c: Completion)
    requires id !in t && !Counts(row) && ScoredRow(t, k, c)
    ensures ScoredRow(t[id := row], k, c)
  {
    hide Counts, Eligible, MedianIs, ComputeSeverity;
    NotEligible(t, id, row, c.agent, k, c.ended);
    ScoredFrame(t, t[id := row], k, c);
  }

  /** A row that does not count changes no score. */
  lemma UncountedKeeps(t: Table, given: map<Id, Completion>, mark: Option<int>, id: Id, row: Row)
    requires Sound(t, given) && Settled(t, given, mark) && id !in t && !Counts(row)
    ensures Settled(t[id := row], given, mark)
  {
    hide ScoredRow, Sound, Counts, Before;
    forall k | k in given && Before(given[k].ended, mark)
      ensures ScoredRow(t[id := row], k, given[k])
    {
      UncountedKeepsOne(t, id, row, k, given[k]);
    }
  }

  lemma IngestSound(t: Table, given: map<Id, Completion>, id: Id, row: Row, c: Completion)
    requires Sound(t, given) && Stores(row, c) && EndsApart(t, id, c.agent, c.ended)
    ensures Sound(t[id := row], given[id := c])
  {
    hide Stores;
    assert row.status.Some? && row.agent == c.agent && row.ended == c.ended by { StoresFields(row, c); }
  }

  lemma StoresFields(r: Row, c: Completion)
    requires Stores(r, c)
    ensures r.status == Some(c.status) && r.agent == c.agent && r.ended == c.ended
  {
  }

  /** What rescoring leaves alone. */
  predicate SameFacts(t: Table, u: Table) {
    && t.Keys == u.Keys
    && forall id | id in t :: u[id] == t[id].(severity := u[id].severity, median := u[id].median)
  }

  lemma FactsScored(t: Table, u: Table, id: Id, c: Completion)
    requires SameFacts(t, u) && id in t && t[id] == u[id] && ScoredRow(t, id, c)
    ensures ScoredRow(u, id, c)
  {
    hide ComputeSeverity, MedianIs;
    assert Eligible(t, c.agent, id, c.ended) == Eligible(u, c.agent, id, c.ended);
    ScoredFrame(t, u, id, c);
  }

  lemma FactsSound(t: Table, u: Table, given: map<Id, Completion>, id: Id, c: Completion)
    requires Sound(t, given) && id in given && c == given[id] && SameFacts(t, u)
    requires forall j | j in t && j != id :: u[j] == t[j]
    requires c.status == Completed ==> (u[id].severity >= 3 <==> OverFloor(c))
    ensures Sound(u, given)
  {
    assert DistinctEnds(u) by {
      forall i, j | i in u && j in u && i != j && Counts(u[i]) && Counts(u[j]) && u[i].agent == u[j].agent
        ensures u[i].ended != u[j].ended
      {
        assert Counts(t[i]) && Counts(t[j]);
      }
    }
  }

  /** A row needs no transcript to be scored again, because a completed row stands above 2 exactly when its tool errors
      reached the floor. */
  lemma RowTells(row: Row, c: Completion, m: Option<real>)
    requires Stores(row, c)
    ensures var completed := row.status == Some(Completed);
            var severity := ComputeSeverity(row.exit, if completed then DurationOf(row) else 0, m,
                                            if completed && row.severity >= 3 then Some(TOOL_ERROR_FLOOR) else None);
            && severity == ComputeSeverity(ExitFor(c.status), ElapsedOf(c), m, ErrorsOf(c))
            && (c.status == Completed ==> (severity >= 3 <==> OverFloor(c)))
  {
    if c.status == Completed {
      FloorOnly(ElapsedOf(c), m, ErrorsOf(c), if row.severity >= 3 then Some(TOOL_ERROR_FLOOR) else None);
      hide ComputeSeverity;
    }
  }

  /** Of the tool errors of a successful run only whether they reach the floor matters. */
  lemma FloorOnly(elapsed: nat, m: Option<real>, errors: Option<nat>, other: Option<nat>)
    requires errors.Some? && errors.value >= TOOL_ERROR_FLOOR <==> other.Some? && other.value >= TOOL_ERROR_FLOOR
    ensures ComputeSeverity(Ok, elapsed, m, errors) == ComputeSeverity(Ok, elapsed, m, other)
    ensures ComputeSeverity(Ok, elapsed, m, errors) >= 3 <==> errors.Some? && errors.value >= TOOL_ERROR_FLOOR
  {
  }

  lemma StoredRow(t: Table, given: map<Id, Completion>, id: Id)
    requires Sound(t, given) && id in given
    ensures id in t && DistinctEnds(t) && Stores(t[id], given[id]) && t[id].agent == given[id].agent
            && t[id].ended == given[id].ended
  {
  }

  /** The new score of one stored row. */
  method Rescored(t: Table, id: Id, ghost given: map<Id, Completion>) returns (severity: int, median: Option<real>)
    requires Sound(t, given) && id in given && id in t
    ensures MedianIs(t, given[id].agent, id, given[id].ended, median)
    ensures severity == ComputeSeverity(ExitFor(given[id].status), ElapsedOf(given[id]), median, ErrorsOf(given[id]))
    ensures given[id].status == Completed ==> (severity >= 3 <==> OverFloor(given[id]))
  {
    hide MedianIs, ComputeSeverity, Sound, Stores, OverFloor, ElapsedOf, ErrorsOf, DurationOf;
    StoredRow(t, given, id);
    var row := t[id];
    var completed := row.status == Some(Completed);
    var m := MedianDurationMsFor(t, row.agent, id, row.ended);
    PositiveMedian(t, row.agent, id, row.ended, m);
    RowTells(row, given[id], m);
    median := if m.Some? && m.value > 0.0 then m else None;
    severity := ComputeSeverity(row.exit, if completed then DurationOf(row) else 0, m,
                                if completed && row.severity >= 3 then Some(TOOL_ERROR_FLOOR) else None);
  }

  function Pending(t: Table, from: int): set<Id> { set id | id in t && t[id].status.Some? && t[id].ended >= from }

  /** Rescores the rows that ended at `from` or later, in any order. */
  method RescoreRows(t: Table, from: int, ghost given: map<Id, Completion>) returns (u: Table, count: nat)
    requires Sound(t, given)
    ensures Sound(u, given) && SameFacts(t, u) && (Settled(u, given, None) <==> Settled(t, given, Some(from)))
    ensures forall id | id in t && t[id].ended < from :: id in u && u[id] == t[id]
    ensures count == |Pending(t, from)|
  {
    hide Sound, ScoredRow, MedianIs, ComputeSeverity, Rescoring, Settled, SameFacts;
    var rows := Pending(t, from);
    var rest := rows;
    u := t;
    RescoringBegins(t, from, given);
    while rest != {}
      invariant rest <= rows && Rescoring(t, u, from, given, rest)
      decreases |rest|
    {
      var id :| id in rest;
      InPending(t, u, from, given, rest, id);
      var severity, median := Rescored(u, id, given);
      var v := u[id := u[id].(severity := severity, median := median)];
      OneRescored(t, u, v, from, id, rest, given);
      u, rest := v, rest - {id};
    }
    RescoringEnds(t, u, from, given);
    count := |rows|;
  }

  /** The pending rows but `rest` have their new scores, and the others are as they were. */
  ghost predicate Rescoring(t: Table, u: Table, from: int, given: map<Id, Completion>, rest: set<Id>) {
    && Sound(u, given) && SameFacts(t, u) && rest <= Pending(t, from)
    && (forall id | id in given && id in Pending(t, from) - rest :: ScoredRow(u, id, given[id]))
    && forall id | id in t && id !in Pending(t, from) :: u[id] == t[id]
  }

  lemma RescoringBegins(t: Table, from: int, given: map<Id, Completion>)
    requires Sound(t, given)
    ensures Rescoring(t, t, from, given, Pending(t, from))
  {
  }

  lemma InPending(t: Table, u: Table, from: int, given: map<Id, Completion>, rest: set<Id>, id: Id)
    requires Rescoring(t, u, from, given, rest) && id in rest
    ensures Sound(u, given) && id in given && id in u
  {
  }

  lemma OneRescored(t: Table, u: Table, v: Table, from: int, id: Id, rest: set<Id>, given: map<Id, Completion>)
    requires Rescoring(t, u, from, given, rest) && id in rest && id in given
    requires id in u && id in v && v == u[id := u[id].(severity := v[id].severity, median := v[id].median)]
    requires MedianIs(u, given[id].agent, id, given[id].ended, v[id].median)
    requires v[id].severity ==
             ComputeSeverity(ExitFor(given[id].status), ElapsedOf(given[id]), v[id].median, ErrorsOf(given[id]))
    requires given[id].status == Completed ==> (v[id].severity >= 3 <==> OverFloor(given[id]))
    ensures Rescoring(t, v, from, given, rest - {id})
  {
    hide ComputeSeverity, MedianIs, Sound;
    FactsSound(u, v, given, id, given[id]);
    forall k | k in given && k in Pending(t, from) - (rest - {id})
      ensures ScoredRow(v, k, given[k])
    {
      if k == id {
        ScoreStands(u, v, id, given[id]);
      } else {
        FactsScored(u, v, k, given[k]);
      }
    }
  }

  lemma ScoreStands(u: Table, v: Table, id: Id, c: Completion)
    requires SameFacts(u, v) && id in u && MedianIs(u, c.agent, id, c.ended, v[id].median)
    requires v[id].severity == ComputeSeverity(ExitFor(c.status), ElapsedOf(c), v[id].median, ErrorsOf(c))
    ensures ScoredRow(v, id, c)
  {
    hide ComputeSeverity, MedianIs;
    assert Eligible(u, c.agent, id, c.ended) == Eligible(v, c.agent, id, c.ended);
    MedianFrame(u, v, c.agent, id, c.ended, v[id].median);
  }

  /** Rescored rows are right; the others are right if and only if they were. */
  lemma RescoringEnds(t: Table, u: Table, from: int, given: map<Id, Completion>)
    requires Sound(t, given) && Rescoring(t, u, from, given, {})
    ensures Sound(u, given) && SameFacts(t, u) && (Settled(u, given, None) <==> Settled(t, given, Some(from)))
    ensures forall id | id in t && t[id].ended < from :: id in u && u[id] == t[id]
  {
    hide ScoredRow;
    forall id | id in given && given[id].ended < from
      ensures ScoredRow(t, id, given[id]) <==> ScoredRow(u, id, given[id])
    {
      if ScoredRow(t, id, given[id]) { FactsScored(t, u, id, given[id]); }
      if ScoredRow(u, id, given[id]) { FactsScored(u, t, id, given[id]); }
    }
  }

  /** Order independence: two stores that were given the same completions over the same unscored rows, in
      whatever order and with whatever crashes, have the same scores once both are settled. */
  lemma OrderIndependent(t: Table, u: Table, given: map<Id, Completion>, id: Id)
    requires Sound(t, given) && Sound(u, given) && Settled(t, given, None) && Settled(u, given, None)
    requires forall j | (j in t && t[j].status == None && Counts(t[j]))
             || (j in u && u[j].status == None && Counts(u[j])) ::
               j in t && j in u && t[j] == u[j]
    requires id in given
    ensures t[id] == u[id]
  {
    var c := given[id];
    assert ScoredRow(t, id, c) && ScoredRow(u, id, c);
    forall j | j in t || j in u
      ensures j in Eligible(t, c.agent, id, c.ended) <==> j in Eligible(u, c.agent, id, c.ended)
      ensures j in Eligible(t, c.agent, id, c.ended) ==> t[j].ended == u[j].ended && t[j].duration == u[j].duration
    {
      hide ScoredRow;
      if c.agent.Some? {
        if j in t { AdmissibleCounts(t[j], c.agent.value, c.ended); }
        if j in u { AdmissibleCounts(u[j], c.agent.value, c.ended); }
      }
    }
    hide Eligible, ComputeSeverity, Sound;
    assert Eligible(t, c.agent, id, c.ended) == Eligible(u, c.agent, id, c.ended);
    MedianFrame(t, u, c.agent, id, c.ended, t[id].median);
    MedianUnique(u, Window(u, Eligible(u, c.agent, id, c.ended)), t[id].median, u[id].median);
  }

  class DispatchStore {
    var table: Table
    var mark: Option<int>             // rows ended at or after it may hold partial scores
    var open: Opens                   // in memory: lost when the collector restarts
    ghost var given: map<Id, Completion>
    ghost var seen: set<Id>
    ghost var reopened: set<Id>

    /** Until some dispatch is opened again, every score below the watermark is that of the whole table. */
    ghost predicate Valid()
      reads this
    {
      && Sound(table, given) && OpensOk(open, table, given, seen, reopened)
      && (reopened == {} ==> Settled(table, given, mark))
    }

    lemma Promise()
      requires Valid()
      ensures DistinctEnds(table) && (reopened == {} ==> Settled(table, given, mark))
    {
      hide DistinctEnds;
    }

    /** `history` are rows this path never scores. */
    constructor (history: Table)
      requires DistinctEnds(history) && forall id | id in history :: history[id].status == None
      ensures Valid() && table == history && mark == None && open == map[] && given == map[]
      ensures Settled(table, given, mark) && seen == history.Keys && reopened == {}
    {
      table, mark, open, given, seen, reopened := history, None, map[], map[], history.Keys, {};
    }

    /** A transcript shows the dispatch's tool call. */
    method Open(file: FileId, id: Id, agent: Option<Agent>)
      requires Valid()
      modifies this`open, this`seen, this`reopened
      ensures Valid() && open == old(open)[(file, id) := agent]
      ensures seen == old(seen) + {id} && reopened == if id in old(seen) then old(reopened) + {id} else old(reopened)
    {
      hide Sound, Settled, Counts;
      if id in seen { reopened := reopened + {id}; }
      seen := seen + {id};
      open := open[(file, id) := agent];
    }

    /** It shows the call's result, and not that it was launched in the background, or another tool under its id. */
    method Close(file: FileId, id: Id)
      requires Valid()
      modifies this`open
      ensures Valid() && open == old(open) - {(file, id)}
    {
      hide Sound, Settled, Counts;
      open := open - {(file, id)};
    }

    /** The collector starts again. */
    method Restart()
      requires Valid()
      modifies this`open
      ensures Valid() && open == map[]
    {
      hide Sound, Settled, Counts;
      open := map[];
    }

    /** A completion notification. It is stored exactly if the file's history holds the dispatch open and it carries a
        time; that closes the dispatch, so another one is refused unless it is opened again. A stored one is scored
        against the rows stored so far, and the watermark goes down to its end. */
    method IngestDispatchEvent(file: FileId, id: Id, n: Notice) returns (stored: bool)
      requires Valid() && ((file, id) in open && n.ended.Some? ==>
                           EndsApart(table, id, open[(file, id)], n.ended.value))
      modifies this`table, this`mark, this`open, this`given
      ensures Valid()
      ensures stored <==> (file, id) in old(open) && n.ended.Some?
      ensures id in old(given) && id !in reopened ==> !stored
      ensures !stored ==> unchanged(this)
      ensures stored ==>
                var c := CompletionOf(old(open)[(file, id)], n);
                && given == old(given)[id := c] && mark == Lowered(old(mark), c.ended)
                && open == old(open) - {(file, id)}
                && table == old(table)[id := table[id]] && ScoredAgainst(old(table), id, table[id], c)
                && (old(Settled(table, given, mark)) ==>
                    (Settled(table, given, mark) <==> BaselinesKeep(old(table), old(given), id, mark)))
    {
      hide Stores, Sound, Settled, ComputeSeverity, MedianIs, EndsApart, Counts, BaselinesKeep, ScoredAgainst, OpensOk;
      stored := (file, id) in open && n.ended.Some?;
      if !stored { return; }
      if id !in reopened { RefusedUnlessReopened(open, table, given, seen, reopened, file, id); }
      var c := CompletionOf(open[(file, id)], n);
      var row := NewRow(table, given, id, c);
      Ingested(table, given, mark, id, row, c, open, seen, reopened, file);
      table, given, mark, open := table[id := row], given[id := c], Lowered(mark, c.ended), open - {(file, id)};
    }

    /** A dispatch that stalled gets a fatal row, unless it has a row. */
    method SweepStale(id: Id, agent: Option<Agent>, now: int, age: nat) returns (swept: bool)
      requires Valid()
      modifies this`table
      ensures Valid() && swept == (id !in old(table))
      ensures !swept ==> table == old(table)
      ensures swept ==> table == old(table)[id := Row(agent, now, Some(age), Fatal, 4, None, None)]
      ensures old(Settled(table, given, mark)) ==> Settled(table, given, mark)
    {
      hide Settled, Sound, OpensOk, Counts, ComputeSeverity;
      swept := id !in table;
      if !swept { return; }
      var row := Row(agent, now, Some(age), Fatal, ComputeSeverity(Fatal, age, None, None), None, None);
      FatalAdds(table, given, open, seen, reopened, id, row);
      if Settled(table, given, mark) { UncountedKeeps(table, given, mark, id, row); }
      table := table[id := row];
    }

    /** Rescores every row from the watermark on and clears it; with no watermark nothing happens. Afterwards every
        completion's score is that of the whole table if and only if those below the watermark were. */
    method RescorePendingDispatches() returns (count: nat)
      requires Valid()
      modifies this`table, this`mark
      ensures Valid() && mark == None && SameFacts(old(table), table)
      ensures Settled(table, given, None) <==> old(Settled(table, given, mark))
      ensures forall id | id in old(table) && Before(old(table)[id].ended, old(mark)) ::
                id in table && table[id] == old(table)[id]
      ensures old(mark) == None ==> count == 0
    {
      hide Sound, Settled, OpensOk;
      if mark == None { return 0; }
      ghost var before := table;
      table, count := RescoreRows(table, mark.value, given);
      FactsOpens(open, before, table, given, seen, reopened);
      mark := None;
    }
  }

  /** The row a completion gets: scored against the rows stored so far. */
  method NewRow(t: Table, ghost given: map<Id, Completion>, id: Id, c: Completion) returns (row: Row)
    requires Sound(t, given)
    ensures ScoredAgainst(t, id, row, c)
  {
    hide MedianIs;
    var m := MedianDurationMsFor(t, c.agent, id, c.ended);
    PositiveMedian(t, c.agent, id, c.ended, m);
    var stored := if m.Some? && m.value > 0.0 then m else None;
    row := Row(c.agent, c.ended, c.duration, ExitFor(c.status),
               ComputeSeverity(ExitFor(c.status), ElapsedOf(c), m, ErrorsOf(c)), stored,
               Some(c.status));
  }

  lemma RefusedUnlessReopened(open: Opens, t: Table, given: map<Id, Completion>, seen: set<Id>, reopened: set<Id>,
                              file: FileId, id: Id)
    requires OpensOk(open, t, given, seen, reopened) && (file, id) in open && id !in reopened
    ensures id !in given && (id in t ==> !Counts(t[id])) && forall e | e in open && e.1 == id :: e == (file, id)
  {
    hide Counts;
  }

  /** What one stored completion does to everything promised. */
  lemma Ingested(t: Table, given: map<Id, Completion>, mark: Option<int>, id: Id, row: Row, c: Completion, open: Opens,
                 seen: set<Id>, reopened: set<Id>, file: FileId)
    requires Sound(t, given) && OpensOk(open, t, given, seen, reopened) && (file, id) in open
             && EndsApart(t, id, c.agent, c.ended)
    requires ScoredAgainst(t, id, row, c) && (reopened == {} ==> Settled(t, given, mark))
    ensures Sound(t[id := row], given[id := c])
    ensures OpensOk(open - {(file, id)}, t[id := row], given[id := c], seen, reopened)
    ensures reopened == {} ==> Settled(t[id := row], given[id := c], Lowered(mark, c.ended))
    ensures Settled(t, given, mark) ==>
              (Settled(t[id := row], given[id := c], Lowered(mark, c.ended)) <==>
               BaselinesKeep(t, given, id, Lowered(mark, c.ended)))
  {
    hide Sound, Settled, OpensOk, EndsApart, BaselinesKeep, Stores, MedianIs, ComputeSeverity, Counts;
    IngestSound(t, given, id, row, c);
    if Settled(t, given, mark) { IngestExactly(t, given, mark, id, row, c); }
    if id !in reopened {
      RefusedUnlessReopened(open, t, given, seen, reopened, file, id);
      NothingNeedsIt(t, given, id, Lowered(mark, c.ended));
    }
    OpensAfter(open, t, given, seen, reopened, file, id, row, c);
  }

  lemma FatalAdds(t: Table, given: map<Id, Completion>, open: Opens, seen: set<Id>, reopened: set<Id>, id: Id, row: Row)
    requires Sound(t, given) && OpensOk(open, t, given, seen, reopened) && id !in t && row.exit == Fatal
             && row.status == None
    ensures !Counts(row) && Sound(t[id := row], given) && OpensOk(open, t[id := row], given, seen, reopened)
    ensures forall age: nat :: ComputeSeverity(Fatal, age, None, None) == 4
  {
    var u := t[id := row];
    assert !Counts(row);
    hide Counts, Stores;
    assert forall k :: Had(u, given, k) <==> Had(t, given, k);
  }

  lemma OpensAfter(open: Opens, t: Table, given: map<Id, Completion>, seen: set<Id>, reopened: set<Id>, file: FileId,
                   id: Id, row: Row, c: Completion)
    requires OpensOk(open, t, given, seen, reopened) && (file, id) in open
    ensures OpensOk(open - {(file, id)}, t[id := row], given[id := c], seen, reopened)
  {
    hide Counts;
    var open', t', given' := open - {(file, id)}, t[id := row], given[id := c];
    assert forall k | k != id :: Had(t', given', k) <==> Had(t, given, k);
  }

  lemma FactsOpens(open: Opens, t: Table, u: Table, given: map<Id, Completion>, seen: set<Id>, reopened: set<Id>)
    requires OpensOk(open, t, given, seen, reopened) && SameFacts(t, u)
    ensures OpensOk(open, u, given, seen, reopened)
  {
    forall id
      ensures Had(t, given, id) <==> Had(u, given, id)
    {
    }
    hide Had;
  }

  ghost predicate ScoredAgainst(t: Table, id: Id, row: Row, c: Completion) {
    && Stores(row, c) && MedianIs(t, c.agent, id, c.ended, row.median)
    && row.severity == ComputeSeverity(ExitFor(c.status), ElapsedOf(c), row.median, ErrorsOf(c))
  }

  // ---- a dispatch opened twice ----

  /** Run `id` of agent 0 took one millisecond and ended at `id + 1`. */
  function RunOf(id: Id): Completion { Completion(Some(0), id + 1, Some(1), Completed, None) }

  function NoticeAt(ended: int): Notice { Notice(Some(ended), Some(1), Completed, None) }

  /** The table holds the first `n` runs. */
  predicate FirstRuns(t: Table, n: nat) {
    && (forall id | id in t ::
          id < n && t[id] == Row(Some(0), id + 1, Some(1), Ok, t[id].severity, t[id].median, Some(Completed)))
    && forall id | 0 <= id < n :: id in t
  }

  lemma NoRuns()
    ensures FirstRuns(map[], 0) && DistinctEnds(map[])
  {
  }

  lemma EndsLater(t: Table, n: nat, id: Id, ended: int)
    requires FirstRuns(t, n) && ended > n
    ensures EndsApart(t, id, Some(0), ended) && NoticeAt(ended).ended == Some(ended)
  {
    hide Counts;
  }

  lemma NextStored(t: Table, n: nat, row: Row)
    requires FirstRuns(t, n) && ScoredAgainst(t, n, row, CompletionOf(Some(0), NoticeAt(n + 1)))
    ensures FirstRuns(t[n := row], n + 1) && CompletionOf(Some(0), NoticeAt(n + 1)) == RunOf(n)
  {
    hide MedianIs, ComputeSeverity;
  }

  lemma StillFirst(t: Table, u: Table, n: nat)
    requires FirstRuns(t, n) && SameFacts(t, u)
    ensures FirstRuns(u, n)
  {
  }

  /** Run 5 is scored against the five before it. */
  lemma FiveBefore(t: Table, given: map<Id, Completion>)
    requires FirstRuns(t, 6) && 5 in given && given[5] == RunOf(5) && Settled(t, given, None)
    ensures 5 in t && t[5].ended == 6 && t[5].median.Some?
  {
    hide Eligible, Later, Window, ComputeSeverity, Settled;
    FiveEligible(t);
    FifthScored(t, given);
    AllInWindow(t, Eligible(t, Some(0), 5, 6));
  }

  lemma FifthScored(t: Table, given: map<Id, Completion>)
    requires 5 in given && given[5] == RunOf(5) && Settled(t, given, None)
    ensures 5 in t && MedianIs(t, Some(0), 5, 6, t[5].median)
  {
    hide MedianIs, ComputeSeverity;
    assert ScoredRow(t, 5, given[5]);
  }

  lemma FiveEligible(t: Table)
    requires FirstRuns(t, 6)
    ensures Eligible(t, Some(0), 5, 6) == {0, 1, 2, 3, 4}
  {
  }

  lemma AllInWindow(t: Table, e: set<Id>)
    requires e <= t.Keys && |e| < BASELINE_WINDOW
    ensures Window(t, e) == e
  {
    forall j | j in e
      ensures |Later(t, e, j)| < BASELINE_WINDOW
    {
      SubsetSize(Later(t, e, j), e);
    }
  }

  /** Run 0 completed again, later than all others. */
  predicate FirstMoved(t: Table) {
    (forall id | id in t :: id < 6) && 0 in t && t[0].ended > 6
  }

  lemma Moves(t: Table, row: Row)
    requires FirstRuns(t, 6) && ScoredAgainst(t, 0, row, CompletionOf(Some(0), NoticeAt(7)))
    ensures FirstMoved(t[0 := row])
  {
    hide MedianIs, ComputeSeverity;
  }

  lemma FifthBelow()
    ensures Before(6, Lowered(None, CompletionOf(Some(0), NoticeAt(7)).ended))
  {
  }

  lemma StillMoved(t: Table, u: Table)
    requires FirstMoved(t) && SameFacts(t, u)
    ensures FirstMoved(u)
  {
  }

  lemma FourEligible(t: Table)
    requires FirstMoved(t)
    ensures Eligible(t, Some(0), 5, 6) <= {1, 2, 3, 4}
  {
  }

  /** Then only four are left before run 5, and that is too few. */
  lemma FourBefore(t: Table, m: Option<real>)
    requires FirstMoved(t) && MedianIs(t, Some(0), 5, 6, m)
    ensures m == None
  {
    hide Eligible, Later;
    FourEligible(t);
    var e := Eligible(t, Some(0), 5, 6);
    SubsetSize(Window(t, e), e);
    SubsetSize(e, {1, 2, 3, 4});
  }

  /** A run that loses a score for good. Six runs complete and are rescored. Then the first one appears as open in a
      second transcript and completes there later: after the next rescoring the sixth still has a baseline that the
      table no longer gives. */
  method OpenedTwiceKeepsOldBaseline() returns (kept: Option<real>, now: Option<real>)
    ensures kept.Some? && now == None
  {
    hide *;
    NoRuns();
    var store := new DispatchStore(map[]);
    for id := 0 to 6
      invariant fresh(store) && store.Valid() && FirstRuns(store.table, id) && store.reopened == {}
      invariant forall k | k in store.seen :: k < id
      invariant id == 6 ==> 5 in store.given && store.given[5] == RunOf(5)
    {
      EndsLater(store.table, id, id, id + 1);
      store.Open(0, id, Some(0));
      ghost var before := store.table;
      var _ := store.IngestDispatchEvent(0, id, NoticeAt(id + 1));
      NextStored(before, id, store.table[id]);
    }
    KeepsAndLoses(store);
    kept := store.table[5].median;
    now := MedianDurationMsFor(store.table, Some(0), 5, 6);
    FourBefore(store.table, now);
  }

  method KeepsAndLoses(store: DispatchStore)
    requires store.Valid() && FirstRuns(store.table, 6) && store.reopened == {}
    requires 5 in store.given && store.given[5] == RunOf(5)
    modifies store
    ensures 5 in store.table && store.table[5].median.Some? && FirstMoved(store.table) && DistinctEnds(store.table)
  {
    hide *;
    store.Promise();
    ghost var first := store.table;
    var _ := store.RescorePendingDispatches();
    StillFirst(first, store.table, 6);
    FiveBefore(store.table, store.given);
    ghost var scored := store.table;
    EndsLater(scored, 6, 0, 7);
    store.Open(1, 0, Some(0));
    var _ := store.IngestDispatchEvent(1, 0, NoticeAt(7));
    Moves(scored, store.table[0]);
    ghost var moved := store.table;
    assert FirstMoved(moved);
    FifthBelow();
    var _ := store.RescorePendingDispatches();
    assert 5 in store.table && store.table[5] == scored[5];
    StillMoved(moved, store.table);
    assert FirstMoved(store.table);
    store.Promise();
  }
}
