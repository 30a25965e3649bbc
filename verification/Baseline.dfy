/** The slowness baseline of a dispatch: the median duration over the last finished runs of its agent, and the
    severity derived from it. The median is defined by counting alone; the query and the sort meet that
    definition. */
module Baseline {
  import opened Options
  import opened Sets

  /** A tool-use id and an agent type. */
  type Id = nat
  type Agent = nat

  datatype Exit = Ok | Partial | Error | Fatal | Timeout | Blocked | Killed
  datatype Status = Completed | Failed | WasKilled | Unknown

  const BASELINE_MIN_SAMPLES := 5
  const BASELINE_WINDOW := 20
  const SLOW_FACTOR := 3.0
  const SLOWNESS_CAP := 2
  const TOOL_ERROR_FLOOR := 3

  /** A row of `dispatches`; a `None` status is a row this path did not score. */
  datatype Row = Row(agent: Option<Agent>, ended: int, duration: Option<nat>, exit: Exit, severity: int,
                     median: Option<real>, status: Option<Status>)

  type Table = map<Id, Row>

  // ---- severity ----

  function ExitFor(status: Status): Exit {
    match status
    case Failed => Error
    case WasKilled => Killed
    case Completed => Ok
    case Unknown => Ok
  }

  function Max(a: int, b: int): int { if a >= b then a else b }

  function Min(a: int, b: int): int { if a <= b then a else b }

  function ComputeSeverity(exit: Exit, elapsed: nat, median: Option<real>, toolErrors: Option<nat>): int {
    var slow := median.Some? && median.value > 0.0 && elapsed as real > SLOW_FACTOR * median.value;
    var s0 := if slow then Min(2, SLOWNESS_CAP) else 1;
    var s1 := if exit == Ok && toolErrors.Some? && toolErrors.value >= TOOL_ERROR_FLOOR then Max(s0, 3) else s0;
    var s2 := if exit == Partial then Max(s1, 2) else if exit == Timeout then Max(s1, 3)
              else if exit == Error || exit == Fatal then Max(s1, 4) else if exit == Blocked then 4 else s1;
    var s3 := if exit == Killed then 2 else s2;
    Min(4, Max(0, s3))
  }

  /** What the collector promises of its severities: a failed run is 4, a killed one 2, a finished one is above
      2 exactly when its tool errors reach the floor, and slowness alone moves it between 1 and 2. */
  lemma SeverityBands(status: Status, elapsed: nat, median: Option<real>, toolErrors: Option<nat>)
    ensures var s := ComputeSeverity(ExitFor(status), elapsed, median, toolErrors);
            && (status == Failed ==> s == 4) && (status == WasKilled ==> s == 2)
            && (ExitFor(status) == Ok ==>
                1 <= s <= 3 && (s == 3 <==> toolErrors.Some? && toolErrors.value >= TOOL_ERROR_FLOOR))
            && (status == Unknown && elapsed == 0 && toolErrors == None ==> s == 1)
  {
  }

  /** The severity of every exit: a run is slow above three times its baseline, and that alone makes a 2. */
  lemma SeverityIs(exit: Exit, elapsed: nat, median: Option<real>, toolErrors: Option<nat>)
    ensures var slow := median.Some? && median.value > 0.0 && elapsed as real > 3.0 * median.value;
            var floor := if slow then 2 else 1;
            ComputeSeverity(exit, elapsed, median, toolErrors) ==
            match exit
            case Ok => if toolErrors.Some? && toolErrors.value >= 3 then 3 else floor
            case Partial => 2
            case Timeout => 3
            case Error => 4
            case Fatal => 4
            case Blocked => 4
            case Killed => 2
  {
  }

  // ---- which rows count ----

  /** A successful run of `agent` that ended before `before` and has a duration. */
  predicate Admissible(r: Row, agent: Agent, before: int) {
    && r.agent == Some(agent) && r.exit == Ok && (r.status == None || r.status == Some(Completed))
    && r.duration.Some? && r.duration.value > 0 && r.ended < before
  }

  function Eligible(t: Table, agent: Option<Agent>, self: Id, before: int): (r: set<Id>)
    ensures r <= t.Keys
  {
    set id | id in t && id != self && agent.Some? && Admissible(t[id], agent.value, before)
  }

  function Later(t: Table, e: set<Id>, id: Id): set<Id>
    requires id in t && e <= t.Keys
  {
    set j | j in e && t[j].ended > t[id].ended
  }

  /** The rows of `e` that fewer than 20 others ended after. */
  function Window(t: Table, e: set<Id>): (r: set<Id>)
    requires e <= t.Keys
    ensures r <= e
  {
    set id | id in e && |Later(t, e, id)| < BASELINE_WINDOW
  }

  function DurationOf(r: Row): nat { if r.duration.Some? then r.duration.value else 0 }

  function Shorter(t: Table, w: set<Id>, v: nat): set<Id>
    requires w <= t.Keys
  {
    set id | id in w && DurationOf(t[id]) < v
  }

  /** `v` is the duration with exactly `k` of `w` before it, in order of duration. */
  ghost predicate Kth(t: Table, w: set<Id>, k: nat, v: nat)
    requires w <= t.Keys
  {
    |Shorter(t, w, v)| <= k < |Shorter(t, w, v + 1)|
  }

  ghost predicate IsMedian(t: Table, w: set<Id>, m: Option<real>)
    requires w <= t.Keys
  {
    if |w| < BASELINE_MIN_SAMPLES then m == None
    else exists a: nat, b: nat :: Middle(t, w, a, b) && m == Some(Half(a + b))
  }

  function Half(n: nat): real { n as real / 2.0 }

  /** The one or two durations in the middle. */
  ghost predicate Middle(t: Table, w: set<Id>, a: nat, b: nat)
    requires w <= t.Keys && w != {}
  {
    Kth(t, w, (|w| - 1) / 2, a) && Kth(t, w, |w| / 2, b)
  }

  /** `m` is the baseline of a run of `agent` that ended at `before`. */
  ghost predicate MedianIs(t: Table, agent: Option<Agent>, self: Id, before: int, m: Option<real>) {
    IsMedian(t, Window(t, Eligible(t, agent, self, before)), m)
  }

  /** Only one duration stands at each rank. */
  lemma KthUnique(t: Table, w: set<Id>, k: nat, v: nat, u: nat)
    requires w <= t.Keys && Kth(t, w, k, v) && Kth(t, w, k, u)
    ensures v == u
  {
    if v < u { SubsetSize(Shorter(t, w, v + 1), Shorter(t, w, u)); }
    if u < v { SubsetSize(Shorter(t, w, u + 1), Shorter(t, w, v)); }
  }

  /** A run has one baseline. */
  lemma MedianUnique(t: Table, w: set<Id>, m: Option<real>, n: Option<real>)
    requires w <= t.Keys && IsMedian(t, w, m) && IsMedian(t, w, n)
    ensures m == n
  {
    if |w| >= BASELINE_MIN_SAMPLES {
      var a: nat, b: nat :| Middle(t, w, a, b) && m == Some(Half(a + b));
      var c: nat, d: nat :| Middle(t, w, c, d) && n == Some((c + d) as real / 2.0);
      KthUnique(t, w, (|w| - 1) / 2, a, c);
      KthUnique(t, w, |w| / 2, b, d);
    }
  }

  /** The baseline depends on nothing but the eligible rows' ends and durations. */
  lemma MedianFrame(t: Table, u: Table, agent: Option<Agent>, self: Id, before: int, m: Option<real>)
    requires Eligible(t, agent, self, before) == Eligible(u, agent, self, before)
    requires forall id | id in Eligible(t, agent, self, before) ::
               t[id].ended == u[id].ended && t[id].duration == u[id].duration
    requires MedianIs(t, agent, self, before, m)
    ensures MedianIs(u, agent, self, before, m)
  {
    var e := Eligible(t, agent, self, before);
    hide Eligible, IsMedian, Window;
    WindowFrame(t, u, e);
    SameMedian(t, u, Window(t, e), m);
  }

  lemma WindowFrame(t: Table, u: Table, e: set<Id>)
    requires e <= t.Keys && e <= u.Keys && forall id | id in e :: t[id].ended == u[id].ended
    ensures Window(t, e) == Window(u, e)
  {
    forall id | id in e
      ensures Later(t, e, id) == Later(u, e, id)
    {
    }
  }

  lemma SameMedian(t: Table, u: Table, w: set<Id>, m: Option<real>)
    requires w <= t.Keys && w <= u.Keys && (forall id | id in w :: t[id].duration == u[id].duration)
             && IsMedian(t, w, m)
    ensures IsMedian(u, w, m)
  {
    forall v: nat
      ensures Shorter(t, w, v) == Shorter(u, w, v)
    {
    }
    hide Shorter;
    if |w| >= BASELINE_MIN_SAMPLES {
      var a: nat, b: nat :| Middle(t, w, a, b) && m == Some(Half(a + b));
      assert Middle(u, w, a, b);
    }
  }

  // ---- the query ----

  /** Admissible runs of one agent end at different times. */
  predicate DistinctEnds(t: Table) {
    forall i, j | i in t && j in t && i != j && Counts(t[i]) && Counts(t[j]) && t[i].agent == t[j].agent ::
      t[i].ended != t[j].ended
  }

  predicate Counts(r: Row) {
    r.agent.Some? && Admissible(r, r.agent.value, r.ended + 1)
  }

  /** What counts for a baseline: a successful run with a duration, scored as completed or never scored. A run that was
      stored with another status, or as another exit, does not. */
  lemma RunsThatCount(r: Row)
    ensures Counts(r) <==>
              && r.agent.Some? && r.duration.Some? && r.duration.value >= 1
              && match r.status
                 case None => r.exit == Ok
                 case Some(s) => s == Completed && r.exit == Ok
    ensures forall agent: Agent, before: int ::
              Admissible(r, agent, before) <==> Counts(r) && r.agent == Some(agent) && r.ended < before
  {
  }

  lemma {:induction false} LastToEnd(t: Table, e: set<Id>) returns (id: Id)
    requires e <= t.Keys && e != {}
    ensures id in e && forall j | j in e :: t[j].ended <= t[id].ended
  {
    var x :| x in e;
    if e == {x} {
      id := x;
    } else {
      id := LastToEnd(t, e - {x});
      if t[x].ended > t[id].ended { id := x; }
    }
  }

  predicate Descending(t: Table, ids: seq<Id>)
  {
    && (forall i | 0 <= i < |ids| :: ids[i] in t)
    && forall i, j | 0 <= i < j < |ids| :: t[ids[i]].ended > t[ids[j]].ended
  }

  lemma DistinctCount(t: Table, ids: seq<Id>)
    requires Descending(t, ids)
    ensures |Elements(ids)| == |ids|
  {
    DistinctSize(ids);
  }

  predicate AllBefore(t: Table, rest: set<Id>, ids: seq<Id>)
    requires rest <= t.Keys
  {
    forall i | 0 <= i < |ids| :: ids[i] in t && forall j | j in rest :: t[j].ended < t[ids[i]].ended
  }

  lemma Picked(t: Table, ids: seq<Id>, rest: set<Id>, id: Id)
    requires rest <= t.Keys && Descending(t, ids) && AllBefore(t, rest, ids) && id in rest
    requires forall j | j in rest && j != id :: t[j].ended < t[id].ended
    ensures Descending(t, ids + [id]) && AllBefore(t, rest - {id}, ids + [id])
    ensures (rest - {id}) + Elements(ids + [id]) == rest + Elements(ids)
  {
  }

  /** The latest rows, newest first, at most 20 of them, are the window. */
  method SelectLatest(t: Table, e: set<Id>) returns (ids: seq<Id>)
    requires e <= t.Keys && forall i, j | i in e && j in e && i != j :: t[i].ended != t[j].ended
    ensures Descending(t, ids) && Elements(ids) == Window(t, e)
  {
    ids := [];
    var rest := e;
    while |ids| < BASELINE_WINDOW && rest != {}
      invariant Descending(t, ids) && |ids| <= BASELINE_WINDOW
      invariant rest <= e && e == rest + Elements(ids) && AllBefore(t, rest, ids)
      decreases |rest|
    {
      hide Descending, AllBefore, Elements;
      ghost var last := LastToEnd(t, rest);
      var id :| id in rest && forall j | j in rest :: t[j].ended <= t[id].ended;
      Picked(t, ids, rest, id);
      ids, rest := ids + [id], rest - {id};
    }
    WindowIs(t, e, ids, rest);
  }

  lemma WindowIs(t: Table, e: set<Id>, ids: seq<Id>, rest: set<Id>)
    requires e <= t.Keys && Descending(t, ids) && |ids| <= BASELINE_WINDOW && (|ids| < BASELINE_WINDOW ==> rest == {})
    requires e == rest + Elements(ids)
    requires AllBefore(t, rest, ids)
    ensures Elements(ids) == Window(t, e)
  {
    forall i | 0 <= i < |ids|
      ensures |Later(t, e, ids[i])| < BASELINE_WINDOW
    {
      DistinctCount(t, ids[..i]);
      assert Later(t, e, ids[i]) <= Elements(ids[..i]);
      SubsetSize(Later(t, e, ids[i]), Elements(ids[..i]));
    }
    forall id | id in rest
      ensures |Later(t, e, id)| >= BASELINE_WINDOW
    {
      DistinctCount(t, ids);
      SubsetSize(Elements(ids), Later(t, e, id));
    }
  }

  // ---- the median of a list ----

  function CountBelow(s: seq<nat>, v: nat): nat {
    if s == [] then 0 else (if s[0] < v then 1 else 0) + CountBelow(s[1..], v)
  }

  predicate Ascending(s: seq<nat>) {
    forall i, j | 0 <= i < j < |s| :: s[i] <= s[j]
  }

  function Insert(s: seq<nat>, x: nat): (r: seq<nat>)
    requires Ascending(s)
    ensures Ascending(r) && |r| == |s| + 1
    ensures forall i | 0 <= i < |r| :: r[i] == x || r[i] in s
    ensures forall v: nat :: CountBelow(r, v) == CountBelow(s, v) + if x < v then 1 else 0
  {
    if s == [] || x <= s[0] then
      assert ([x] + s)[1..] == s;
      [x] + s
    else
      var tail := Insert(s[1..], x);
      assert ([s[0]] + tail)[1..] == tail;
      assert forall i | 0 <= i < |tail| :: s[0] <= tail[i];
      [s[0]] + tail
  }

  function Sorted(s: seq<nat>): (r: seq<nat>)
    ensures Ascending(r) && |r| == |s|
    ensures forall v: nat :: CountBelow(r, v) == CountBelow(s, v)
  {
    if s == [] then [] else Insert(Sorted(s[1..]), s[0])
  }

  /** In ascending order, exactly the entries before rank `k` can be below the one at it. */
  lemma {:induction false} SortedRank(s: seq<nat>, k: nat)
    requires Ascending(s) && k < |s|
    ensures CountBelow(s, s[k]) <= k < CountBelow(s, s[k] + 1)
  {
    if k > 0 {
      SortedRank(s[1..], k - 1);
      assert s[0] <= s[k];
    } else {
      NoneBelow(s, s[0]);
    }
  }

  lemma {:induction false} NoneBelow(s: seq<nat>, v: nat)
    requires forall i | 0 <= i < |s| :: v <= s[i]
    ensures CountBelow(s, v) == 0
  {
    if s != [] { NoneBelow(s[1..], v); }
  }

  function MiddleOf(sorted: seq<nat>): real
    requires sorted != []
  {
    var mid := |sorted| / 2;
    if |sorted| % 2 == 0 then Half(sorted[mid - 1] + sorted[mid]) else sorted[mid] as real
  }

  /** The last 20 samples, none unless there are at least 5. */
  function MedianOf(samples: seq<nat>): Option<real> {
    var valid := if |samples| > BASELINE_WINDOW then samples[|samples| - BASELINE_WINDOW..] else samples;
    if |valid| < BASELINE_MIN_SAMPLES then None else Some(MiddleOf(Sorted(valid)))
  }

  /** Of more than 20 samples only the last 20 count. */
  lemma LastSamples(samples: seq<nat>)
    requires |samples| > 20
    ensures MedianOf(samples) == MedianOf(samples[|samples| - 20..])
  {
  }

  /** Their durations, oldest first. */
  function Durations(t: Table, ids: seq<Id>): (r: seq<nat>)
    requires forall i | 0 <= i < |ids| :: ids[i] in t
    ensures |r| == |ids|
  {
    if ids == [] then [] else [DurationOf(t[ids[|ids| - 1]])] + Durations(t, ids[..|ids| - 1])
  }

  lemma {:induction false} CountDurations(t: Table, ids: seq<Id>, w: set<Id>, v: nat)
    requires Descending(t, ids) && w == Elements(ids) && w <= t.Keys
    ensures CountBelow(Durations(t, ids), v) == |Shorter(t, w, v)|
  {
    if ids != [] {
      var n := |ids| - 1;
      var w' := Elements(ids[..n]);
      assert w == w' + {ids[n]} && ids[n] !in w' && Descending(t, ids[..n]);
      hide Descending, Shorter, Elements;
      CountDurations(t, ids[..n], w', v);
      ShorterPlus(t, w', ids[n], v);
    }
  }

  lemma ShorterPlus(t: Table, w: set<Id>, id: Id, v: nat)
    requires w <= t.Keys && id in t && id !in w
    ensures |Shorter(t, w + {id}, v)| == |Shorter(t, w, v)| + if DurationOf(t[id]) < v then 1 else 0
  {
    assert Shorter(t, w + {id}, v) == Shorter(t, w, v) + if DurationOf(t[id]) < v then {id} else {};
  }

  lemma HalfTwice(n: nat)
    ensures Half(n + n) == n as real
  {
    assert (n + n) as real == n as real + n as real;
  }

  /** Of an odd number of samples both middle ranks are the same one. */
  lemma MiddleRanks(n: nat)
    requires n > 0
    ensures if n % 2 == 0 then (n - 1) / 2 == n / 2 - 1 else (n - 1) / 2 == n / 2
  {
  }

  lemma MiddleOfIs(s: seq<nat>)
    requires s != []
    ensures MiddleOf(s) == Half(s[(|s| - 1) / 2] + s[|s| / 2])
  {
    hide Half;
    MiddleRanks(|s|);
    if |s| % 2 == 1 { HalfTwice(s[|s| / 2]); }
  }

  lemma MedianIntro(t: Table, w: set<Id>, a: nat, b: nat)
    requires w <= t.Keys && |w| >= BASELINE_MIN_SAMPLES && Middle(t, w, a, b)
    ensures IsMedian(t, w, Some(Half(a + b)))
  {
    hide Middle, Half;
  }

  lemma MiddleIs(t: Table, ids: seq<Id>, w: set<Id>, s: seq<nat>)
    requires Descending(t, ids) && w == Elements(ids) && w <= t.Keys && s == Sorted(Durations(t, ids)) && s != []
    ensures w != {} && Middle(t, w, s[(|s| - 1) / 2], s[|s| / 2])
  {
    DistinctCount(t, ids);
    assert |w| == |s|;
    AtRank(t, ids, w, s, (|s| - 1) / 2);
    AtRank(t, ids, w, s, |s| / 2);
  }

  lemma MedianOfDurations(t: Table, ids: seq<Id>, w: set<Id>)
    requires Descending(t, ids) && w == Elements(ids) && w <= t.Keys && |ids| <= BASELINE_WINDOW
    ensures IsMedian(t, w, MedianOf(Durations(t, ids)))
  {
    DistinctCount(t, ids);
    var samples := Durations(t, ids);
    var s := Sorted(samples);
    hide MiddleOf, Half, Descending, Elements, Durations, Kth, Sorted, Ascending, CountBelow;
    if |ids| >= BASELINE_MIN_SAMPLES {
      MiddleOfIs(s);
      MiddleIs(t, ids, w, s);
      MedianIntro(t, w, s[(|s| - 1) / 2], s[|s| / 2]);
    }
  }

  lemma AtRank(t: Table, ids: seq<Id>, w: set<Id>, s: seq<nat>, k: nat)
    requires Descending(t, ids) && w == Elements(ids) && w <= t.Keys && s == Sorted(Durations(t, ids)) && k < |s|
    ensures Kth(t, w, k, s[k])
  {
    hide Descending, Elements, Shorter, Sorted, Insert, CountBelow, Durations, Ascending;
    SortedRank(s, k);
    CountDurations(t, ids, w, s[k]);
    CountDurations(t, ids, w, s[k] + 1);
  }

  lemma EligibleDistinct(t: Table, agent: Option<Agent>, self: Id, before: int)
    requires DistinctEnds(t)
    ensures var e := Eligible(t, agent, self, before);
            forall i, j | i in e && j in e && i != j :: t[i].ended != t[j].ended
  {
    var e := Eligible(t, agent, self, before);
    forall i, j | i in e && j in e && i != j
      ensures t[i].ended != t[j].ended
    {
      assert Counts(t[i]) && Counts(t[j]);
    }
  }

  lemma {:induction false} WindowSize(t: Table, e: set<Id>, ids: seq<Id>)
    requires Descending(t, ids) && e <= t.Keys && Elements(ids) == Window(t, e)
    ensures |ids| <= BASELINE_WINDOW
  {
    if |ids| > BASELINE_WINDOW {
      var k := |ids| - 1;
      DistinctCount(t, ids[..k]);
      assert ids[k] in Window(t, e);
      assert Elements(ids[..k]) <= Later(t, e, ids[k]) by {
        forall i | 0 <= i < k
          ensures ids[i] in Later(t, e, ids[k])
        {
          assert ids[i] in Window(t, e);
        }
      }
      SubsetSize(Elements(ids[..k]), Later(t, e, ids[k]));
    }
  }

  method MedianDurationMsFor(t: Table, agent: Option<Agent>, self: Id, before: int) returns (m: Option<real>)
    requires DistinctEnds(t)
    ensures MedianIs(t, agent, self, before, m)
  {
    EligibleDistinct(t, agent, self, before);
    var e := Eligible(t, agent, self, before);
    var ids := SelectLatest(t, e);
    hide Eligible, Window, IsMedian;
    WindowSize(t, e, ids);
    MedianOfDurations(t, ids, Window(t, e));
    m := MedianOf(Durations(t, ids));
  }
}
