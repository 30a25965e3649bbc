/** The agent-facing private read of the memory store: one agent's own rows, ranked by score. */
module MemoryReads {
  import opened Options
  import opened MemoryStore
  import opened Sets

  const PRIVATE_CANDIDATE_INTERNAL_CAP := 500

  /** A way to rank ids: `ranks(a, b)` says that `a` comes no later than `b`. */
  type Ranking = (nat, nat) -> bool

  ghost predicate IsRanking(ids: set<nat>, ranks: Ranking) {
    && (forall a, b | a in ids && b in ids :: ranks(a, b) || ranks(b, a))
    && forall a, b, c | a in ids && b in ids && c in ids && ranks(a, b) && ranks(b, c) :: ranks(a, c)
  }

  lemma {:induction false} FirstExists(ids: set<nat>, ranks: Ranking) returns (first: nat)
    requires ids != {} && IsRanking(ids, ranks)
    ensures first in ids && forall x | x in ids :: ranks(first, x)
  {
    var x :| x in ids;
    if ids == {x} {
      first := x;
    } else {
      first := FirstExists(ids - {x}, ranks);
      if !ranks(first, x) { first := x; }
    }
  }

  /** The first `n` of `ids` in the order, and nothing that is left out comes before any of them. */
  ghost predicate IsTop(r: seq<nat>, ids: set<nat>, ranks: Ranking, n: nat) {
    && |r| == (if |ids| < n then |ids| else n)
    && (forall i | 0 <= i < |r| :: r[i] in ids)
    && (forall i, j | 0 <= i < j < |r| :: r[i] != r[j] && ranks(r[i], r[j]))
    && forall x, i | x in ids && x !in r && 0 <= i < |r| :: ranks(r[i], x)
  }

  /** `r` is picked, `rest` is not, and nothing in `rest` comes before anything picked. */
  ghost predicate Picked(r: seq<nat>, rest: set<nat>, ids: set<nat>, ranks: Ranking) {
    && rest <= ids && |r| + |rest| == |ids|
    && (forall x | x in ids :: x in rest || x in r)
    && (forall i | 0 <= i < |r| :: r[i] in ids && r[i] !in rest)
    && (forall i, j | 0 <= i < j < |r| :: r[i] != r[j] && ranks(r[i], r[j]))
    && (forall x, i | x in rest && 0 <= i < |r| :: ranks(r[i], x))
  }

  lemma PickNext(r: seq<nat>, rest: set<nat>, ids: set<nat>, ranks: Ranking, id: nat)
    requires Picked(r, rest, ids, ranks) && id in rest && forall x | x in rest :: ranks(id, x)
    ensures Picked(r + [id], rest - {id}, ids, ranks)
  {
  }

  lemma AllPicked(r: seq<nat>, rest: set<nat>, ids: set<nat>, ranks: Ranking, n: nat)
    requires Picked(r, rest, ids, ranks) && |r| <= n && (rest == {} || |r| == n)
    ensures IsTop(r, ids, ranks, n)
  {
  }

  method Top(ids: set<nat>, ranks: Ranking, n: nat) returns (r: seq<nat>)
    requires IsRanking(ids, ranks)
    ensures IsTop(r, ids, ranks, n)
  {
    r := [];
    var rest := ids;
    while rest != {} && |r| < n
      invariant Picked(r, rest, ids, ranks) && rest <= ids && |r| <= n
      decreases |rest|
    {
      ghost var first := FirstExists(rest, ranks);
      var id :| id in rest && forall x | x in rest :: ranks(id, x);
      PickNext(r, rest, ids, ranks, id);
      hide Picked;
      r, rest := r + [id], rest - {id};
    }
    AllPicked(r, rest, ids, ranks, n);
  }

  function Own(d: Db, owner: string): set<nat> {
    set id | id in d.rows && d.rows[id].scope == Private && d.rows[id].owner == Some(owner)
  }

  /** The database's order: salience, then freshness. */
  function Stored(d: Db): Ranking {
    (a, b) => a in d.rows && b in d.rows
              && (d.rows[a].salience > d.rows[b].salience
                  || (d.rows[a].salience == d.rows[b].salience && d.rows[a].updated >= d.rows[b].updated))
  }

  function Scored(d: Db, score: Row -> real): Ranking {
    (a, b) => a in d.rows && b in d.rows && score(d.rows[a]) >= score(d.rows[b])
  }

  /** The rows the database returns: at most 500 of the agent's own, none left out more salient or, where as salient,
      fresher. */
  ghost predicate Fetched(d: Db, owner: string, ids: set<nat>) {
    var own := set id | id in d.rows && d.rows[id].scope == Private && d.rows[id].owner == Some(owner);
    && ids <= own && |ids| == (if |own| < 500 then |own| else 500)
    && forall a, b | a in ids && b in own && b !in ids ::
         d.rows[a].salience > d.rows[b].salience
         || (d.rows[a].salience == d.rows[b].salience && d.rows[a].updated >= d.rows[b].updated)
  }

  /** The `limit` rows of highest score, in that order. */
  ghost predicate Best(d: Db, r: seq<nat>, ids: set<nat>, score: Row -> real, limit: nat)
    requires ids <= d.rows.Keys
  {
    && |r| == (if |ids| < limit then |ids| else limit) && (forall i | 0 <= i < |r| :: r[i] in ids)
    && (forall i, j | 0 <= i < j < |r| :: r[i] != r[j] && score(d.rows[r[i]]) >= score(d.rows[r[j]]))
    && forall id, i | id in ids && id !in r && 0 <= i < |r| :: score(d.rows[r[i]]) >= score(d.rows[id])
  }

  /** No other agent's row is ever returned. Of the rows fetched, the best come in order of score, `limit` at most;
      while the agent has no more rows than the internal cap, these are all its rows. An empty name is an error. */
  method GetPrivateCandidates(d: Db, owner: string, limit: nat, score: Row -> real)
    returns (r: Option<seq<nat>>, ghost fetched: set<nat>)
    ensures r == None <==> owner == ""
    ensures r.Some? ==> Fetched(d, owner, fetched) && Best(d, r.value, fetched, score, limit)
    ensures r.Some? && |Own(d, owner)| <= 500 ==> fetched == Own(d, owner)
  {
    fetched := {};
    if owner == "" { return None, {}; }
    StoredRanks(d, Own(d, owner));
    hide Stored, Scored, IsTop, IsRanking, Own, Fetched, Best;
    var stored := Top(Own(d, owner), Stored(d), PRIVATE_CANDIDATE_INTERNAL_CAP);
    fetched := Elements(stored);
    StoredFetched(d, owner, stored);
    ScoredRanks(d, fetched, score);
    var ranked := Top(Elements(stored), Scored(d, score), limit);
    InOrder(d, fetched, score, limit, ranked);
    r := Some(ranked);
  }

  lemma StoredRanks(d: Db, ids: set<nat>)
    requires ids <= d.rows.Keys
    ensures IsRanking(ids, Stored(d))
  {
  }

  lemma ScoredRanks(d: Db, ids: set<nat>, score: Row -> real)
    requires ids <= d.rows.Keys
    ensures IsRanking(ids, Scored(d, score))
  {
  }

  lemma StoredFetched(d: Db, owner: string, stored: seq<nat>)
    requires IsTop(stored, Own(d, owner), Stored(d), PRIVATE_CANDIDATE_INTERNAL_CAP)
    ensures Elements(stored) <= d.rows.Keys && Fetched(d, owner, Elements(stored))
    ensures |Own(d, owner)| <= 500 ==> Elements(stored) == Own(d, owner)
  {
    var own := Own(d, owner);
    DistinctSize(stored);
    assert own == set id | id in d.rows && d.rows[id].scope == Private && d.rows[id].owner == Some(owner);
    hide Own;
    if |own| <= 500 { SameSize(Elements(stored), own); }
  }

  lemma InOrder(d: Db, ids: set<nat>, score: Row -> real, limit: nat, r: seq<nat>)
    requires ids <= d.rows.Keys && IsTop(r, ids, Scored(d, score), limit)
    ensures Best(d, r, ids, score, limit)
  {
  }
}
