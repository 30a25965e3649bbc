/** The bounded list of recent thread events, the snapshot cut from it, and why a client that appends every
    frame always holds the current snapshot. */
module ThreadRing {

  const SNAPSHOT_MAX_EVENTS := 200
  const SNAPSHOT_MAX_BYTES := 200 * 1024

  /** A parsed event; `size` is the length of its JSON form. */
  datatype ThreadEvent = ThreadEvent(id: int, size: nat)

  /** The last `n` events. */
  function Last(evs: seq<ThreadEvent>, n: nat): (r: seq<ThreadEvent>)
    ensures |r| == if |evs| <= n then |evs| else n
    ensures IsSuffix(r, evs)
  {
    if |evs| <= n then evs else evs[|evs| - n..]
  }

  predicate IsSuffix(a: seq<ThreadEvent>, b: seq<ThreadEvent>) {
    |a| <= |b| && b[|b| - |a|..] == a
  }

  /** Length of the JSON array of `evs`. */
  function Encoded(evs: seq<ThreadEvent>): nat {
    if evs == [] then 2 else if |evs| == 1 then evs[0].size + 2 else evs[0].size + 1 + Encoded(evs[1..])
  }

  /** Drops the oldest events until the rest fits; a single event is kept however long. */
  function Trim(evs: seq<ThreadEvent>): (r: seq<ThreadEvent>)
    ensures IsSuffix(r, evs) && (|r| > 1 ==> Encoded(r) <= SNAPSHOT_MAX_BYTES)
  {
    if |evs| > 1 && Encoded(evs) > SNAPSHOT_MAX_BYTES then Trim(evs[1..]) else evs
  }

  function SnapshotOf(ring: seq<ThreadEvent>): (r: seq<ThreadEvent>) {
    Trim(Last(ring, SNAPSHOT_MAX_EVENTS))
  }

  method SnapshotEvents(ring: seq<ThreadEvent>) returns (evs: seq<ThreadEvent>)
    ensures evs == SnapshotOf(ring)
  {
    evs := Last(ring, SNAPSHOT_MAX_EVENTS);
    var bytes: int := Encoded(evs);
    while |evs| > 1 && bytes > SNAPSHOT_MAX_BYTES
      invariant bytes == Encoded(evs) && Trim(evs) == SnapshotOf(ring)
      decreases |evs|
    {
      bytes := bytes - (evs[0].size + 1);
      evs := evs[1..];
    }
  }

  method PushRing(ring: seq<ThreadEvent>, evs: seq<ThreadEvent>) returns (r: seq<ThreadEvent>)
    ensures r == Last(ring + evs, SNAPSHOT_MAX_EVENTS)
  {
    r := ring + evs;
    if |r| > SNAPSHOT_MAX_EVENTS { r := r[|r| - SNAPSHOT_MAX_EVENTS..]; }
  }

  /** Trimming keeps as much as fits: any suffix that fits is no longer than what is kept. */
  lemma {:induction false} TrimKeepsMost(evs: seq<ThreadEvent>, s: seq<ThreadEvent>)
    requires IsSuffix(s, evs) && (|s| > 1 ==> Encoded(s) <= SNAPSHOT_MAX_BYTES)
    ensures |s| <= |Trim(evs)|
  {
    if |evs| > 1 && Encoded(evs) > SNAPSHOT_MAX_BYTES {
      assert |s| == |evs| ==> s == evs;
      if |s| < |evs| {
        assert evs[1..][|evs| - 1 - |s|..] == evs[|evs| - |s|..];
        TrimKeepsMost(evs[1..], s);
      }
    }
  }

  lemma {:induction false} EncodedGrows(a: seq<ThreadEvent>, b: seq<ThreadEvent>)
    requires a != []
    ensures Encoded(a) <= Encoded(a + b)
  {
    if b == [] {
      assert a + b == a;
    } else if |a| == 1 {
      assert (a + b)[1..] == b && (a + b)[0] == a[0];
      AtLeastTwo(b);
    } else {
      assert (a + b)[1..] == a[1..] + b;
      EncodedGrows(a[1..], b);
    }
  }

  lemma {:induction false} AtLeastTwo(evs: seq<ThreadEvent>)
    ensures Encoded(evs) >= 2
  {
    if |evs| > 1 { AtLeastTwo(evs[1..]); }
  }

  /** A suffix of a suffix. */
  lemma SuffixShift(a: seq<ThreadEvent>, b: seq<ThreadEvent>, c: seq<ThreadEvent>)
    requires IsSuffix(b, c)
    ensures IsSuffix(a, b) ==> IsSuffix(a, c)
    ensures IsSuffix(a, c) && |a| <= |b| ==> IsSuffix(a, b)
  {
    if |a| <= |b| {
      assert c[|c| - |b|..][|b| - |a|..] == c[|c| - |a|..];
    }
  }

  lemma SuffixAppend(a: seq<ThreadEvent>, b: seq<ThreadEvent>, e: seq<ThreadEvent>)
    requires IsSuffix(a, b)
    ensures IsSuffix(a + e, b + e)
  {
  }

  lemma SuffixOfConcat(ring: seq<ThreadEvent>, evs: seq<ThreadEvent>, s: seq<ThreadEvent>)
    requires IsSuffix(s, ring + evs) && |evs| <= |s|
    ensures IsSuffix(s[..|s| - |evs|], ring) && s == s[..|s| - |evs|] + evs
  {
    var n := |s| - |evs|;
    var all := ring + evs;
    assert s == all[|ring| - n..];
    assert s[..n] == all[|ring| - n..|ring|] == ring[|ring| - n..];
    assert s[n..] == all[|ring|..] == evs;
  }

  /** The part of a later snapshot that precedes the new events already fitted into the earlier snapshot. */
  lemma OldPart(ring: seq<ThreadEvent>, evs: seq<ThreadEvent>, s: seq<ThreadEvent>)
    requires IsSuffix(s, ring + evs) && |evs| < |s| <= SNAPSHOT_MAX_EVENTS
             && (|s| > 1 ==> Encoded(s) <= SNAPSHOT_MAX_BYTES)
    ensures |s| - |evs| <= |SnapshotOf(ring)|
  {
    var t := s[..|s| - |evs|];
    SuffixOfConcat(ring, evs, s);
    EncodedGrows(t, evs);
    SuffixShift(t, Last(ring, SNAPSHOT_MAX_EVENTS), ring);
    hide IsSuffix, Encoded;
    TrimKeepsMost(Last(ring, SNAPSHOT_MAX_EVENTS), t);
  }

  /** The next snapshot reaches no further back than the previous one did: despite both trims, it is a suffix
      of the previous snapshot followed by the new events. */
  lemma SnapshotAdvances(ring: seq<ThreadEvent>, evs: seq<ThreadEvent>)
    ensures IsSuffix(SnapshotOf(Last(ring + evs, SNAPSHOT_MAX_EVENTS)), SnapshotOf(ring) + evs)
  {
    var s, ring' := SnapshotOf(ring), Last(ring + evs, SNAPSHOT_MAX_EVENTS);
    var s' := SnapshotOf(ring');
    assert Last(ring', SNAPSHOT_MAX_EVENTS) == ring';
    SuffixShift(s', ring', ring + evs);
    if |s'| > |evs| { OldPart(ring, evs, s'); }
    hide IsSuffix, Trim, Last, Encoded;
    SuffixShift(s, Last(ring, SNAPSHOT_MAX_EVENTS), ring);
    SuffixAppend(s, ring, evs);
    SuffixShift(s', s + evs, ring + evs);
  }

  /** A client that holds the current snapshot as the end of its list still does after appending the new
      events. */
  lemma ClientFollows(held: seq<ThreadEvent>, ring: seq<ThreadEvent>, evs: seq<ThreadEvent>)
    requires IsSuffix(SnapshotOf(ring), held)
    ensures IsSuffix(SnapshotOf(Last(ring + evs, SNAPSHOT_MAX_EVENTS)), held + evs)
  {
    SnapshotAdvances(ring, evs);
    SuffixAppend(SnapshotOf(ring), held, evs);
    SuffixShift(SnapshotOf(Last(ring + evs, SNAPSHOT_MAX_EVENTS)), SnapshotOf(ring) + evs, held + evs);
  }
}
