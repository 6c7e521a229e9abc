/** The canonical map of the deduplicator: `m[i]` is UNPROCESSED, IN_PROGRESS,
    i itself when i is canonical, or the next id on the way to i's canonical type. */
module CanonicalMap {
  import opened BtfTypes

  predicate IsMapped(m: seq<nat>, i: TypeId)
    requires i < |m|
  {
    m[i] <= MAX_NR_TYPES
  }

  predicate Linked(m: seq<nat>, i: TypeId)
    requires i < |m|
  {
    IsMapped(m, i) && m[i] != i
  }

  ghost predicate MapOk(m: seq<nat>) {
    && |m| <= MAX_NR_TYPES
    && forall i :: 0 <= i < |m| ==> m[i] < |m| || m[i] == UNPROCESSED_ID || m[i] == IN_PROGRESS_ID
  }

  ghost predicate Ranked(m: seq<nat>, rank: seq<nat>)
    requires MapOk(m)
  {
    && |rank| == |m|
    && forall i :: 0 <= i < |m| && Linked(m, i) ==> rank[m[i]] < rank[i]
  }

  /** Following the map never goes round in a circle. */
  ghost predicate Forest(m: seq<nat>) {
    MapOk(m) && exists rank :: Ranked(m, rank)
  }

  ghost function RankedRoot(m: seq<nat>, rank: seq<nat>, i: TypeId): (r: TypeId)
    requires MapOk(m) && Ranked(m, rank) && i < |m|
    ensures r < |m| && !Linked(m, r)
    ensures rank[r] <= rank[i]
    decreases rank[i]
  {
    if Linked(m, i) then RankedRoot(m, rank, m[i]) else i
  }

  /** The id at which following the map from i stops. */
  ghost function Root(m: seq<nat>, i: TypeId): (r: TypeId)
    requires Forest(m) && i < |m|
    ensures r < |m| && !Linked(m, r)
  {
    var rank :| Ranked(m, rank);
    RankedRoot(m, rank, i)
  }

  lemma {:induction false} RankIrrelevant(m: seq<nat>, r1: seq<nat>, r2: seq<nat>, i: TypeId)
    requires MapOk(m) && Ranked(m, r1) && Ranked(m, r2) && i < |m|
    ensures RankedRoot(m, r1, i) == RankedRoot(m, r2, i)
    decreases r1[i]
  {
    if Linked(m, i) {
      RankIrrelevant(m, r1, r2, m[i]);
    }
  }

  lemma RootStep(m: seq<nat>, i: TypeId)
    requires Forest(m) && i < |m|
    ensures Linked(m, i) ==> Root(m, i) == Root(m, m[i])
    ensures !Linked(m, i) ==> Root(m, i) == i
  {
    var rank: seq<nat> :| Ranked(m, rank) && Root(m, i) == RankedRoot(m, rank, i);
    if Linked(m, i) {
      var rank': seq<nat> :| Ranked(m, rank') && Root(m, m[i]) == RankedRoot(m, rank', m[i]);
      RankIrrelevant(m, rank, rank', m[i]);
    }
  }

  ghost function Follow(m: seq<nat>, i: TypeId, steps: nat): (r: TypeId)
    requires MapOk(m) && i < |m|
    ensures r < |m|
    decreases steps
  {
    if steps == 0 || !Linked(m, i) then i else Follow(m, m[i], steps - 1)
  }

  /** Following links from i comes to an end within so many steps. */
  ghost predicate StopsWithin(m: seq<nat>, i: TypeId, steps: nat)
    requires MapOk(m) && i < |m|
  {
    !Linked(m, Follow(m, i, steps))
  }

  ghost predicate Stops(m: seq<nat>, i: TypeId)
    requires MapOk(m) && i < |m|
  {
    exists steps :: StopsWithin(m, i, steps)
  }

  /** The links followed within so many steps. */
  ghost function Links(m: seq<nat>, i: TypeId, steps: nat): nat
    requires MapOk(m) && i < |m|
    decreases steps
  {
    if steps == 0 || !Linked(m, i) then 0 else 1 + Links(m, m[i], steps - 1)
  }

  lemma StopsNext(m: seq<nat>, i: TypeId, steps: nat)
    requires MapOk(m) && i < |m| && Linked(m, i) && StopsWithin(m, i, steps)
    ensures steps > 0 && StopsWithin(m, m[i], steps - 1) && Links(m, i, steps) == 1 + Links(m, m[i], steps - 1)
  {
  }

  lemma {:induction false} LinksAgree(m: seq<nat>, i: TypeId, a: nat, b: nat)
    requires MapOk(m) && i < |m| && StopsWithin(m, i, a) && StopsWithin(m, i, b)
    ensures Links(m, i, a) == Links(m, i, b)
    decreases a
  {
    if Linked(m, i) {
      LinksAgree(m, m[i], a - 1, b - 1);
    }
  }

  /** The ids below n are n many. */
  lemma {:induction false} IdsBelow(ids: set<TypeId>, n: nat)
    requires forall x :: x in ids ==> x < n
    ensures |ids| <= n
    decreases n
  {
    if n > 0 {
      IdsBelow(ids - {n - 1}, n - 1);
      assert ids <= (ids - {n - 1}) + {n - 1};
    }
  }

  lemma {:induction false} FollowVisits(m: seq<nat>, rank: seq<nat>, i: TypeId) returns (steps: nat, visited: set<TypeId>)
    requires MapOk(m) && Ranked(m, rank) && i < |m|
    ensures Follow(m, i, steps) == RankedRoot(m, rank, i)
    ensures |visited| == steps + 1 && forall x :: x in visited ==> x < |m| && rank[x] <= rank[i]
    decreases rank[i]
  {
    if Linked(m, i) {
      var s, v := FollowVisits(m, rank, m[i]);
      steps, visited := s + 1, v + {i};
    } else {
      steps, visited := 0, {i};
    }
  }

  /** In a forest, following links reaches the root in fewer steps than there are types ... */
  lemma FollowStops(m: seq<nat>, i: TypeId) returns (steps: nat)
    requires Forest(m) && i < |m|
    ensures steps < |m| && Follow(m, i, steps) == Root(m, i)
  {
    var rank: seq<nat> :| Ranked(m, rank) && Root(m, i) == RankedRoot(m, rank, i);
    var visited;
    steps, visited := FollowVisits(m, rank, i);
    IdsBelow(visited, |m|);
  }

  /** ... and a map on which following links always comes to an end is a forest. */
  lemma StoppingIsForest(m: seq<nat>)
    requires MapOk(m) && forall i :: 0 <= i < |m| ==> Stops(m, i)
    ensures Forest(m)
  {
    var rank: seq<nat> := seq(|m|, i requires 0 <= i < |m| => LinksToEnd(m, i));
    forall i | 0 <= i < |m| && Linked(m, i)
      ensures rank[m[i]] < rank[i]
    {
      var steps, more := StepsToEnd(m, i), StepsToEnd(m, m[i]);
      StopsNext(m, i, steps);
      LinksAgree(m, m[i], more, steps - 1);
    }
    assert Ranked(m, rank);
  }

  ghost function StepsToEnd(m: seq<nat>, i: TypeId): (steps: nat)
    requires MapOk(m) && i < |m| && Stops(m, i)
    ensures StopsWithin(m, i, steps)
  {
    var steps: nat :| StopsWithin(m, i, steps);
    steps
  }

  ghost function LinksToEnd(m: seq<nat>, i: TypeId): nat
    requires MapOk(m) && i < |m| && Stops(m, i)
  {
    Links(m, i, StepsToEnd(m, i))
  }

  // ------------------------------------------------------------------
  // The two ways the passes change the map
  // ------------------------------------------------------------------

  /** Any id may be pointed at a stopping point other than itself. */
  lemma LinkToTerminal(m: seq<nat>, from: TypeId, to: TypeId)
    requires Forest(m) && from < |m| && to < |m|
    requires !Linked(m, to) && from != to
    ensures Forest(m[from := to])
  {
    var rank: seq<nat> :| Ranked(m, rank);
    var rank' := seq(|m|, i requires 0 <= i < |m| => if i == to then 0 else rank[i] + 1);
    var m' := m[from := to];
    forall i | 0 <= i < |m'| && Linked(m', i)
      ensures rank'[m'[i]] < rank'[i]
    {
      assert i != to;
      if i != from {
        assert Linked(m, i);
      }
    }
    assert Ranked(m', rank');
  }

  /** A stopping point may be pointed at any id that does not lead back to it. */
  lemma LinkFromTerminal(m: seq<nat>, from: TypeId, to: TypeId)
    requires Forest(m) && from < |m| && to < |m|
    requires !Linked(m, from) && Root(m, to) != from
    ensures Forest(m[from := to])
  {
    var rank: seq<nat> :| Ranked(m, rank);
    var rank' := seq(|m|, i requires 0 <= i < |m| =>
      rank[i] + if Root(m, i) == from then rank[to] + 1 else 0);
    var m' := m[from := to];
    RootStep(m, from);
    forall i | 0 <= i < |m'| && Linked(m', i)
      ensures rank'[m'[i]] < rank'[i]
    {
      if i != from {
        assert Linked(m, i);
        RootStep(m, i);
      }
    }
    assert Ranked(m', rank');
  }

  lemma {:induction false} RankedLinkJoins(m: seq<nat>, rank: seq<nat>, from: TypeId, to: TypeId, x: TypeId)
    requires MapOk(m) && Ranked(m, rank) && from < |m| && to < |m| && x < |m|
    requires !Linked(m, from) && !Linked(m, to) && from != to && Forest(m[from := to])
    ensures Root(m[from := to], x) == if RankedRoot(m, rank, x) == from then to else RankedRoot(m, rank, x)
    decreases rank[x]
  {
    var m' := m[from := to];
    RootStep(m', x);
    RootStep(m', to);
    if Linked(m, x) {
      RankedLinkJoins(m, rank, from, to, m[x]);
    }
  }

  /** Pointing one stopping point at another joins the two trees, and leaves every
      other tree alone. */
  lemma LinkJoins(m: seq<nat>, from: TypeId, to: TypeId, x: TypeId)
    requires Forest(m) && from < |m| && to < |m| && x < |m|
    requires !Linked(m, from) && !Linked(m, to) && from != to && Forest(m[from := to])
    ensures Root(m[from := to], x) == if Root(m, x) == from then to else Root(m, x)
  {
    var rank: seq<nat> :| Ranked(m, rank) && Root(m, x) == RankedRoot(m, rank, x);
    RankedLinkJoins(m, rank, from, to, x);
  }
}
