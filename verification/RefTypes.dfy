/** The reference pass: hash-consing of pointers, typedefs, arrays, prototypes and
    modifiers once everything they can end in has its canonical type. */
module RefTypes {
  import opened BtfTypes
  import opened CanonicalMap
  import opened Equivalence
  import opened CanonicalIndex
  import opened ForwardDecls
  import H = HashMap

  /** Primitive types and structs are settled; what is unprocessed is a reference
      type as it was given; processed reference types outside the base point only
      at canonical types. */
  ghost predicate RefPhase(orig: seq<BtfType>, types: seq<BtfType>, m: seq<nat>, start: TypeId) {
    && |orig| == |types| == |m| && MapOk(m) && TargetsMapped(m)
    && (forall i :: start <= i < |m| ==> types[i].info.kind != Unknown)
    && (forall i :: 0 <= i < |m| && !IsMapped(m, i) ==> start <= i && IsRefKind(types[i].info.kind))
    && (forall i :: 0 <= i < |m| && (i < start || m[i] == UNPROCESSED_ID) ==> types[i] == orig[i])
    && (forall i :: 0 <= i < |m| && !IsRefKind(types[i].info.kind) ==> types[i] == orig[i])
    && (forall i, j :: start <= i < |m| && IsRefKind(types[i].info.kind) && IsMapped(m, i)
                         && 0 <= j < |types[i].refs| && j < |orig[i].refs|
          ==> Leads(m, orig[i].refs[j], types[i].refs[j]))
  }

  /** r is the canonical type of the processed type a. */
  ghost predicate Leads(m: seq<nat>, a: TypeId, r: TypeId) {
    Forest(m) && a < |m| && IsMapped(m, a) && r == Root(m, a) && m[r] == r
  }

  lemma {:induction false} RankedRootStable(m: seq<nat>, rank: seq<nat>, m': seq<nat>, a: TypeId)
    requires MapOk(m) && Ranked(m, rank) && TargetsMapped(m) && a < |m| && IsMapped(m, a)
    requires Forest(m') && |m'| == |m| && forall i :: 0 <= i < |m| && IsMapped(m, i) ==> m'[i] == m[i]
    ensures Root(m', a) == RankedRoot(m, rank, a)
    ensures IsMapped(m, RankedRoot(m, rank, a))
    decreases rank[a]
  {
    RootStep(m', a);
    if Linked(m, a) {
      RankedRootStable(m, rank, m', m[a]);
    }
  }

  /** Canonical types found so far are not disturbed by processing further types. */
  lemma LeadsStable(m: seq<nat>, m': seq<nat>, a: TypeId, r: TypeId)
    requires Leads(m, a, r) && TargetsMapped(m)
    requires Forest(m') && |m'| == |m| && forall i :: 0 <= i < |m| && IsMapped(m, i) ==> m'[i] == m[i]
    ensures Leads(m', a, r)
  {
    var rank: seq<nat> :| Ranked(m, rank) && Root(m, a) == RankedRoot(m, rank, a);
    RankedRootStable(m, rank, m', a);
  }

  ghost function Unprocessed(m: seq<nat>): set<TypeId> {
    set i | 0 <= i < |m| && m[i] == UNPROCESSED_ID
  }

  /** What a call may change: only what was unprocessed, and that ends up processed
      or untouched; apart from that only the record of `own`. */
  ghost predicate RefFrame(types: seq<BtfType>, m: seq<nat>, types': seq<BtfType>, m': seq<nat>, own: TypeId) {
    && |types| == |types'| == |m| == |m'|
    && (forall i :: 0 <= i < |m| && m[i] != UNPROCESSED_ID ==> m'[i] == m[i])
    && (forall i :: 0 <= i < |m| && m[i] != UNPROCESSED_ID && i != own ==> types'[i] == types[i])
    && (forall i :: 0 <= i < |m| && m[i] == UNPROCESSED_ID ==> m'[i] == UNPROCESSED_ID || IsMapped(m', i))
  }

  lemma RefFrameNone(types: seq<BtfType>, m: seq<nat>, own: TypeId)
    requires |types| == |m|
    ensures RefFrame(types, m, types, m, own)
  {
  }

  lemma RefFrameShrinks(types: seq<BtfType>, m: seq<nat>, types': seq<BtfType>, m': seq<nat>, own: TypeId)
    requires RefFrame(types, m, types', m', own)
    ensures Unprocessed(m') <= Unprocessed(m)
  {
  }

  lemma RefFrameTransitive(t0: seq<BtfType>, m0: seq<nat>, t1: seq<BtfType>, m1: seq<nat>, t2: seq<BtfType>, m2: seq<nat>, own: TypeId)
    requires RefFrame(t0, m0, t1, m1, own) && RefFrame(t1, m1, t2, m2, own)
    ensures RefFrame(t0, m0, t2, m2, own)
  {
    forall i | 0 <= i < |m0| && m0[i] == UNPROCESSED_ID
      ensures m2[i] == UNPROCESSED_ID || IsMapped(m2, i)
    {
      assert m1[i] == UNPROCESSED_ID || IsMapped(m1, i);
    }
  }

  /** The work on `id` as a whole changes only what was unprocessed before. */
  lemma RefFrameWhole(t0: seq<BtfType>, m0: seq<nat>, t1: seq<BtfType>, m1: seq<nat>, id: TypeId, newId: TypeId, own: TypeId)
    requires id < |m0| && m0[id] == UNPROCESSED_ID && newId < |m0| <= MAX_NR_TYPES
    requires RefFrame(t0, m0[id := IN_PROGRESS_ID], t1, m1, id)
    ensures RefFrame(t0, m0, t1, m1[id := newId], own)
  {
    var m' := m1[id := newId];
    forall i | 0 <= i < |m0| && m0[i] == UNPROCESSED_ID
      ensures m'[i] == UNPROCESSED_ID || IsMapped(m', i)
    {
      assert i != id ==> m1[i] == UNPROCESSED_ID || IsMapped(m1, i);
    }
  }

  /** Entering a reference type: it is marked before its references are visited. */
  lemma Enter(orig: seq<BtfType>, types: seq<BtfType>, m: seq<nat>, filed: set<TypeId>, start: TypeId, id: TypeId)
    requires Invariant(orig, types, m, filed, start) && RefPhase(orig, types, m, start)
    requires id < |m| && m[id] == UNPROCESSED_ID
    ensures Invariant(orig, types, m[id := IN_PROGRESS_ID], filed, start)
    ensures RefPhase(orig, types, m[id := IN_PROGRESS_ID], start)
    ensures Unprocessed(m[id := IN_PROGRESS_ID]) < Unprocessed(m)
    ensures id !in filed
  {
    MarkInProgress(orig, types, m, filed, start, id);
    InvariantForest(orig, types, m[id := IN_PROGRESS_ID], filed, start);
    EnterPhase(orig, types, m, start, id);
    InvariantFacts(orig, types, m, filed, start);
    assert id in Unprocessed(m) && id !in Unprocessed(m[id := IN_PROGRESS_ID]);
  }

  lemma EnterPhase(orig: seq<BtfType>, types: seq<BtfType>, m: seq<nat>, start: TypeId, id: TypeId)
    requires RefPhase(orig, types, m, start)
    requires id < |m| && m[id] == UNPROCESSED_ID
    requires Forest(m[id := IN_PROGRESS_ID])
    ensures RefPhase(orig, types, m[id := IN_PROGRESS_ID], start)
  {
    var m' := m[id := IN_PROGRESS_ID];
    forall i | 0 <= i < |m'|
      ensures IsMapped(m', i) <==> IsMapped(m, i)
    {
    }
    forall i, j | start <= i < |m'| && IsRefKind(types[i].info.kind) && IsMapped(m', i)
                    && 0 <= j < |types[i].refs| && j < |orig[i].refs|
      ensures Leads(m', orig[i].refs[j], types[i].refs[j])
    {
      LeadsStable(m, m', orig[i].refs[j], types[i].refs[j]);
    }
    forall i | 0 <= i < |m'| && Linked(m', i)
      ensures IsMapped(m', m'[i])
    {
      assert Linked(m, i);
    }
  }

  /** Replace reference j of `id` by r. */
  function Rewrite(types: seq<BtfType>, id: TypeId, j: nat, r: TypeId): seq<BtfType>
    requires id < |types| && j < |types[id].refs|
  {
    types[id := types[id].(refs := types[id].refs[j := r])]
  }

  lemma RewriteKeeps(orig: seq<BtfType>, types: seq<BtfType>, m: seq<nat>, filed: set<TypeId>, start: TypeId, id: TypeId, j: nat, r: TypeId)
    requires Invariant(orig, types, m, filed, start)
    requires id < |m| && m[id] == IN_PROGRESS_ID && j < |types[id].refs| && r < |m|
    requires j < |orig[id].refs| && MergeOk(orig, orig[id].refs[j], r)
    ensures Invariant(orig, Rewrite(types, id, j, r), m, filed, start)
  {
    InvariantFacts(orig, types, m, filed, start);
    var types' := Rewrite(types, id, j, r);
    RewriteGraph(types, id, j, r);
    TracksRewrite(orig, types, id, j, r);
    hide GraphOk;
    hide Tracks;
    hide LinksOk;
    hide Forest;
    hide Invariant;
    FiledRewrite(types, types', m, filed, start, id);
    InvariantFacts(orig, types', m, filed, start);
  }

  lemma RewriteGraph(types: seq<BtfType>, id: TypeId, j: nat, r: TypeId)
    requires GraphOk(types) && id < |types| && j < |types[id].refs| && r < |types|
    ensures GraphOk(Rewrite(types, id, j, r))
  {
    var types' := Rewrite(types, id, j, r);
    assert WellFormed(types'[id]);
    assert forall i :: 0 <= i < |types| && i != id ==> types'[i] == types[i];
  }

  /** A type in progress is not canonical, so rewriting it does not concern the index. */
  lemma FiledRewrite(types: seq<BtfType>, types': seq<BtfType>, m: seq<nat>, filed: set<TypeId>, start: TypeId, id: TypeId)
    requires |m| == |types| == |types'| <= MAX_NR_TYPES && id < |m| && m[id] == IN_PROGRESS_ID
    requires forall i :: 0 <= i < |types| && i != id ==> types'[i] == types[i]
    requires FiledOk(types, m, filed) && FiledComplete(types, m, filed) && NoDuplicates(types, m, start)
    ensures FiledOk(types', m, filed) && FiledComplete(types', m, filed) && NoDuplicates(types', m, start)
  {
    assert !IsMapped(m, id);
  }

  lemma TracksRewrite(orig: seq<BtfType>, types: seq<BtfType>, id: TypeId, j: nat, r: TypeId)
    requires GraphOk(orig) && GraphOk(types) && Tracks(orig, types)
    requires id < |types| && j < |types[id].refs| && r < |types| && j < |orig[id].refs|
    requires MergeOk(orig, orig[id].refs[j], r)
    requires GraphOk(Rewrite(types, id, j, r))
    ensures Tracks(orig, Rewrite(types, id, j, r))
  {
    var types' := Rewrite(types, id, j, r);
    assert Shape(types'[id]) == Shape(types[id]);
    forall a, b | 0 <= a < |orig| && 0 <= b < |orig[a].refs| && b < |types'[a].refs|
      ensures MergeOk(orig, orig[a].refs[b], types'[a].refs[b])
    {
      if a == id && b == j {
      } else {
        assert types'[a].refs[b] == types[a].refs[b];
      }
    }
  }

  lemma RewriteRefPhase(orig: seq<BtfType>, types: seq<BtfType>, m: seq<nat>, start: TypeId, id: TypeId, j: nat, r: TypeId)
    requires RefPhase(orig, types, m, start)
    requires id < |m| && m[id] == IN_PROGRESS_ID && j < |types[id].refs|
    ensures RefPhase(orig, Rewrite(types, id, j, r), m, start)
  {
    var types' := Rewrite(types, id, j, r);
    assert types'[id].info == types[id].info;
    assert forall i :: 0 <= i < |types| && i != id ==> types'[i] == types[i];
  }

  /** The first n references of `id` have been replaced by their canonical types. */
  ghost predicate Resolving(orig: seq<BtfType>, types: seq<BtfType>, m: seq<nat>, id: TypeId, n: nat) {
    && |orig| == |types| == |m| && id < |m| && m[id] == IN_PROGRESS_ID
    && types[id].info == orig[id].info && |types[id].refs| == |orig[id].refs|
    && (forall j :: 0 <= j < n && j < |types[id].refs| ==> Leads(m, orig[id].refs[j], types[id].refs[j]))
    && (forall j :: n <= j < |types[id].refs| ==> types[id].refs[j] == orig[id].refs[j])
  }

  lemma ResolvingFrame(orig: seq<BtfType>, t1: seq<BtfType>, m1: seq<nat>, t2: seq<BtfType>, m2: seq<nat>, id: TypeId, n: nat)
    requires MapOk(m1) && TargetsMapped(m1) && Forest(m2) && Resolving(orig, t1, m1, id, n)
    requires RefFrame(t1, m1, t2, m2, |m1|)
    ensures Resolving(orig, t2, m2, id, n)
  {
    forall j | 0 <= j < n && j < |t2[id].refs|
      ensures Leads(m2, orig[id].refs[j], t2[id].refs[j])
    {
      LeadsStable(m1, m2, orig[id].refs[j], t2[id].refs[j]);
    }
  }

  /** Reference n is replaced by the canonical type of what it was. */
  lemma ResolvingStep(orig: seq<BtfType>, types: seq<BtfType>, m: seq<nat>, filed: set<TypeId>, start: TypeId, id: TypeId, n: nat, r: TypeId)
    requires Invariant(orig, types, m, filed, start) && RefPhase(orig, types, m, start)
    requires Resolving(orig, types, m, id, n) && n < |types[id].refs|
    requires orig[id].refs[n] < |m| && IsMapped(m, orig[id].refs[n])
    requires Forest(m) && r == Root(m, orig[id].refs[n])
    ensures Invariant(orig, Rewrite(types, id, n, r), m, filed, start)
    ensures RefPhase(orig, Rewrite(types, id, n, r), m, start)
    ensures Resolving(orig, Rewrite(types, id, n, r), m, id, n + 1)
  {
    InvariantFacts(orig, types, m, filed, start);
    RootMergeOk(orig, m, orig[id].refs[n]);
    RootCanonical(m, orig[id].refs[n]);
    RewriteKeeps(orig, types, m, filed, start, id, n, r);
    RewriteRefPhase(orig, types, m, start, id, n, r);
  }

  lemma MergedAlike(orig: seq<BtfType>, x: TypeId, y: TypeId, z: TypeId)
    requires GraphOk(orig) && x < |orig| && y < |orig| && z < |orig| && MergeOk(orig, x, y) && MergeOk(orig, z, y)
    ensures AgreeIfClear(orig, x, z)
  {
    hide AgreeIfClear;
    AgreeIfClearSymmetric(orig, z, y);
    AgreeIfClearTransitive(orig, x, y, z);
  }

  /** Two filed-alike reference types mean the same, since their references do. */
  lemma EqualAfterRewriteAgree(orig: seq<BtfType>, types: seq<BtfType>, a: TypeId, b: TypeId)
    requires GraphOk(orig) && GraphOk(types) && Tracks(orig, types) && a < |types| && b < |types|
    requires types[a] == types[b]
    ensures AgreeIfClear(orig, a, b)
  {
    ShapeFacts(orig[a], types[a]);
    ShapeFacts(orig[b], types[b]);
    assert Shape(orig[a]) == Shape(orig[b]);
    if IsDecl(orig[a]) {
      DeclAgrees(orig, a, b);
    } else {
      forall j | 0 <= j < |orig[a].refs|
        ensures AgreeIfClear(orig, orig[a].refs[j], orig[b].refs[j])
      {
        MergedAlike(orig, orig[a].refs[j], types[a].refs[j], orig[b].refs[j]);
      }
      hide Tracks;
      SameShapeIfClear(orig, a, b);
    }
  }

  /** The verdict on a reference type may be recorded. */
  lemma SettleRef(orig: seq<BtfType>, types: seq<BtfType>, m: seq<nat>, filed: set<TypeId>, start: TypeId, id: TypeId, newId: TypeId)
    requires Invariant(orig, types, m, filed, start) && RefPhase(orig, types, m, start)
    requires id < |m| && newId < |m| && m[id] == IN_PROGRESS_ID && IsRefKind(types[id].info.kind)
    requires if newId == id then forall j :: j in filed ==> types[j] != types[id]
             else newId in filed && types[newId] == types[id]
    ensures CanSettle(orig, types, m, filed, start, id, newId)
    ensures newId == id || m[newId] == newId
  {
    hide RefPhase;
    InvariantFacts(orig, types, m, filed, start);
    if newId != id {
      LinkToTerminal(m, id, newId);
      ShapeFacts(orig[id], types[id]);
      ShapeFacts(orig[newId], types[newId]);
      EqualAfterRewriteAgree(orig, types, id, newId);
    }
  }

  /** Leaving a reference type all of whose references are canonical. */
  lemma Leave(orig: seq<BtfType>, types: seq<BtfType>, m: seq<nat>, start: TypeId, id: TypeId, newId: TypeId)
    requires RefPhase(orig, types, m, start)
    requires id < |m| && newId < |m| && m[id] == IN_PROGRESS_ID
    requires newId == id || m[newId] == newId
    requires forall j :: 0 <= j < |types[id].refs| && j < |orig[id].refs| ==> Leads(m, orig[id].refs[j], types[id].refs[j])
    requires Forest(m[id := newId])
    ensures RefPhase(orig, types, m[id := newId], start)
    ensures Root(m[id := newId], id) == newId
  {
    var m' := m[id := newId];
    RootStep(m', id);
    RootStep(m', newId);
    assert MapOk(m');
    forall i | 0 <= i < |m'| && Linked(m', i)
      ensures IsMapped(m', m'[i])
    {
      if i != id {
        assert Linked(m, i);
      }
    }
    assert !IsMapped(m, id);
    forall i, j | start <= i < |m'| && IsRefKind(types[i].info.kind) && IsMapped(m', i)
                    && 0 <= j < |types[i].refs| && j < |orig[i].refs|
      ensures Leads(m', orig[i].refs[j], types[i].refs[j])
    {
      if i != id {
        assert IsMapped(m, i);
      }
      LeadsStable(m, m', orig[i].refs[j], types[i].refs[j]);
    }
    forall i | 0 <= i < |m'| && !IsMapped(m', i)
      ensures start <= i && IsRefKind(types[i].info.kind)
    {
      assert !IsMapped(m, i);
    }
  }

  // ------------------------------------------------------------------
  // Cycles of reference types
  // ------------------------------------------------------------------

  /** No cycle of reference types outside the base, as C demands: every cycle goes
      through a struct or union. */
  ghost predicate RefRanked(orig: seq<BtfType>, start: TypeId, rank: seq<nat>)
    requires GraphOk(orig)
  {
    && |rank| == |orig|
    && forall i, j :: start <= i < |orig| && IsRefKind(orig[i].info.kind) && 0 <= j < |orig[i].refs|
                        && start <= orig[i].refs[j] && IsRefKind(orig[orig[i].refs[j]].info.kind)
         ==> rank[orig[i].refs[j]] < rank[i]
  }

  /** Everything in progress lies strictly above id. */
  ghost predicate Below(m: seq<nat>, rank: seq<nat>, id: TypeId) {
    && |rank| == |m| && id < |m|
    && forall i :: 0 <= i < |m| && m[i] == IN_PROGRESS_ID ==> rank[id] < rank[i]
  }

  /** Processed reference types were finished after the reference types they use. */
  ghost predicate Stamped(orig: seq<BtfType>, m: seq<nat>, start: TypeId, stamp: seq<nat>, clock: nat)
    requires GraphOk(orig)
  {
    && |stamp| == |m| == |orig|
    && (forall i :: 0 <= i < |m| ==> stamp[i] <= clock)
    && forall i, j :: start <= i < |m| && IsRefKind(orig[i].info.kind) && IsMapped(m, i) && 0 <= j < |orig[i].refs|
                        && start <= orig[i].refs[j] && IsRefKind(orig[orig[i].refs[j]].info.kind)
         ==> IsMapped(m, orig[i].refs[j]) && stamp[orig[i].refs[j]] < stamp[i]
  }

  lemma Stamp(orig: seq<BtfType>, m: seq<nat>, start: TypeId, stamp: seq<nat>, clock: nat, id: TypeId, newId: TypeId)
    requires GraphOk(orig) && Stamped(orig, m, start, stamp, clock)
    requires id < |m| && !IsMapped(m, id) && newId < |m| <= MAX_NR_TYPES
    requires forall j :: 0 <= j < |orig[id].refs| ==> IsMapped(m, orig[id].refs[j])
    ensures Stamped(orig, m[id := newId], start, stamp[id := clock + 1], clock + 1)
  {
    var m', stamp' := m[id := newId], stamp[id := clock + 1];
    forall i, j | start <= i < |m'| && IsRefKind(orig[i].info.kind) && IsMapped(m', i) && 0 <= j < |orig[i].refs|
                    && start <= orig[i].refs[j] && IsRefKind(orig[orig[i].refs[j]].info.kind)
      ensures IsMapped(m', orig[i].refs[j]) && stamp'[orig[i].refs[j]] < stamp'[i]
    {
      if i != id {
        assert IsMapped(m, i) && IsMapped(m, orig[i].refs[j]);
      }
    }
  }

  lemma EnterStamped(orig: seq<BtfType>, m: seq<nat>, start: TypeId, stamp: seq<nat>, clock: nat, id: TypeId)
    requires GraphOk(orig) && Stamped(orig, m, start, stamp, clock) && id < |m| && m[id] == UNPROCESSED_ID
    ensures Stamped(orig, m[id := IN_PROGRESS_ID], start, stamp, clock)
  {
    var m' := m[id := IN_PROGRESS_ID];
    assert forall i :: 0 <= i < |m| ==> (IsMapped(m', i) <==> IsMapped(m, i));
  }

  /** Everything in progress except id itself lies strictly above id. */
  ghost predicate BelowOthers(m: seq<nat>, rank: seq<nat>, id: TypeId) {
    && |rank| == |m| && id < |m|
    && forall i :: 0 <= i < |m| && m[i] == IN_PROGRESS_ID && i != id ==> rank[id] < rank[i]
  }

  /** Processing further types puts nothing else in progress. */
  lemma BelowOthersFrame(types: seq<BtfType>, m: seq<nat>, types': seq<BtfType>, m': seq<nat>, own: TypeId, rank: seq<nat>, id: TypeId)
    requires RefFrame(types, m, types', m', own)
    ensures BelowOthers(m, rank, id) ==> BelowOthers(m', rank, id)
  {
  }

  /** Without cycles, an unprocessed reference lies below everything in progress. */
  lemma BelowChild(orig: seq<BtfType>, types: seq<BtfType>, m: seq<nat>, start: TypeId, rank: seq<nat>, id: TypeId, j: nat)
    requires GraphOk(orig) && RefRanked(orig, start, rank) && RefPhase(orig, types, m, start)
    requires BelowOthers(m, rank, id) && m[id] == IN_PROGRESS_ID && j < |orig[id].refs|
    requires types[id].info == orig[id].info
    requires !IsMapped(m, orig[id].refs[j]) && Shape(types[orig[id].refs[j]]) == Shape(orig[orig[id].refs[j]])
    ensures Below(m, rank, orig[id].refs[j])
  {
    var x := orig[id].refs[j];
    ShapeFacts(types[x], orig[x]);
    assert !IsMapped(m, id);
  }

  ghost predicate RefRankedFor(orig: seq<BtfType>, start: TypeId, rank: seq<nat>) {
    GraphOk(orig) && RefRanked(orig, start, rank)
  }

  lemma RefFrameRewrite(t0: seq<BtfType>, m0: seq<nat>, t1: seq<BtfType>, m1: seq<nat>, id: TypeId, j: nat, r: TypeId)
    requires RefFrame(t0, m0, t1, m1, |m1|) && id < |t1| && j < |t1[id].refs| && m0[id] == IN_PROGRESS_ID
    ensures RefFrame(t0, m0, Rewrite(t1, id, j, r), m1, id)
  {
  }

  // ------------------------------------------------------------------
  // The state of the reference pass
  // ------------------------------------------------------------------

  ghost predicate RefStateBy(orig: seq<BtfType>, types: seq<BtfType>, m: seq<nat>, filed: set<TypeId>, start: TypeId,
                             stamp: seq<nat>, clock: nat)
  {
    && Invariant(orig, types, m, filed, start)
    && RefPhase(orig, types, m, start)
    && GraphOk(orig) && Stamped(orig, m, start, stamp, clock)
  }

  /** What every step of the reference pass keeps. */
  ghost predicate RefState(orig: seq<BtfType>, types: seq<BtfType>, m: seq<nat>, filed: set<TypeId>, start: TypeId) {
    exists stamp: seq<nat>, clock: nat :: RefStateBy(orig, types, m, filed, start, stamp, clock)
  }

  lemma InvariantForest(orig: seq<BtfType>, types: seq<BtfType>, m: seq<nat>, filed: set<TypeId>, start: TypeId)
    requires Invariant(orig, types, m, filed, start)
    ensures Forest(m) && |m| == |types| == |orig|
  {
    InvariantFacts(orig, types, m, filed, start);
  }

  lemma RefStateFacts(orig: seq<BtfType>, types: seq<BtfType>, m: seq<nat>, filed: set<TypeId>, start: TypeId)
    requires RefState(orig, types, m, filed, start)
    ensures Invariant(orig, types, m, filed, start) && RefPhase(orig, types, m, start)
    ensures Forest(m) && |m| == |types| == |orig|
  {
    InvariantForest(orig, types, m, filed, start);
  }

  /** The state while the references of `id` are being resolved; n of them are done. */
  ghost predicate RefWork(orig: seq<BtfType>, types: seq<BtfType>, m: seq<nat>, filed: set<TypeId>, start: TypeId, id: TypeId, n: nat) {
    exists stamp: seq<nat>, clock: nat ::
      RefStateBy(orig, types, m, filed, start, stamp, clock) && Resolving(orig, types, m, id, n)
  }

  lemma RefWorkFacts(orig: seq<BtfType>, types: seq<BtfType>, m: seq<nat>, filed: set<TypeId>, start: TypeId, id: TypeId, n: nat)
    requires RefWork(orig, types, m, filed, start, id, n)
    ensures RefState(orig, types, m, filed, start)
    ensures |m| == |types| == |orig| && id < |m| && m[id] == IN_PROGRESS_ID && |types[id].refs| == |orig[id].refs|
  {
    InvariantForest(orig, types, m, filed, start);
  }

  lemma EnterRef(orig: seq<BtfType>, types: seq<BtfType>, m: seq<nat>, filed: set<TypeId>, start: TypeId, id: TypeId)
    requires RefState(orig, types, m, filed, start) && id < |m| && m[id] == UNPROCESSED_ID
    ensures RefWork(orig, types, m[id := IN_PROGRESS_ID], filed, start, id, 0)
    ensures Unprocessed(m[id := IN_PROGRESS_ID]) < Unprocessed(m)
  {
    var stamp: seq<nat>, clock: nat :| RefStateBy(orig, types, m, filed, start, stamp, clock);
    Enter(orig, types, m, filed, start, id);
    EnterStamped(orig, m, start, stamp, clock, id);
    assert RefStateBy(orig, types, m[id := IN_PROGRESS_ID], filed, start, stamp, clock);
    assert Resolving(orig, types, m[id := IN_PROGRESS_ID], id, 0);
  }

  /** Processing another type in between does not disturb the work on `id`. */
  lemma RefWorkFrame(orig: seq<BtfType>, t1: seq<BtfType>, m1: seq<nat>, f1: set<TypeId>, t2: seq<BtfType>, m2: seq<nat>, f2: set<TypeId>,
                     start: TypeId, id: TypeId, n: nat)
    requires RefWork(orig, t1, m1, f1, start, id, n) && RefState(orig, t2, m2, f2, start)
    requires RefFrame(t1, m1, t2, m2, |m1|)
    ensures RefWork(orig, t2, m2, f2, start, id, n)
  {
    var stamp: seq<nat>, clock: nat :| RefStateBy(orig, t2, m2, f2, start, stamp, clock);
    InvariantForest(orig, t2, m2, f2, start);
    ResolvingFrame(orig, t1, m1, t2, m2, id, n);
    assert RefStateBy(orig, t2, m2, f2, start, stamp, clock) && Resolving(orig, t2, m2, id, n);
  }

  lemma RewriteRef(orig: seq<BtfType>, types: seq<BtfType>, m: seq<nat>, filed: set<TypeId>, start: TypeId, id: TypeId, n: nat, r: TypeId)
    requires RefWork(orig, types, m, filed, start, id, n)
    requires id < |orig| && id < |types| && n < |types[id].refs| && n < |orig[id].refs|
    requires orig[id].refs[n] < |m| && IsMapped(m, orig[id].refs[n])
    requires Forest(m) && r == Root(m, orig[id].refs[n])
    ensures RefWork(orig, Rewrite(types, id, n, r), m, filed, start, id, n + 1)
  {
    var stamp: seq<nat>, clock: nat :|
      RefStateBy(orig, types, m, filed, start, stamp, clock) && Resolving(orig, types, m, id, n);
    ResolvingStep(orig, types, m, filed, start, id, n, r);
    assert RefStateBy(orig, Rewrite(types, id, n, r), m, filed, start, stamp, clock);
  }

  lemma LeaveRef(orig: seq<BtfType>, types: seq<BtfType>, m: seq<nat>, filed: set<TypeId>, start: TypeId, id: TypeId, newId: TypeId)
    requires id < |orig| == |types| && RefWork(orig, types, m, filed, start, id, |orig[id].refs|)
    requires newId < |m| == |types| && forall j :: j in filed ==> j < |m|
    requires if newId == id then forall j :: j in filed ==> types[j] != types[id]
             else newId in filed && types[newId] == types[id]
    ensures var filed' := if newId == id then filed + {id} else filed;
            && RefState(orig, types, m[id := newId], filed', start)
            && Forest(m[id := newId]) && Root(m[id := newId], id) == newId
  {
    var stamp: seq<nat>, clock: nat :|
      RefStateBy(orig, types, m, filed, start, stamp, clock) && Resolving(orig, types, m, id, |orig[id].refs|);
    LeaveParts(orig, types, m, filed, start, id, newId);
    Stamp(orig, m, start, stamp, clock, id, newId);
    var filed' := if newId == id then filed + {id} else filed;
    assert RefStateBy(orig, types, m[id := newId], filed', start, stamp[id := clock + 1], clock + 1);
  }

  lemma LeaveParts(orig: seq<BtfType>, types: seq<BtfType>, m: seq<nat>, filed: set<TypeId>, start: TypeId, id: TypeId, newId: TypeId)
    requires Invariant(orig, types, m, filed, start) && RefPhase(orig, types, m, start)
    requires id < |orig| && Resolving(orig, types, m, id, |orig[id].refs|)
    requires newId < |m| && forall j :: j in filed ==> j < |m|
    requires if newId == id then forall j :: j in filed ==> types[j] != types[id]
             else newId in filed && types[newId] == types[id]
    ensures var filed' := if newId == id then filed + {id} else filed;
            && Invariant(orig, types, m[id := newId], filed', start)
            && RefPhase(orig, types, m[id := newId], start)
            && Forest(m[id := newId]) && Root(m[id := newId], id) == newId
  {
    var filed' := if newId == id then filed + {id} else filed;
    assert !IsMapped(m, id);
    SettleRef(orig, types, m, filed, start, id, newId);
    SettleKeeps(orig, types, m, filed, start, id, newId);
    InvariantForest(orig, types, m[id := newId], filed', start);
    Leave(orig, types, m, start, id, newId);
  }

  /** A type whose references are all resolved is ready to be compared and filed. */
  lemma RefReady(orig: seq<BtfType>, types: seq<BtfType>, m: seq<nat>, filed: set<TypeId>, start: TypeId, id: TypeId)
    requires RefState(orig, types, m, filed, start) && id < |m| && m[id] == IN_PROGRESS_ID
    ensures |m| == |types| && (forall i :: 0 <= i < |types| ==> WellFormed(types[i]))
    ensures IsRefKind(types[id].info.kind) && id !in filed
    ensures forall j :: j in filed ==> j < |m|
  {
    InvariantFacts(orig, types, m, filed, start);
    assert !IsMapped(m, id);
  }

  lemma BehindBase(orig: seq<BtfType>, types: seq<BtfType>, m: seq<nat>, filed: set<TypeId>, start: TypeId, id: TypeId)
    requires RefState(orig, types, m, filed, start) && id < |m| && m[id] == IN_PROGRESS_ID
    ensures start <= id
  {
    RefStateFacts(orig, types, m, filed, start);
    assert !IsMapped(m, id);
  }

  /** Rewriting a type that is not filed does not concern the index. */
  lemma TableRewrite(sig: BtfType -> nat, types: seq<BtfType>, types': seq<BtfType>, filed: set<TypeId>, c: multiset<H.Entry>, id: TypeId)
    requires TableOk(sig, types, filed, c) && id !in filed && |types| == |types'|
    requires forall i :: 0 <= i < |types| && i != id ==> types'[i] == types[i]
    ensures TableOk(sig, types', filed, c)
  {
  }

  /** The next reference of `id` is still the given one, and lies below everything
      in progress if there are no cycles and it is not processed. */
  lemma NextRef(orig: seq<BtfType>, types: seq<BtfType>, m: seq<nat>, filed: set<TypeId>, start: TypeId, rank: seq<nat>, id: TypeId, j: nat)
    requires RefWork(orig, types, m, filed, start, id, j)
    requires id < |orig| && id < |types| && j < |orig[id].refs| && j < |types[id].refs|
    ensures types[id].refs[j] == orig[id].refs[j] < |m|
    ensures (RefRankedFor(orig, start, rank) && BelowOthers(m, rank, id) && !IsMapped(m, orig[id].refs[j]))
            ==> Below(m, rank, orig[id].refs[j])
  {
    InvariantFacts(orig, types, m, filed, start);
    if RefRankedFor(orig, start, rank) && BelowOthers(m, rank, id) && !IsMapped(m, orig[id].refs[j]) {
      BelowChild(orig, types, m, start, rank, id, j);
    }
  }

  // ------------------------------------------------------------------
  // Beginning and end of the reference pass
  // ------------------------------------------------------------------

  ghost predicate NoneInProgress(m: seq<nat>) {
    forall i :: 0 <= i < |m| ==> m[i] != IN_PROGRESS_ID
  }

  ghost predicate MappedUpTo(m: seq<nat>, n: TypeId) {
    n <= |m| && forall i :: 0 <= i < n ==> IsMapped(m, i)
  }

  lemma RefLoopStep(types: seq<BtfType>, m: seq<nat>, types': seq<BtfType>, m': seq<nat>, id: TypeId)
    requires RefFrame(types, m, types', m', |m|) && NoneInProgress(m) && MappedUpTo(m, id)
    requires id < |m'| && IsMapped(m', id)
    ensures NoneInProgress(m') && MappedUpTo(m', id + 1)
  {
    forall i | 0 <= i < |m'|
      ensures m'[i] != IN_PROGRESS_ID && (i <= id ==> IsMapped(m', i))
    {
      if i < id {
        assert IsMapped(m, i);
      }
    }
  }

  /** When primitive types, structs and forward declarations are done, the
      reference pass can start. */
  lemma RefPhaseStarts(types: seq<BtfType>, m: seq<nat>, filed: set<TypeId>, start: TypeId)
    requires Invariant(types, types, m, filed, start) && MapOk(m) && TargetsMapped(m) && |m| == |types|
    requires NoneInProgress(m)
    requires forall i :: start <= i < |m| ==> types[i].info.kind != Unknown
    requires forall i :: 0 <= i < |m| && !IsMapped(m, i) ==> start <= i && IsRefKind(types[i].info.kind)
    requires forall i :: start <= i < |m| && IsRefKind(types[i].info.kind) ==> m[i] == UNPROCESSED_ID
    ensures RefState(types, types, m, filed, start)
  {
    InvariantFacts(types, types, m, filed, start);
    var stamp: seq<nat> := seq(|m|, _ => 0);
    assert Stamped(types, m, start, stamp, 0);
    assert RefPhase(types, types, m, start);
    assert RefStateBy(types, types, m, filed, start, stamp, 0);
  }

  /** If every reference type got its canonical type, there was no cycle of reference
      types: the order in which they were finished is a ranking. */
  lemma RefDone(orig: seq<BtfType>, types: seq<BtfType>, m: seq<nat>, filed: set<TypeId>, start: TypeId)
    requires RefState(orig, types, m, filed, start) && MappedUpTo(m, |m|)
    ensures exists rank :: RefRankedFor(orig, start, rank)
  {
    var stamp: seq<nat>, clock: nat :| RefStateBy(orig, types, m, filed, start, stamp, clock);
    assert RefRanked(orig, start, stamp);
    assert RefRankedFor(orig, start, stamp);
  }

  /** All primitive types are processed; everything else is as at the start. */
  ghost predicate PrimsDone(types: seq<BtfType>, m: seq<nat>, start: TypeId) {
    && PrimLinks(types, m)
    && (forall i :: start <= i < |m| ==> types[i].info.kind != Unknown)
    && forall i :: 0 <= i < |m| ==>
         if IsPrimKind(types[i].info.kind) then IsMapped(m, i)
         else m[i] == if i < start then i else InitialEntry(types, i)
  }

  lemma PrimsAreDone(types: seq<BtfType>, mPrep: seq<nat>, m: seq<nat>, filed0: set<TypeId>, start: TypeId)
    requires PrepProgress(types, mPrep, filed0, start) && PrimProgress(types, mPrep, m, start, |types|)
    requires PrimLinks(types, m) && start <= |types| <= MAX_NR_TYPES
    ensures PrimsDone(types, m, start) && StructProgress(types, m, m, start)
  {
  }

  /** The progress of the earlier passes adds up to a start of the reference pass. */
  lemma PassesMeet(types: seq<BtfType>, mPrim: seq<nat>, mStruct: seq<nat>, m: seq<nat>, filed: set<TypeId>, start: TypeId)
    requires GraphOk(types) && 1 <= start <= |types|
    requires PrimsDone(types, mPrim, start)
    requires StructProgress(types, mPrim, mStruct, |types|) && LinksOk(types, mStruct)
    requires FwdProgress(types, mStruct, m, start, |types|)
    requires Invariant(types, types, m, filed, start)
    ensures RefState(types, types, m, filed, start) && NoneInProgress(m) && MappedUpTo(m, start)
  {
    hide PrimLinks;
    hide UsesTypeWord;
    hide Clear;
    hide GraphOk;
    hide FiledComplete;
    InvariantFacts(types, types, m, filed, start);
    TargetsMappedAfter(types, mPrim, mStruct);
    forall i | 0 <= i < |m|
      ensures m[i] == mStruct[i] || (types[i].info.kind == Fwd && IsMapped(m, i) && IsComposite(types[m[i]]) && mStruct[m[i]] == m[i])
      ensures !(IsPrimKind(types[i].info.kind) || IsComposite(types[i])) ==> m[i] == if i < start then i else InitialEntry(types, i)
      ensures IsPrimKind(types[i].info.kind) || IsComposite(types[i]) ==> IsMapped(m, i)
    {
      assert start <= i ==> FwdVerdict(types, mStruct, i, m[i]);
    }
    forall i | 0 <= i < |m| && Linked(m, i)
      ensures IsMapped(m, m[i])
    {
      if m[i] == mStruct[i] {
        assert Linked(mStruct, i);
        assert IsMapped(mStruct, mStruct[i]);
      }
    }
    RefPhaseStarts(types, m, filed, start);
  }

  lemma InvariantLinks(types: seq<BtfType>, m: seq<nat>, filed: set<TypeId>, start: TypeId)
    requires Invariant(types, types, m, filed, start)
    ensures GraphOk(types) && LinksOk(types, m)
  {
    InvariantFacts(types, types, m, filed, start);
  }

  /** What the passes up to and including the reference pass establish. */
  ghost predicate Canonicalized(orig: seq<BtfType>, types: seq<BtfType>, m: seq<nat>, start: TypeId) {
    && GraphOk(orig) && GraphOk(types) && |orig| == |types| == |m|
    // the map leads every type to a canonical one that may represent it
    && Forest(m)
    && (forall i :: 0 <= i < |m| ==> m[Root(m, i)] == Root(m, i) && MergeOk(orig, i, Root(m, i)))
    // the only change to the records: references of reference types outside the base
    // have been replaced by their canonical types
    && Tracks(orig, types)
    && (forall i :: 0 <= i < |m| && (i < start || !IsRefKind(orig[i].info.kind)) ==> types[i] == orig[i])
    && (forall i, j :: start <= i < |m| && IsRefKind(orig[i].info.kind) && 0 <= j < |types[i].refs| && j < |orig[i].refs|
          ==> types[i].refs[j] == Root(m, orig[i].refs[j]))
    && (forall i :: start <= i < |m| ==> types[i].info.kind != Unknown)
    // no duplicate is left
    && NoDuplicates(types, m, start)
    // there was no cycle of reference types
    && (exists rank :: RefRankedFor(orig, start, rank))
  }

  // ------------------------------------------------------------------
  // What stays apart
  // ------------------------------------------------------------------

  ghost predicate BaseFiled(types: seq<BtfType>, filed: set<TypeId>, start: TypeId) {
    forall i :: 0 <= i < start && i < |types| && IsHashedKind(types[i].info.kind) ==> i in filed
  }

  lemma BaseIsFiled(types: seq<BtfType>, m: seq<nat>, filed: set<TypeId>, start: TypeId)
    requires PrepProgress(types, m, filed, start) && FiledComplete(types, m, filed)
    ensures BaseFiled(types, filed, start)
  {
  }

  /** Before the struct pass no struct outside the base is canonical. */
  lemma NoStructsYet(types: seq<BtfType>, m: seq<nat>, start: TypeId)
    requires GraphOk(types) && PrimsDone(types, m, start)
    ensures StructsDistinct(types, m, start)
  {
    forall i, j | 0 <= i < |m| && 0 <= j < |m| && m[i] == i && m[j] == j && (start <= i || start <= j) && IsComposite(types[i])
      ensures !Bisimilar(types, i, j)
    {
      if Bisimilar(types, i, j) {
        BisimilarStep(types, i, j);
        ShapeFacts(types[i], types[j]);
        assert false;
      }
    }
  }

  lemma FwdsKeepStructs(types: seq<BtfType>, m0: seq<nat>, m: seq<nat>, start: TypeId)
    requires StructsDistinct(types, m0, start) && FwdProgress(types, m0, m, start, |types|)
    ensures StructsDistinct(types, m, start)
  {
    forall i | 0 <= i < |m| && IsComposite(types[i])
      ensures m[i] == m0[i]
    {
      assert start <= i ==> FwdVerdict(types, m0, i, m[i]);
    }
    StructsDistinctFrame(types, m0, m, start);
  }

  lemma ProcessedKeptStep(m0: seq<nat>, types: seq<BtfType>, m: seq<nat>, types': seq<BtfType>, m': seq<nat>, own: TypeId)
    requires ProcessedKept(m0, m) && RefFrame(types, m, types', m', own)
    ensures ProcessedKept(m0, m')
  {
  }

  ghost predicate ProcessedKept(m0: seq<nat>, m: seq<nat>) {
    |m0| == |m| && forall i :: 0 <= i < |m| && m0[i] != UNPROCESSED_ID ==> m[i] == m0[i]
  }

  /** Definitions in the base represent themselves, and outside the base no two
      canonical structs mean the same. */
  ghost predicate Distinguished(orig: seq<BtfType>, m: seq<nat>, start: TypeId) {
    && StructsDistinct(orig, m, start)
    && forall i :: 0 <= i < start && i < |m| && IsHashedKind(orig[i].info.kind) && !IsDecl(orig[i]) ==> m[i] == i
  }

  lemma StaysDistinguished(orig: seq<BtfType>, types: seq<BtfType>, m0: seq<nat>, m: seq<nat>, filed: set<TypeId>, start: TypeId)
    requires StructsDistinct(orig, m0, start) && RefPhase(orig, orig, m0, start) && ProcessedKept(m0, m)
    requires RefState(orig, types, m, filed, start) && BaseFiled(orig, filed, start)
    ensures Distinguished(orig, m, start)
  {
    InvariantFacts(orig, types, m, filed, start);
    StructsDistinctFrame(orig, m0, m, start);
    forall i | 0 <= i < start && i < |m| && IsHashedKind(orig[i].info.kind) && !IsDecl(orig[i])
      ensures m[i] == i
    {
      ShapeFacts(types[i], orig[i]);
    }
  }

  lemma RefStateCanonicalized(orig: seq<BtfType>, types: seq<BtfType>, m: seq<nat>, filed: set<TypeId>, start: TypeId)
    requires RefState(orig, types, m, filed, start) && MappedUpTo(m, |m|)
    ensures Canonicalized(orig, types, m, start)
  {
    RefDone(orig, types, m, filed, start);
    RefStateFacts(orig, types, m, filed, start);
    RootsRepresent(orig, types, m, filed, start);
    RecordsSettled(orig, types, m, filed, start);
  }

  lemma RootsRepresent(orig: seq<BtfType>, types: seq<BtfType>, m: seq<nat>, filed: set<TypeId>, start: TypeId)
    requires RefState(orig, types, m, filed, start) && MappedUpTo(m, |m|)
    ensures GraphOk(orig) && |orig| == |m| && Forest(m)
    ensures forall i :: 0 <= i < |m| ==> m[Root(m, i)] == Root(m, i) && MergeOk(orig, i, Root(m, i))
  {
    InvariantFacts(orig, types, m, filed, start);
    forall i | 0 <= i < |m|
      ensures m[Root(m, i)] == Root(m, i) && MergeOk(orig, i, Root(m, i))
    {
      RootCanonical(m, i);
      RootMergeOk(orig, m, i);
    }
  }

  lemma RecordsSettled(orig: seq<BtfType>, types: seq<BtfType>, m: seq<nat>, filed: set<TypeId>, start: TypeId)
    requires RefState(orig, types, m, filed, start) && MappedUpTo(m, |m|)
    ensures GraphOk(orig) && GraphOk(types) && |orig| == |types| == |m|
    ensures Tracks(orig, types) && NoDuplicates(types, m, start)
    ensures forall i :: start <= i < |m| ==> types[i].info.kind != Unknown
    ensures forall i :: 0 <= i < |m| && (i < start || !IsRefKind(orig[i].info.kind)) ==> types[i] == orig[i]
    ensures forall i, j :: start <= i < |m| && IsRefKind(orig[i].info.kind) && 0 <= j < |types[i].refs| && j < |orig[i].refs|
              ==> Forest(m) && types[i].refs[j] == Root(m, orig[i].refs[j])
  {
    InvariantFacts(orig, types, m, filed, start);
    hide Invariant;
    hide IsRefKind;
    hide Root;
    hide LinksOk;
    hide NoDuplicates;
    hide FiledOk;
    hide FiledComplete;
    hide MergeOk;
    forall i | 0 <= i < |m|
      ensures types[i].info == orig[i].info
    {
      ShapeFacts(types[i], orig[i]);
    }
  }
}
