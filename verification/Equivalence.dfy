/** What the side-by-side traversal of two type graphs establishes.

    `h` is the hypothetical map: `h[c]` is the candidate type assumed equivalent
    to the canonical-side type c, or UNPROCESSED. */
module Equivalence {
  import opened BtfTypes
  import opened CanonicalMap

  predicate Recorded(h: seq<nat>, c: TypeId)
    requires c < |h|
  {
    h[c] <= MAX_NR_TYPES
  }

  ghost predicate HypotOk(h: seq<nat>) {
    && |h| <= MAX_NR_TYPES
    && forall c :: 0 <= c < |h| ==> h[c] < |h| || h[c] == UNPROCESSED_ID
  }

  /** The list holds exactly the recorded ids, each once. */
  ghost predicate ListMatches(h: seq<nat>, list: seq<TypeId>)
    requires HypotOk(h)
  {
    && (forall c :: 0 <= c < |h| ==> (Recorded(h, c) <==> c in list))
    && (forall i :: 0 <= i < |list| ==> list[i] < |h|)
    && (forall i, j :: 0 <= i < j < |list| ==> list[i] != list[j])
  }

  /** `h2` keeps every record of `h1`. */
  ghost predicate Extends(h1: seq<nat>, h2: seq<nat>) {
    |h1| == |h2| && forall c :: 0 <= c < |h1| && Recorded(h1, c) ==> h2[c] == h1[c]
  }

  ghost function Unrecorded(h: seq<nat>): set<TypeId> {
    set c | 0 <= c < |h| && !Recorded(h, c)
  }

  lemma ExtendsShrinks(h1: seq<nat>, h2: seq<nat>)
    requires Extends(h1, h2)
    ensures Unrecorded(h2) <= Unrecorded(h1)
  {
  }

  /** By-value embedding of structs and unions is well founded, as C demands. */
  ghost predicate EmbedRanked(types: seq<BtfType>, rank: seq<nat>)
    requires GraphOk(types)
  {
    && |rank| == |types|
    && forall i, j :: 0 <= i < |types| && IsComposite(types[i]) && 0 <= j < |types[i].refs|
                        && IsComposite(types[types[i].refs[j]])
         ==> rank[types[i].refs[j]] < rank[i]
  }

  predicate IdenticalArrays(types: seq<BtfType>, a: TypeId, b: TypeId)
    requires a < |types| && b < |types|
  {
    types[a].info.kind == Array && types[a] == types[b]
  }

  /** Structs that agree down to the ids they reference, where a member may also
      be an identical array or an identical embedded struct. */
  ghost predicate IdenticalStructs(types: seq<BtfType>, rank: seq<nat>, a: TypeId, b: TypeId)
    requires GraphOk(types) && EmbedRanked(types, rank)
    requires a < |types| && b < |types|
    decreases rank[a]
  {
    && IsComposite(types[a])
    && Shape(types[a]) == Shape(types[b])
    && forall j :: 0 <= j < |types[a].refs| && j < |types[b].refs| ==>
         IdenticalMembers(types, rank, a, b, j)
  }

  ghost predicate IdenticalMembers(types: seq<BtfType>, rank: seq<nat>, a: TypeId, b: TypeId, j: nat)
    requires GraphOk(types) && EmbedRanked(types, rank)
    requires a < |types| && b < |types|
    requires IsComposite(types[a])
    requires j < |types[a].refs| && j < |types[b].refs|
    decreases rank[a], 0
  {
    var x, y := types[a].refs[j], types[b].refs[j];
    || x == y
    || IdenticalArrays(types, x, y)
    || (IsComposite(types[x]) && IdenticalStructs(types, rank, x, y))
  }

  /** A type graph with its embedding order and the current canonical map. */
  datatype View = View(types: seq<BtfType>, embed: seq<nat>, canon: seq<nat>)

  ghost predicate ViewOk(v: View) {
    && GraphOk(v.types) && EmbedRanked(v.types, v.embed)
    && Forest(v.canon) && |v.canon| == |v.types|
  }

  ghost function ResolvedFwd(types: seq<BtfType>, m: seq<nat>, i: TypeId): (r: TypeId)
    requires Forest(m) && |m| == |types| && i < |types|
    ensures r < |types|
  {
    if types[i].info.kind != Fwd then i
    else if types[Root(m, i)].info.kind != Fwd then Root(m, i)
    else i
  }

  /** Candidate `a` and canonical-side `b` have been accepted as the same type. */
  ghost predicate Related(v: View, h: seq<nat>, a: TypeId, b: TypeId)
    requires ViewOk(v) && HypotOk(h)
    requires |v.types| == |h| && a < |v.types| && b < |v.types|
  {
    || Root(v.canon, a) == Root(v.canon, b)
    || var c := ResolvedFwd(v.types, v.canon, b);
       && Recorded(h, c)
       && (h[c] == a || IdenticalArrays(v.types, h[c], a) || IdenticalStructs(v.types, v.embed, h[c], a))
  }

  /** A forward declaration against the kind of struct it announces. */
  predicate FwdMatch(t: BtfType, c: BtfType) {
    && t.name == c.name
    && t.info.kind != c.info.kind
    && (if t.info.kind == Fwd then FwdKind(t) == c.info.kind
        else c.info.kind == Fwd && FwdKind(c) == t.info.kind)
  }

  /** Kinds the traversal knows how to compare. */
  predicate IsComparedKind(k: Kind) {
    IsPrimKind(k) || k in {Const, Volatile, Restrict, Ptr, Typedef, Func, TypeTag, Array, Struct, Union, FuncProto}
  }

  /** The record of c is justified: forward declaration and definition, two
      compatible enums, or the same shape with related references. */
  ghost predicate PairOk(v: View, h: seq<nat>, c: TypeId)
    requires ViewOk(v) && HypotOk(h)
    requires |v.types| == |h| && c < |v.types| && Recorded(h, c)
  {
    var t, u := v.types[h[c]], v.types[c];
    || FwdMatch(t, u)
    || (EnumCompatible(t, u) && t.info.kind == u.info.kind)
    || (&& Shape(t) == Shape(u)
        && IsComparedKind(t.info.kind)
        && RefsRelated(v, h, t, u, |u.refs|))
  }

  /** The first n references of t and u are pairwise related. */
  ghost predicate RefsRelated(v: View, h: seq<nat>, t: BtfType, u: BtfType, n: nat)
    requires ViewOk(v) && HypotOk(h)
    requires |v.types| == |h| && n <= |u.refs|
  {
    forall j :: 0 <= j < n && j < |t.refs| && t.refs[j] < |v.types| && u.refs[j] < |v.types| ==>
      Related(v, h, t.refs[j], u.refs[j])
  }

  lemma RelatedMonotone(v: View, h1: seq<nat>, h2: seq<nat>, a: TypeId, b: TypeId)
    requires ViewOk(v) && HypotOk(h1) && HypotOk(h2)
    requires |v.types| == |h1| && a < |v.types| && b < |v.types|
    requires Extends(h1, h2)
    requires Related(v, h1, a, b)
    ensures Related(v, h2, a, b)
  {
  }

  lemma PairOkMonotone(v: View, h1: seq<nat>, h2: seq<nat>, c: TypeId)
    requires ViewOk(v) && HypotOk(h1) && HypotOk(h2)
    requires |v.types| == |h1| && c < |v.types|
    requires Extends(h1, h2) && Recorded(h1, c)
    requires PairOk(v, h1, c)
    ensures PairOk(v, h2, c)
  {
    var t, u := v.types[h1[c]], v.types[c];
    if RefsRelated(v, h1, t, u, |u.refs|) {
      RefsRelatedMonotone(v, h1, h2, t, u, |u.refs|);
    }
  }

  lemma RefsRelatedMonotone(v: View, h1: seq<nat>, h2: seq<nat>, t: BtfType, u: BtfType, n: nat)
    requires ViewOk(v) && HypotOk(h1) && HypotOk(h2)
    requires |v.types| == |h1| && n <= |u.refs|
    requires Extends(h1, h2)
    requires RefsRelated(v, h1, t, u, n)
    ensures RefsRelated(v, h2, t, u, n)
  {
    forall j | 0 <= j < n && j < |t.refs| && t.refs[j] < |v.types| && u.refs[j] < |v.types|
      ensures Related(v, h2, t.refs[j], u.refs[j])
    {
      RelatedMonotone(v, h1, h2, t.refs[j], u.refs[j]);
    }
  }

  // ------------------------------------------------------------------
  // What a merge must respect
  // ------------------------------------------------------------------

  /** Type i may be represented by type j: same name and namespace, a definition
      is never represented by a mere declaration, and where either sees no ambiguous
      name the two mean the same. */
  ghost predicate MergeOk(types: seq<BtfType>, i: TypeId, j: TypeId)
    requires GraphOk(types) && i < |types| && j < |types|
  {
    && SameClass(types[i], types[j])
    && (IsDecl(types[j]) ==> IsDecl(types[i]))
    && AgreeIfClear(types, i, j)
  }

  ghost predicate LinksOk(types: seq<BtfType>, m: seq<nat>)
    requires GraphOk(types)
  {
    && MapOk(m) && |m| == |types|
    && forall i :: 0 <= i < |m| && Linked(m, i) ==> MergeOk(types, i, m[i])
  }

  lemma AgreesWithItself(types: seq<BtfType>, i: TypeId)
    requires GraphOk(types) && i < |types|
    ensures AgreeIfClear(types, i, i)
  {
  }

  lemma {:induction false} RankedRootMergeOk(types: seq<BtfType>, m: seq<nat>, rank: seq<nat>, i: TypeId)
    requires GraphOk(types) && LinksOk(types, m) && Ranked(m, rank) && i < |m|
    ensures MergeOk(types, i, RankedRoot(m, rank, i))
    decreases rank[i]
  {
    hide AgreeIfClear;
    if Linked(m, i) {
      RankedRootMergeOk(types, m, rank, m[i]);
      AgreeIfClearTransitive(types, i, m[i], RankedRoot(m, rank, i));
    } else {
      AgreesWithItself(types, i);
    }
  }

  /** Link by link soundness gives soundness of the whole resolution. */
  lemma RootMergeOk(types: seq<BtfType>, m: seq<nat>, i: TypeId)
    requires GraphOk(types) && LinksOk(types, m) && Forest(m) && i < |m|
    ensures MergeOk(types, i, Root(m, i))
  {
    var rank: seq<nat> :| Ranked(m, rank) && Root(m, i) == RankedRoot(m, rank, i);
    RankedRootMergeOk(types, m, rank, i);
  }

  // ------------------------------------------------------------------
  // Soundness of an accepted hypothesis
  // ------------------------------------------------------------------

  ghost predicate AllPairsOk(v: View, h: seq<nat>)
    requires ViewOk(v) && HypotOk(h)
    requires |v.types| == |h|
  {
    forall c :: 0 <= c < |h| && Recorded(h, c) ==> PairOk(v, h, c)
  }

  lemma {:induction false} IdenticalStructsAgree(types: seq<BtfType>, rank: seq<nat>, a: TypeId, b: TypeId)
    requires GraphOk(types) && EmbedRanked(types, rank) && a < |types| && b < |types|
    requires IdenticalStructs(types, rank, a, b)
    ensures Agree(types, a, b)
    decreases rank[a]
  {
    hide Agree;
    ShapeFacts(types[a], types[b]);
    forall j | 0 <= j < |types[a].refs|
      ensures Agree(types, types[a].refs[j], types[b].refs[j])
    {
      assert IdenticalMembers(types, rank, a, b, j);
      var x, y := types[a].refs[j], types[b].refs[j];
      if x == y {
        ItselfAgrees(types, x);
      } else if IdenticalArrays(types, x, y) {
        IdenticalRecordsAgree(types, x, y);
      } else {
        IdenticalStructsAgree(types, rank, x, y);
      }
    }
    SameShapeAgree(types, a, b);
  }

  lemma ItselfAgrees(types: seq<BtfType>, x: TypeId)
    requires GraphOk(types) && x < |types|
    ensures Agree(types, x, x)
  {
  }

  /** A candidate matches a record if it is, or verbatim copies, the recorded type. */
  lemma MatchAgrees(v: View, h: seq<nat>, c: TypeId, a: TypeId)
    requires ViewOk(v) && HypotOk(h) && |v.types| == |h| && a < |h| && c < |h| && Recorded(h, c)
    requires h[c] == a || IdenticalArrays(v.types, h[c], a) || IdenticalStructs(v.types, v.embed, h[c], a)
    ensures Agree(v.types, h[c], a) && SameClass(v.types[h[c]], v.types[a])
  {
    if h[c] == a {
    } else if IdenticalArrays(v.types, h[c], a) {
      IdenticalRecordsAgree(v.types, h[c], a);
    } else {
      IdenticalStructsAgree(v.types, v.embed, h[c], a);
      ShapeFacts(v.types[h[c]], v.types[a]);
    }
  }

  lemma PairSameClass(v: View, h: seq<nat>, c: TypeId)
    requires ViewOk(v) && HypotOk(h) && |v.types| == |h| && c < |h| && Recorded(h, c) && PairOk(v, h, c)
    ensures SameClass(v.types[h[c]], v.types[c])
    ensures !IsDecl(v.types[h[c]]) && !IsDecl(v.types[c]) ==> Shape(v.types[h[c]]) == Shape(v.types[c])
  {
    var t, u := v.types[h[c]], v.types[c];
    if Shape(t) == Shape(u) {
      ShapeFacts(t, u);
    }
  }

  /** Types accepted as the same cannot be told apart, where either is clear ... */
  lemma {:induction false} RelatedObserve(v: View, h: seq<nat>, a: TypeId, b: TypeId, path: seq<nat>)
    requires ViewOk(v) && HypotOk(h) && |v.types| == |h| && a < |v.types| && b < |v.types|
    requires LinksOk(v.types, v.canon) && AllPairsOk(v, h)
    requires Related(v, h, a, b) && (Clear(v.types, a) || Clear(v.types, b))
    ensures ObserveDefined(v.types, a, path) == ObserveDefined(v.types, b, path)
    decreases |path|, 1
  {
    hide Clear;
    hide GraphOk;
    hide IdenticalStructs;
    RootMergeOk(v.types, v.canon, a);
    RootMergeOk(v.types, v.canon, b);
    if Root(v.canon, a) == Root(v.canon, b) {
      AgreeIfClearTransitive(v.types, a, Root(v.canon, a), b);
    } else {
      var c := ResolvedFwd(v.types, v.canon, b);
      MatchAgrees(v, h, c, a);
      ClearAgree(v.types, h[c], a);
      if c == b {
        RecordedObserve(v, h, c, path);
      } else {
        PairSameClass(v, h, c);
        DeclAgrees(v.types, a, b);
      }
    }
  }

  /** ... because no record of a justified hypothesis can, however the graph loops. */
  lemma {:induction false} RecordedObserve(v: View, h: seq<nat>, c: TypeId, path: seq<nat>)
    requires ViewOk(v) && HypotOk(h) && |v.types| == |h| && c < |h| && Recorded(h, c)
    requires LinksOk(v.types, v.canon) && AllPairsOk(v, h)
    requires Clear(v.types, c) || Clear(v.types, h[c])
    ensures ObserveDefined(v.types, c, path) == ObserveDefined(v.types, h[c], path)
    decreases |path|, 0
  {
    hide Clear;
    var t, u := v.types[h[c]], v.types[c];
    assert PairOk(v, h, c);
    PairSameClass(v, h, c);
    if IsDecl(t) || IsDecl(u) {
      DeclAgrees(v.types, h[c], c);
    } else {
      ShapeFacts(t, u);
      if path != [] && path[0] < |u.refs| {
        if Clear(v.types, c) {
          ClearStep(v.types, c);
        } else {
          ClearStep(v.types, h[c]);
        }
        RelatedObserve(v, h, t.refs[path[0]], u.refs[path[0]], path[1..]);
      }
    }
  }

  lemma HypothesisAgrees(v: View, h: seq<nat>, c: TypeId)
    requires ViewOk(v) && HypotOk(h) && |v.types| == |h| && c < |h| && Recorded(h, c)
    requires LinksOk(v.types, v.canon) && AllPairsOk(v, h)
    ensures AgreeIfClear(v.types, c, h[c])
  {
    hide Clear;
    if Clear(v.types, c) || Clear(v.types, h[c]) {
      forall path
        ensures ObserveDefined(v.types, c, path) == ObserveDefined(v.types, h[c], path)
      {
        RecordedObserve(v, h, c, path);
      }
    }
  }

  // ------------------------------------------------------------------
  // Growing a hypothesis
  // ------------------------------------------------------------------

  /** Every record of `h2` that `h1` does not have is justified. */
  ghost predicate NewPairsOk(v: View, h1: seq<nat>, h2: seq<nat>)
    requires ViewOk(v) && HypotOk(h2) && |v.types| == |h1| == |h2|
  {
    forall c :: 0 <= c < |h2| && Recorded(h2, c) && !Recorded(h1, c) ==> PairOk(v, h2, c)
  }

  lemma NewPairsNone(v: View, h: seq<nat>)
    requires ViewOk(v) && HypotOk(h) && |v.types| == |h|
    ensures NewPairsOk(v, h, h)
  {
  }

  lemma NewPairsTransitive(v: View, h1: seq<nat>, h2: seq<nat>, h3: seq<nat>)
    requires ViewOk(v) && HypotOk(h2) && HypotOk(h3) && |v.types| == |h1| == |h2| == |h3|
    requires Extends(h1, h2) && Extends(h2, h3)
    requires NewPairsOk(v, h1, h2) && NewPairsOk(v, h2, h3)
    ensures Extends(h1, h3) && NewPairsOk(v, h1, h3)
  {
    forall c | 0 <= c < |h3| && Recorded(h3, c) && !Recorded(h1, c)
      ensures PairOk(v, h3, c)
    {
      if Recorded(h2, c) {
        PairOkMonotone(v, h2, h3, c);
      }
    }
  }

  /** The pair opened by this step is justified by what its references added. */
  lemma NewPairsClose(v: View, h0: seq<nat>, c: TypeId, a: TypeId, h2: seq<nat>)
    requires ViewOk(v) && HypotOk(h0) && HypotOk(h2) && |v.types| == |h0| == |h2|
    requires c < |h0| && a < |h0| && !Recorded(h0, c)
    requires Extends(h0[c := a], h2)
    requires NewPairsOk(v, h0[c := a], h2)
    requires h2[c] == a && PairOk(v, h2, c)
    ensures Extends(h0, h2) && NewPairsOk(v, h0, h2)
  {
    forall x | 0 <= x < |h2| && Recorded(h2, x) && !Recorded(h0, x)
      ensures PairOk(v, h2, x)
    {
      if x != c {
        assert !Recorded(h0[c := a], x);
      }
    }
  }

  /** A unit whose types the compiler already deduplicated: a set of types closed
      under references in which no two different types mean the same. */
  ghost predicate DedupedUnit(types: seq<BtfType>, unit: set<TypeId>)
    requires GraphOk(types)
  {
    && (forall i :: i in unit ==> i < |types|)
    && (forall i, j :: i in unit && 0 <= j < |types[i].refs| ==> types[i].refs[j] in unit)
    && (forall i, j :: i in unit && j in unit && Bisimilar(types, i, j) ==> i == j)
  }

  /** Every record pairs a type with a unit member of the same meaning. */
  ghost predicate HypotFaithful(types: seq<BtfType>, unit: set<TypeId>, h: seq<nat>)
    requires GraphOk(types) && HypotOk(h) && |h| == |types|
  {
    forall c :: 0 <= c < |h| && Recorded(h, c) ==> h[c] in unit && Bisimilar(types, c, h[c])
  }

  /** The situation in which the traversal may not answer "different": a candidate from
      a unit the compiler deduplicated, from which no declared name is seen, and two types
      that do mean the same. */
  ghost predicate MustAccept(v: View, unit: set<TypeId>, h: seq<nat>, candId: TypeId, canonId: TypeId)
    requires ViewOk(v) && HypotOk(h) && |h| == |v.types|
    requires candId < |v.types| && canonId < |v.types|
  {
    && Plain(v.types, candId) && DedupedUnit(v.types, unit) && HypotFaithful(v.types, unit, h)
    && candId in unit && Bisimilar(v.types, candId, canonId)
  }

  /** What must be accepted has references that must be accepted. */
  lemma MustAcceptRef(v: View, unit: set<TypeId>, h: seq<nat>, candId: TypeId, canonId: TypeId, i: nat)
    requires ViewOk(v) && HypotOk(h) && |h| == |v.types|
    requires candId < |v.types| && canonId < |v.types| && i < |v.types[candId].refs| == |v.types[canonId].refs|
    ensures MustAccept(v, unit, h, candId, canonId) ==> MustAccept(v, unit, h, v.types[candId].refs[i], v.types[canonId].refs[i])
  {
    if MustAccept(v, unit, h, candId, canonId) {
      BisimilarStep(v.types, candId, canonId);
      PlainStep(v.types, candId);
    }
  }

  lemma NoRefsRelated(v: View, h: seq<nat>, t: BtfType, u: BtfType)
    requires ViewOk(v) && HypotOk(h) && |h| == |v.types| && WellFormed(u) && IsPrimKind(u.info.kind)
    ensures RefsRelated(v, h, t, u, |u.refs|)
  {
    assert u.refs == [];
  }

  lemma BisimilarForms(types: seq<BtfType>, a: TypeId, b: TypeId)
    requires GraphOk(types) && a < |types| && b < |types| && Plain(types, a) && Bisimilar(types, a, b)
    ensures !IsDecl(types[a]) && !IsDecl(types[b])
    ensures types[a].name == types[b].name && types[a].info == types[b].info && Shape(types[a]) == Shape(types[b])
    ensures IsAnyEnum(types[a]) ==> EnumCompatible(types[a], types[b])
  {
    BisimilarStep(types, a, b);
    ShapeFacts(types[a], types[b]);
    PlainStep(types, a);
    assert IsAnyEnum(types[a]) ==> types[a].refs == types[b].refs == [];
  }

  lemma PairFacts(v: View, unit: set<TypeId>, h: seq<nat>, candId: TypeId, canonId: TypeId)
    requires ViewOk(v) && HypotOk(h) && |h| == |v.types| && candId < |v.types| && canonId < |v.types|
    ensures NewPairsOk(v, h, h) && Extends(h, h)
    ensures WellFormed(v.types[candId]) && WellFormed(v.types[canonId])
    ensures Shape(v.types[candId]) == Shape(v.types[canonId]) ==> v.types[candId].info == v.types[canonId].info
    ensures IsPrimKind(v.types[canonId].info.kind) ==> RefsRelated(v, h, v.types[candId], v.types[canonId], |v.types[canonId].refs|)
    ensures MustAccept(v, unit, h, candId, canonId) ==>
      && HypotFaithful(v.types, unit, h)
      && v.types[candId].name == v.types[canonId].name && v.types[candId].info == v.types[canonId].info
      && Shape(v.types[candId]) == Shape(v.types[canonId])
      && (IsAnyEnum(v.types[candId]) ==> EnumCompatible(v.types[candId], v.types[canonId]))
      && v.types[candId].info.kind != Fwd && v.types[canonId].info.kind != Fwd
  {
    var t, u := v.types[candId], v.types[canonId];
    if Shape(t) == Shape(u) {
      ShapeFacts(t, u);
    }
    NewPairsNone(v, h);
    hide NewPairsOk;
    hide RefsRelated;
    if IsPrimKind(u.info.kind) {
      NoRefsRelated(v, h, t, u);
    }
    if MustAccept(v, unit, h, candId, canonId) {
      BisimilarForms(v.types, candId, canonId);
    }
  }

  /** A pair whose records and references were found to match is justified. */
  lemma PairHolds(v: View, h0: seq<nat>, h: seq<nat>, candId: TypeId, canonId: TypeId)
    requires ViewOk(v) && HypotOk(h0) && HypotOk(h) && |h| == |h0| == |v.types| && candId < |v.types| && canonId < |v.types|
    requires h0[canonId] == candId && Extends(h0, h)
    ensures Recorded(h, canonId) && h[canonId] == candId
    ensures var t, u := v.types[candId], v.types[canonId];
            (|| FwdMatch(t, u)
             || (EnumCompatible(t, u) && t.info.kind == u.info.kind)
             || (Shape(t) == Shape(u) && IsComparedKind(t.info.kind) && RefsRelated(v, h, t, u, |u.refs|)))
            ==> PairOk(v, h, canonId)
  {
  }

  lemma SameRefCount(v: View, a: TypeId, b: TypeId)
    requires ViewOk(v) && a < |v.types| && b < |v.types| && v.types[a].info == v.types[b].info
    ensures |v.types[a].refs| == |v.types[b].refs| && (v.types[a].info.kind == Array ==> |v.types[a].refs| == 2)
    ensures forall j :: 0 <= j < |v.types[a].refs| ==> v.types[a].refs[j] < |v.types| && v.types[b].refs[j] < |v.types|
  {
  }

  lemma StartRefs(v: View, unit: set<TypeId>, h: seq<nat>, candId: TypeId, canonId: TypeId)
    requires ViewOk(v) && HypotOk(h) && |h| == |v.types| && candId < |v.types| && canonId < |v.types|
    ensures NewPairsOk(v, h, h) && Extends(h, h) && RefsRelated(v, h, v.types[candId], v.types[canonId], 0)
    ensures MustAccept(v, unit, h, candId, canonId) ==> HypotFaithful(v.types, unit, h)
  {
  }

  lemma BothRelated(v: View, h: seq<nat>, t: BtfType, u: BtfType)
    requires ViewOk(v) && HypotOk(h) && |h| == |v.types| && |t.refs| == |u.refs| == 2
    requires t.refs[1] < |h| && u.refs[1] < |h| && Related(v, h, t.refs[1], u.refs[1]) && RefsRelated(v, h, t, u, 1)
    ensures RefsRelated(v, h, t, u, 2)
  {
  }

  /** It stays so while the hypothesis grows faithfully, ... */
  lemma MustAcceptLater(v: View, unit: set<TypeId>, h: seq<nat>, h': seq<nat>, candId: TypeId, canonId: TypeId)
    requires ViewOk(v) && HypotOk(h) && HypotOk(h') && |h| == |h'| == |v.types|
    requires candId < |v.types| && canonId < |v.types|
    ensures MustAccept(v, unit, h, candId, canonId) && HypotFaithful(v.types, unit, h') ==> MustAccept(v, unit, h', candId, canonId)
  {
  }

  /** ... in particular when the pair itself is recorded; and there is no forward
      declaration to resolve. */
  lemma MustAcceptFacts(v: View, unit: set<TypeId>, h: seq<nat>, candId: TypeId, canonId: TypeId)
    requires ViewOk(v) && HypotOk(h) && |h| == |v.types|
    requires candId < |v.types| && canonId < |v.types|
    ensures HypotOk(h[canonId := candId])
    ensures MustAccept(v, unit, h, candId, canonId) ==>
      && HypotFaithful(v.types, unit, h)
      && ResolvedFwd(v.types, v.canon, canonId) == canonId
      && MustAccept(v, unit, h[canonId := candId], candId, canonId)
  {
    if MustAccept(v, unit, h, candId, canonId) {
      BisimilarForms(v.types, candId, canonId);
    }
  }
}
