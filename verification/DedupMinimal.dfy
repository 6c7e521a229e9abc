/** Deduplication is complete on what a compiler emits: the new section is exactly
    the given one with the types that mean the same made one. */
module DedupMinimal {
  import opened BtfTypes
  import opened CanonicalMap
  import opened Equivalence
  import opened CanonicalIndex
  import opened RefTypes
  import opened BtfCompaction

  /** Kinds that are never merged, and the tags that may be attached to them. */
  predicate IsPlaced(k: Kind) { k in {Var, Datasec, DeclTag} }

  /** Variables, data sections and tags are referred to by data sections and tags only. */
  ghost predicate TagsApart(types: seq<BtfType>)
    requires GraphOk(types)
  {
    forall i, j :: 0 <= i < |types| && IsRefKind(types[i].info.kind) && types[i].info.kind != DeclTag && 0 <= j < |types[i].refs|
      ==> !IsPlaced(types[types[i].refs[j]].info.kind)
  }

  /** Neither a variable nor a data section nor a tag on one of these. */
  ghost predicate Mergeable(types: seq<BtfType>, i: TypeId)
    requires GraphOk(types) && i < |types|
  {
    && types[i].info.kind !in {Var, Datasec}
    && (types[i].info.kind == DeclTag ==> forall j :: 0 <= j < |types[i].refs| ==> !IsPlaced(types[types[i].refs[j]].info.kind))
  }

  ghost predicate BaseDistinct(types: seq<BtfType>, start: TypeId)
    requires GraphOk(types)
  {
    forall i, j :: 0 <= i < start && 0 <= j < start && i < |types| && j < |types| && i != j ==> !Bisimilar(types, i, j)
  }

  /** Units without duplicates on top of a base without duplicates, with every cycle
      of references going through a struct. */
  ghost predicate FromCompiler(types: seq<BtfType>, start: TypeId, rank: seq<nat>) {
    && GraphOk(types) && 1 <= start <= |types|
    && Compiled(types, start) && BaseDistinct(types, start) && BaseClosed(types, start)
    && RefRanked(types, 0, rank) && TagsApart(types)
  }

  /** The outcome of all passes up to the reference pass on such input. */
  ghost predicate Outcome(orig: seq<BtfType>, types: seq<BtfType>, m: seq<nat>, start: TypeId, rank: seq<nat>) {
    FromCompiler(orig, start, rank) && Canonicalized(orig, types, m, start) && Distinguished(orig, m, start)
  }

  /** A type from which no declared name is seen means what its canonical type means. */
  lemma RootBisimilar(orig: seq<BtfType>, types: seq<BtfType>, m: seq<nat>, start: TypeId, a: TypeId)
    requires Canonicalized(orig, types, m, start) && a < |m| && Plain(orig, a)
    ensures Bisimilar(orig, a, Root(m, a)) && Plain(orig, Root(m, a))
  {
    var r := Root(m, a);
    RootPlain(orig, types, m, start, a);
    hide Plain;
    forall path
      ensures Observe(orig, a, path) == Observe(orig, r, path)
    {
      RootObserve(orig, types, m, start, a, path);
    }
  }

  /** Base types stay themselves. */
  lemma BaseRoot(orig: seq<BtfType>, types: seq<BtfType>, m: seq<nat>, start: TypeId, rank: seq<nat>, b: TypeId)
    requires Outcome(orig, types, m, start, rank) && b < start && orig[b].info.kind !in {Var, Datasec} && Plain(orig, b)
    ensures Root(m, b) == b
  {
    var r := Root(m, b);
    PlainStep(orig, b);
    RootBisimilar(orig, types, m, start, b);
    hide Plain;
    RootStep(m, b);
    BisimilarStep(orig, b, r);
    ShapeFacts(orig[b], orig[r]);
    ShapeFacts(orig[r], types[r]);
  }

  /** The rewritten reference of a canonical reference type is the canonical type of
      what the reference was. */
  lemma RewrittenRef(orig: seq<BtfType>, types: seq<BtfType>, m: seq<nat>, start: TypeId, rank: seq<nat>, x: TypeId, j: nat)
    requires Outcome(orig, types, m, start, rank) && x < |m| && IsRefKind(orig[x].info.kind) && Plain(orig, x)
    requires j < |orig[x].refs| && orig[orig[x].refs[j]].info.kind !in {Var, Datasec}
    ensures j < |types[x].refs| && types[x].refs[j] == Root(m, orig[x].refs[j])
  {
    ShapeFacts(orig[x], types[x]);
    PlainStep(orig, x);
    if x < start {
      BaseRoot(orig, types, m, start, rank, orig[x].refs[j]);
    }
  }

  /** Two canonical types that mean the same are one, given that their rewritten
      records agree unless they are structs. */
  lemma CanonicalApart(orig: seq<BtfType>, types: seq<BtfType>, m: seq<nat>, start: TypeId, rank: seq<nat>, x: TypeId, y: TypeId)
    requires Outcome(orig, types, m, start, rank) && x < |m| && y < |m| && m[x] == x && m[y] == y
    requires Bisimilar(orig, x, y) && orig[x].info.kind !in {Var, Datasec} && Plain(orig, x)
    requires IsComposite(orig[x]) || types[x] == types[y]
    ensures x == y
  {
    ShapeFacts(orig[x], types[x]);
    ShapeFacts(orig[y], types[y]);
    BisimilarStep(orig, x, y);
    ShapeFacts(orig[x], orig[y]);
    if (start <= x || start <= y) && !IsComposite(orig[x]) {
      assert Duplicates(types[x], types[y]);
    }
  }

  /** A type that means the same as k has the form of k, also after rewriting. */
  lemma SameForm(orig: seq<BtfType>, types: seq<BtfType>, k: TypeId, x: TypeId)
    requires GraphOk(orig) && GraphOk(types) && Tracks(orig, types) && k < |orig| && x < |orig|
    requires Bisimilar(orig, k, x)
    ensures orig[x].info == orig[k].info && Shape(types[x]) == Shape(orig[k])
    ensures |orig[x].refs| == |types[x].refs| == |orig[k].refs|
    ensures forall j :: 0 <= j < |orig[k].refs| ==> Bisimilar(orig, orig[k].refs[j], orig[x].refs[j])
  {
    BisimilarStep(orig, k, x);
    ShapeFacts(orig[k], orig[x]);
    ShapeFacts(orig[x], types[x]);
  }

  /** Off the structs, references lead to mergeable types, and not in a circle. */
  lemma RefMergeable(orig: seq<BtfType>, start: TypeId, rank: seq<nat>, k: TypeId, j: nat)
    requires FromCompiler(orig, start, rank) && k < |orig| && Mergeable(orig, k) && !IsComposite(orig[k])
    requires j < |orig[k].refs|
    ensures IsRefKind(orig[k].info.kind) && !IsPlaced(orig[orig[k].refs[j]].info.kind)
    ensures IsRefKind(orig[orig[k].refs[j]].info.kind) ==> rank[orig[k].refs[j]] < rank[k]
  {
  }

  lemma OutcomeFacts(orig: seq<BtfType>, types: seq<BtfType>, m: seq<nat>, start: TypeId, rank: seq<nat>)
    requires Outcome(orig, types, m, start, rank)
    ensures GraphOk(orig) && GraphOk(types) && Tracks(orig, types)
    ensures |orig| == |types| == |m| == |rank| && Forest(m)
    ensures forall i :: 0 <= i < |m| ==> m[Root(m, i)] == Root(m, i)
  {
  }

  /** Types that mean the same, and from which no declared name is seen, have the same
      canonical type. */
  lemma {:induction false} MeaningDecides(orig: seq<BtfType>, types: seq<BtfType>, m: seq<nat>, start: TypeId, rank: seq<nat>,
                                          k: TypeId, a: TypeId, b: TypeId)
    requires Outcome(orig, types, m, start, rank) && k < |m| && a < |m| && b < |m|
    requires Mergeable(orig, k) && Plain(orig, k) && Bisimilar(orig, k, a) && Bisimilar(orig, k, b)
    ensures Root(m, a) == Root(m, b)
    decreases if IsRefKind(orig[k].info.kind) then rank[k] + 1 else 0
  {
    OutcomeFacts(orig, types, m, start, rank);
    hide Canonicalized;
    hide FromCompiler;
    hide Distinguished;
    hide Tracks;
    hide IsRefKind;
    PlainStep(orig, k);
    PlainBisimilar(orig, k, a);
    PlainBisimilar(orig, k, b);
    hide Plain;
    var x, y := Root(m, a), Root(m, b);
    RootBisimilar(orig, types, m, start, a);
    RootBisimilar(orig, types, m, start, b);
    SameForm(orig, types, k, x);
    SameForm(orig, types, k, y);
    if !IsComposite(orig[k]) {
      forall j | 0 <= j < |orig[k].refs|
        ensures types[x].refs[j] == types[y].refs[j]
      {
        RefMergeable(orig, start, rank, k, j);
        MeaningDecides(orig, types, m, start, rank, orig[k].refs[j], orig[x].refs[j], orig[y].refs[j]);
        SameForm(orig, types, orig[k].refs[j], orig[x].refs[j]);
        SameForm(orig, types, orig[k].refs[j], orig[y].refs[j]);
        RewrittenRef(orig, types, m, start, rank, x, j);
        RewrittenRef(orig, types, m, start, rank, y, j);
      }
      SameRecord(types[x], types[y]);
    }
    CanonicalApart(orig, types, m, start, rank, x, y);
  }

  lemma SameRecord(t: BtfType, u: BtfType)
    requires Shape(t) == Shape(u) && t.refs == u.refs
    ensures t == u
  {
    ShapeFacts(t, u);
  }

  /** Deduplication is exact for every type from which no declared name is seen: another
      id stands for the same type afterwards if and only if it meant the same before. */
  lemma QuotientExact(orig: seq<BtfType>, types: seq<BtfType>, m: seq<nat>, start: TypeId, rank: seq<nat>, a: TypeId, b: TypeId)
    requires Outcome(orig, types, m, start, rank) && a < |m| && b < |m| && Mergeable(orig, a) && Plain(orig, a)
    ensures FinalId(m, start, a) == FinalId(m, start, b) <==> Bisimilar(orig, a, b)
  {
    var x, y := Root(m, a), Root(m, b);
    if Bisimilar(orig, a, b) {
      MeaningDecides(orig, types, m, start, rank, a, a, b);
    } else {
      RootsApart(orig, types, m, start, a, b);
      NewIdIncreasing(m, start, if x < y then x else y, if x < y then y else x);
    }
  }

  /** What has the canonical type of such a type means the same. */
  lemma RootsApart(orig: seq<BtfType>, types: seq<BtfType>, m: seq<nat>, start: TypeId, a: TypeId, b: TypeId)
    requires Canonicalized(orig, types, m, start) && a < |m| && b < |m| && Plain(orig, a) && !Bisimilar(orig, a, b)
    ensures Root(m, a) != Root(m, b)
  {
    RootBisimilar(orig, types, m, start, a);
    if Root(m, a) == Root(m, b) {
      SameRootPlain(orig, types, m, start, b);
      RootBisimilar(orig, types, m, start, b);
    }
  }

  /** A type whose canonical type sees no declared name does not see one either. */
  lemma SameRootPlain(orig: seq<BtfType>, types: seq<BtfType>, m: seq<nat>, start: TypeId, b: TypeId)
    requires Canonicalized(orig, types, m, start) && b < |m| && Plain(orig, Root(m, b))
    ensures Plain(orig, b)
  {
    assert MergeOk(orig, b, Root(m, b));
    hide Plain;
    hide Clear;
    PlainClear(orig, Root(m, b));
    PlainAgree(orig, Root(m, b), b);
  }

  /** A type of the new section that comes from a type from which no declared name is seen. */
  ghost predicate FromPlain(orig: seq<BtfType>, m: seq<nat>, start: TypeId, p: TypeId)
    requires GraphOk(orig) && Forest(m) && |m| == |orig| && start <= |m|
  {
    exists a :: 0 <= a < |m| && FinalId(m, start, a) == p && Mergeable(orig, a) && Plain(orig, a)
  }

  /** No two such types of the new section mean the same: there is nothing left to merge. */
  lemma NothingLeftToMerge(orig: seq<BtfType>, types: seq<BtfType>, m: seq<nat>, start: TypeId, rank: seq<nat>, p: TypeId, q: TypeId)
    requires Outcome(orig, types, m, start, rank) && FromPlain(orig, m, start, p) && FromPlain(orig, m, start, q) && p != q
    ensures GraphOk(Deduped(types, m, start)) && p < |Deduped(types, m, start)| && q < |Deduped(types, m, start)|
    ensures !Bisimilar(Deduped(types, m, start), p, q)
  {
    var ts := Deduped(types, m, start);
    DedupedGraphOk(orig, types, m, start);
    var a: TypeId :| a < |m| && FinalId(m, start, a) == p && Mergeable(orig, a) && Plain(orig, a);
    var b: TypeId :| b < |m| && FinalId(m, start, b) == q && Mergeable(orig, b) && Plain(orig, b);
    hide Plain;
    PlainMeaningPreserved(orig, types, m, start, a, []);
    PlainMeaningPreserved(orig, types, m, start, b, []);
    if Bisimilar(ts, p, q) {
      forall path
        ensures Observe(orig, a, path) == Observe(orig, b, path)
      {
        PlainMeaningPreserved(orig, types, m, start, a, path);
        PlainMeaningPreserved(orig, types, m, start, b, path);
        assert Observe(ts, p, path) == Observe(ts, q, path);
      }
      assert Bisimilar(orig, a, b);
      QuotientExact(orig, types, m, start, rank, a, b);
    }
  }

  /** Without forward declarations that is every type but variables, data sections and tags. */
  lemma AllFromPlain(orig: seq<BtfType>, types: seq<BtfType>, m: seq<nat>, start: TypeId, rank: seq<nat>, p: TypeId)
    requires Outcome(orig, types, m, start, rank) && NoDecls(orig)
    requires p < |Deduped(types, m, start)| && !IsPlaced(Deduped(types, m, start)[p].info.kind)
    ensures FromPlain(orig, m, start, p)
  {
    NewIdOnto(m, start, p);
    var a: TypeId :| a < |m| && (a < start || m[a] == a) && NewId(m, start, a) == p;
    DedupedShape(orig, types, m, start, a);
    ShapeFacts(Deduped(types, m, start)[p], orig[a]);
    NoDeclsPlain(orig, a);
    if a < start {
      BaseRoot(orig, types, m, start, rank, a);
    } else {
      RootStep(m, a);
    }
    assert FinalId(m, start, a) == p && Mergeable(orig, a);
  }
}
