/** Compaction of the type section and remapping of type ids, and what the
    deduplicated section says. */
module BtfCompaction {
  import opened BtfTypes
  import opened CanonicalMap
  import opened Equivalence
  import opened CanonicalIndex
  import opened RefTypes

  // ------------------------------------------------------------------
  // The new numbering
  // ------------------------------------------------------------------

  /** Canonical types from `start` up to `id`, in order. */
  ghost function Kept(m: seq<nat>, start: TypeId, id: TypeId): (ks: seq<TypeId>)
    requires id <= |m|
    ensures forall k :: 0 <= k < |ks| ==> start <= ks[k] < id && m[ks[k]] == ks[k]
    ensures start <= id ==> |ks| <= id - start
    ensures id <= start ==> ks == []
    decreases id
  {
    if id <= start then [] else Kept(m, start, id - 1) + if m[id - 1] == id - 1 then [id - 1] else []
  }

  /** The new id of a base type or canonical type. */
  ghost function NewId(m: seq<nat>, start: TypeId, id: TypeId): TypeId
    requires id <= |m|
  {
    if id < start then id else start + |Kept(m, start, id)|
  }

  lemma {:induction false} KeptPrefix(m: seq<nat>, start: TypeId, a: TypeId, b: TypeId)
    requires a <= b <= |m|
    ensures Kept(m, start, a) <= Kept(m, start, b)
    decreases b
  {
    if a < b {
      KeptPrefix(m, start, a, b - 1);
    }
  }

  /** A canonical type is found at its new id. */
  lemma KeptAtNewId(m: seq<nat>, start: TypeId, id: TypeId)
    requires start <= id < |m| && m[id] == id
    ensures |Kept(m, start, id)| < |Kept(m, start, |m|)|
    ensures Kept(m, start, |m|)[|Kept(m, start, id)|] == id
  {
    KeptPrefix(m, start, id + 1, |m|);
  }

  /** The renumbering is increasing, hence one to one, on what is kept ... */
  lemma NewIdIncreasing(m: seq<nat>, start: TypeId, a: TypeId, b: TypeId)
    requires a < b < |m|
    requires a < start || m[a] == a
    ensures NewId(m, start, a) < NewId(m, start, b)
  {
    if start <= a {
      KeptPrefix(m, start, a + 1, b);
    }
  }

  /** ... and hits every id of the new section. */
  lemma NewIdOnto(m: seq<nat>, start: TypeId, n: TypeId)
    requires start <= |m| && n < start + |Kept(m, start, |m|)|
    ensures exists id :: 0 <= id < |m| && (id < start || m[id] == id) && NewId(m, start, id) == n
  {
    if n < start {
      assert NewId(m, start, n) == n;
    } else {
      var ks := Kept(m, start, |m|);
      var id := ks[n - start];
      KeptAtNewId(m, start, id);
      KeptDistinct(m, start, |m|, n - start, |Kept(m, start, id)|);
      assert NewId(m, start, id) == n;
    }
  }

  lemma {:induction false} KeptDistinct(m: seq<nat>, start: TypeId, id: TypeId, i: nat, j: nat)
    requires id <= |m| && i < |Kept(m, start, id)| && j < |Kept(m, start, id)|
    requires Kept(m, start, id)[i] == Kept(m, start, id)[j]
    ensures i == j
    decreases id
  {
    var ks := Kept(m, start, id - 1);
    if i < |ks| && j < |ks| {
      KeptDistinct(m, start, id - 1, i, j);
    }
  }

  // ------------------------------------------------------------------
  // The new section
  // ------------------------------------------------------------------

  /** Where a reference to `id` ends up. */
  ghost function FinalId(m: seq<nat>, start: TypeId, id: TypeId): (r: TypeId)
    requires Forest(m) && id < |m|
  {
    NewId(m, start, Root(m, id))
  }

  ghost function FinalRefs(m: seq<nat>, start: TypeId, refs: seq<TypeId>): (rs: seq<TypeId>)
    requires Forest(m) && forall j :: 0 <= j < |refs| ==> refs[j] < |m|
    ensures |rs| == |refs| && forall j :: 0 <= j < |refs| ==> rs[j] == FinalId(m, start, refs[j])
  {
    seq(|refs|, j requires 0 <= j < |refs| => FinalId(m, start, refs[j]))
  }

  ghost function Remapped(m: seq<nat>, start: TypeId, t: BtfType): BtfType
    requires Forest(m) && forall j :: 0 <= j < |t.refs| ==> t.refs[j] < |m|
  {
    t.(refs := FinalRefs(m, start, t.refs))
  }

  /** The kept types up to `id`, in order. */
  ghost function KeptTypes(types: seq<BtfType>, m: seq<nat>, start: TypeId, id: TypeId): (ts: seq<BtfType>)
    requires id <= |m| == |types|
    ensures |ts| == |Kept(m, start, id)|
    ensures forall k :: 0 <= k < |ts| ==> ts[k] == types[Kept(m, start, id)[k]]
  {
    var ks := Kept(m, start, id);
    seq(|ks|, k requires 0 <= k < |ks| => types[ks[k]])
  }

  /** The section after remapping: base records are immutable. */
  ghost function Deduped(types: seq<BtfType>, m: seq<nat>, start: TypeId): (ts: seq<BtfType>)
    requires GraphOk(types) && Forest(m) && start <= |types| == |m|
    ensures |ts| == start + |Kept(m, start, |m|)|
  {
    types[..start] + RemappedAll(m, start, KeptTypes(types, m, start, |m|))
  }

  ghost function RemappedAll(m: seq<nat>, start: TypeId, ts: seq<BtfType>): (us: seq<BtfType>)
    requires Forest(m) && forall k, j :: 0 <= k < |ts| && 0 <= j < |ts[k].refs| ==> ts[k].refs[j] < |m|
    ensures |us| == |ts| && forall k :: 0 <= k < |ts| ==> us[k] == Remapped(m, start, ts[k])
  {
    seq(|ts|, k requires 0 <= k < |ts| => Remapped(m, start, ts[k]))
  }

  lemma FinalIdInRange(orig: seq<BtfType>, types: seq<BtfType>, m: seq<nat>, start: TypeId, id: TypeId)
    requires Canonicalized(orig, types, m, start) && start <= |m| && id < |m|
    ensures FinalId(m, start, id) < |Deduped(types, m, start)|
    ensures start <= Root(m, id) ==> Deduped(types, m, start)[FinalId(m, start, id)] == Remapped(m, start, types[Root(m, id)])
    ensures Root(m, id) < start ==> Deduped(types, m, start)[FinalId(m, start, id)] == types[Root(m, id)]
  {
    hide Tracks;
    hide NoDuplicates;
    hide MergeOk;
    hide RefRankedFor;
    var r := Root(m, id);
    if start <= r {
      KeptAtNewId(m, start, r);
    }
  }

  /** The references of the base stay within the base. */
  ghost predicate BaseClosed(types: seq<BtfType>, start: TypeId) {
    forall i, j :: 0 <= i < start && i < |types| && 0 <= j < |types[i].refs| ==> types[i].refs[j] < start
  }

  lemma DedupedRecordOk(orig: seq<BtfType>, types: seq<BtfType>, m: seq<nat>, start: TypeId, i: TypeId)
    requires Canonicalized(orig, types, m, start) && 1 <= start <= |m| && BaseClosed(orig, start)
    requires i < |Deduped(types, m, start)|
    ensures var ts := Deduped(types, m, start);
            WellFormed(ts[i]) && forall j :: 0 <= j < |ts[i].refs| ==> ts[i].refs[j] < |ts|
  {
    hide Tracks;
    hide NoDuplicates;
    hide MergeOk;
    hide RefRankedFor;
    if start <= i {
      var t := types[Kept(m, start, |m|)[i - start]];
      forall j | 0 <= j < |t.refs|
        ensures FinalId(m, start, t.refs[j]) < |Deduped(types, m, start)|
      {
        FinalIdInRange(orig, types, m, start, t.refs[j]);
      }
    }
  }

  /** The deduplicated section is a type graph again: all ids are in range. */
  lemma DedupedGraphOk(orig: seq<BtfType>, types: seq<BtfType>, m: seq<nat>, start: TypeId)
    requires Canonicalized(orig, types, m, start) && 1 <= start <= |m| && BaseClosed(orig, start)
    ensures GraphOk(Deduped(types, m, start))
  {
    var ts := Deduped(types, m, start);
    forall i | 0 <= i < |ts|
      ensures WellFormed(ts[i]) && forall j :: 0 <= j < |ts[i].refs| ==> ts[i].refs[j] < |ts|
    {
      DedupedRecordOk(orig, types, m, start, i);
    }
  }

  // ------------------------------------------------------------------
  // The result is the quotient of the input
  // ------------------------------------------------------------------

  lemma RootOfRoot(m: seq<nat>, a: TypeId)
    requires Forest(m) && a < |m|
    ensures Root(m, Root(m, a)) == Root(m, a)
  {
    RootStep(m, Root(m, a));
  }

  /** Every kept type has its given content, each reference replaced by the new id of
      the canonical type of what it referred to. */
  lemma DedupedIsQuotient(orig: seq<BtfType>, types: seq<BtfType>, m: seq<nat>, start: TypeId, id: TypeId)
    requires Canonicalized(orig, types, m, start) && 1 <= start <= |m|
    requires start <= id < |m| && m[id] == id
    ensures NewId(m, start, id) < |Deduped(types, m, start)|
    ensures Deduped(types, m, start)[NewId(m, start, id)] == Remapped(m, start, orig[id])
  {
    KeptAtNewId(m, start, id);
    ShapeFacts(types[id], orig[id]);
    var a, b := FinalRefs(m, start, types[id].refs), FinalRefs(m, start, orig[id].refs);
    assert |a| == |b|;
    forall j | 0 <= j < |a|
      ensures a[j] == b[j]
    {
      if IsRefKind(orig[id].info.kind) {
        RootOfRoot(m, orig[id].refs[j]);
      }
    }
    assert a == b;
  }

  /** A type of the new section has the shape of the base or canonical type behind it. */
  lemma DedupedShape(orig: seq<BtfType>, types: seq<BtfType>, m: seq<nat>, start: TypeId, id: TypeId)
    requires Canonicalized(orig, types, m, start) && 1 <= start <= |m|
    requires id < |m| && (id < start || m[id] == id)
    ensures NewId(m, start, id) < |Deduped(types, m, start)|
    ensures Shape(Deduped(types, m, start)[NewId(m, start, id)]) == Shape(orig[id])
  {
    if start <= id {
      DedupedIsQuotient(orig, types, m, start, id);
    }
  }

  /** Where the given section defines a name, so does the new one. */
  lemma DefinitionKept(orig: seq<BtfType>, types: seq<BtfType>, m: seq<nat>, start: TypeId, id: TypeId, e: TypeId)
    requires Canonicalized(orig, types, m, start) && 1 <= start <= |m|
    requires id < |m| && (id < start || m[id] == id) && e < |m| && Defines(orig, id, e)
    ensures NewId(m, start, id) < |Deduped(types, m, start)| && FinalId(m, start, e) < |Deduped(types, m, start)|
    ensures Defines(Deduped(types, m, start), NewId(m, start, id), FinalId(m, start, e))
  {
    var ts := Deduped(types, m, start);
    var r := Root(m, e);
    assert MergeOk(orig, e, r);
    DedupedShape(orig, types, m, start, id);
    DedupedShape(orig, types, m, start, r);
    ShapeFacts(ts[NewId(m, start, id)], orig[id]);
    ShapeFacts(ts[NewId(m, start, r)], orig[r]);
  }

  /** A definition found in the new section comes from one in the given section. */
  lemma DefinitionGiven(orig: seq<BtfType>, types: seq<BtfType>, m: seq<nat>, start: TypeId, id: TypeId, d: TypeId) returns (e: TypeId)
    requires Canonicalized(orig, types, m, start) && 1 <= start <= |m|
    requires id < |m| && (id < start || m[id] == id)
    requires NewId(m, start, id) < |Deduped(types, m, start)| && d < |Deduped(types, m, start)|
    requires Defines(Deduped(types, m, start), NewId(m, start, id), d)
    ensures e < |m| && (e < start || m[e] == e) && NewId(m, start, e) == d
    ensures Defines(orig, id, e)
  {
    NewIdOnto(m, start, d);
    e :| e < |m| && (e < start || m[e] == e) && NewId(m, start, e) == d;
    var ts := Deduped(types, m, start);
    DedupedShape(orig, types, m, start, id);
    DedupedShape(orig, types, m, start, e);
    ShapeFacts(ts[NewId(m, start, id)], orig[id]);
    ShapeFacts(ts[d], orig[e]);
  }

  lemma RootMeaning(orig: seq<BtfType>, types: seq<BtfType>, m: seq<nat>, start: TypeId, x: TypeId, path: seq<nat>)
    requires Canonicalized(orig, types, m, start) && x < |m| && Clear(orig, x)
    ensures Clear(orig, Root(m, x)) && ObserveDefined(orig, x, path) == ObserveDefined(orig, Root(m, x), path)
  {
    hide Clear;
    assert MergeOk(orig, x, Root(m, x));
    ClearAgree(orig, x, Root(m, x));
  }

  /** The meaning of a definition follows from that of its references. */
  lemma DefinitionMeaning(orig: seq<BtfType>, types: seq<BtfType>, m: seq<nat>, start: TypeId, id: TypeId, path: seq<nat>)
    requires Canonicalized(orig, types, m, start) && 1 <= start <= |m| && BaseClosed(orig, start)
    requires GraphOk(Deduped(types, m, start))
    requires id < |m| && (id < start || m[id] == id) && !IsDecl(orig[id]) && Clear(orig, id)
    ensures NewId(m, start, id) < |Deduped(types, m, start)|
    ensures ObserveDefined(orig, id, path) == ObserveDefined(Deduped(types, m, start), NewId(m, start, id), path)
    decreases |path|, 0
  {
    var ts := Deduped(types, m, start);
    var n := NewId(m, start, id);
    DedupedShape(orig, types, m, start, id);
    ShapeFacts(ts[n], orig[id]);
    assert Definition(orig, id) == id;
    ClearStep(orig, id);
    hide Clear;
    if path != [] && path[0] < |orig[id].refs| {
      var x := orig[id].refs[path[0]];
      assert Clear(orig, x);
      if id < start {
        KeptMeaning(orig, types, m, start, x, path[1..]);
      } else {
        DedupedIsQuotient(orig, types, m, start, id);
        RootMeaning(orig, types, m, start, x, path[1..]);
        KeptMeaning(orig, types, m, start, Root(m, x), path[1..]);
      }
    }
  }

  lemma UndefinedMeaning(orig: seq<BtfType>, id: TypeId, ts: seq<BtfType>, n: TypeId, path: seq<nat>)
    requires GraphOk(orig) && GraphOk(ts) && id < |orig| && n < |ts|
    requires IsDecl(orig[id]) && Shape(ts[n]) == Shape(orig[id])
    requires Definition(orig, id) == id && Definition(ts, n) == n
    ensures ObserveDefined(orig, id, path) == ObserveDefined(ts, n, path)
  {
    ShapeFacts(ts[n], orig[id]);
    assert orig[id].refs == ts[n].refs == [];
  }

  /** A declaration means what its definition means, if there is one. */
  lemma KeptMeaning(orig: seq<BtfType>, types: seq<BtfType>, m: seq<nat>, start: TypeId, id: TypeId, path: seq<nat>)
    requires Canonicalized(orig, types, m, start) && 1 <= start <= |m| && BaseClosed(orig, start)
    requires GraphOk(Deduped(types, m, start))
    requires id < |m| && (id < start || m[id] == id) && Clear(orig, id)
    ensures NewId(m, start, id) < |Deduped(types, m, start)|
    ensures ObserveDefined(orig, id, path) == ObserveDefined(Deduped(types, m, start), NewId(m, start, id), path)
    decreases |path|, 1
  {
    hide RefCount;
    hide Definition;
    hide Duplicates;
    var ts := Deduped(types, m, start);
    var n := NewId(m, start, id);
    DedupedShape(orig, types, m, start, id);
    ShapeFacts(ts[n], orig[id]);
    assert |orig| == |m| && GraphOk(orig);
    hide Canonicalized;
    hide Deduped;
    hide BaseClosed;
    hide Clear;
    hide GraphOk;
    var d := Definition(ts, n);
    if !IsDecl(orig[id]) {
      DefinitionMeaning(orig, types, m, start, id, path);
    } else if d != n {
      var e := DefinitionGiven(orig, types, m, start, id, d);
      DeclAgrees(orig, id, e);
      ClearAgree(orig, id, e);
      DefinitionMeaning(orig, types, m, start, e, path);
      assert ObserveDefined(ts, n, path) == ObserveDefined(ts, d, path);
    } else {
      var e := Definition(orig, id);
      if e != id {
        DefinitionKept(orig, types, m, start, id, e);
        assert false;
      }
      UndefinedMeaning(orig, id, ts, n, path);
    }
  }

  /** Deduplication keeps the meaning of every type that sees no ambiguous name: no path
      of references tells it from the type that its id now stands for, declarations
      standing for their definitions on both sides. */
  lemma MeaningPreserved(orig: seq<BtfType>, types: seq<BtfType>, m: seq<nat>, start: TypeId, id: TypeId, path: seq<nat>)
    requires Canonicalized(orig, types, m, start) && 1 <= start <= |m| && BaseClosed(orig, start)
    requires id < |m| && Clear(orig, id)
    ensures GraphOk(Deduped(types, m, start))
    ensures FinalId(m, start, id) < |Deduped(types, m, start)|
    ensures ObserveDefined(orig, id, path) == ObserveDefined(Deduped(types, m, start), FinalId(m, start, id), path)
  {
    DedupedGraphOk(orig, types, m, start);
    RootMeaning(orig, types, m, start, id, path);
    KeptMeaning(orig, types, m, start, Root(m, id), path);
  }

  lemma RootPlain(orig: seq<BtfType>, types: seq<BtfType>, m: seq<nat>, start: TypeId, x: TypeId)
    requires Canonicalized(orig, types, m, start) && x < |m| && Plain(orig, x)
    ensures Plain(orig, Root(m, x)) && Agree(orig, x, Root(m, x))
  {
    assert MergeOk(orig, x, Root(m, x));
    hide Plain;
    hide Clear;
    PlainClear(orig, x);
    PlainAgree(orig, x, Root(m, x));
  }

  lemma {:induction false} KeptPlain(orig: seq<BtfType>, types: seq<BtfType>, m: seq<nat>, start: TypeId, id: TypeId, path: seq<nat>)
    requires Canonicalized(orig, types, m, start) && 1 <= start <= |m| && BaseClosed(orig, start)
    requires GraphOk(Deduped(types, m, start)) && id < |m| && (id < start || m[id] == id) && Plain(orig, id)
    ensures NewId(m, start, id) < |Deduped(types, m, start)|
    ensures Observe(orig, id, path) == Observe(Deduped(types, m, start), NewId(m, start, id), path)
    decreases |path|
  {
    var ts, n := Deduped(types, m, start), NewId(m, start, id);
    DedupedShape(orig, types, m, start, id);
    ShapeFacts(ts[n], orig[id]);
    PlainStep(orig, id);
    hide Plain;
    if path != [] && path[0] < |orig[id].refs| {
      var x := orig[id].refs[path[0]];
      if id < start {
        KeptPlain(orig, types, m, start, x, path[1..]);
      } else {
        DedupedIsQuotient(orig, types, m, start, id);
        RootObserve(orig, types, m, start, x, path[1..]);
        KeptPlain(orig, types, m, start, Root(m, x), path[1..]);
      }
    }
  }

  lemma RootObserve(orig: seq<BtfType>, types: seq<BtfType>, m: seq<nat>, start: TypeId, x: TypeId, path: seq<nat>)
    requires Canonicalized(orig, types, m, start) && x < |m| && Plain(orig, x)
    ensures Plain(orig, Root(m, x)) && Observe(orig, x, path) == Observe(orig, Root(m, x), path)
  {
    RootPlain(orig, types, m, start, x);
    hide Plain;
    PlainClear(orig, x);
    PlainClear(orig, Root(m, x));
    assert ObserveDefined(orig, x, path) == ObserveDefined(orig, Root(m, x), path);
  }

  /** What sees no declared name keeps everything that can be observed of it. */
  lemma PlainMeaningPreserved(orig: seq<BtfType>, types: seq<BtfType>, m: seq<nat>, start: TypeId, id: TypeId, path: seq<nat>)
    requires Canonicalized(orig, types, m, start) && 1 <= start <= |m| && BaseClosed(orig, start)
    requires id < |m| && Plain(orig, id)
    ensures GraphOk(Deduped(types, m, start))
    ensures FinalId(m, start, id) < |Deduped(types, m, start)|
    ensures Observe(orig, id, path) == Observe(Deduped(types, m, start), FinalId(m, start, id), path)
  {
    hide Plain;
    DedupedGraphOk(orig, types, m, start);
    RootObserve(orig, types, m, start, id, path);
    KeptPlain(orig, types, m, start, Root(m, id), path);
  }

  /** However ambiguous the declarations: the type an id now stands for has the same
      name in the same C namespace, and a definition never turned into a declaration. */
  lemma NamesPreserved(orig: seq<BtfType>, types: seq<BtfType>, m: seq<nat>, start: TypeId, id: TypeId)
    requires Canonicalized(orig, types, m, start) && 1 <= start <= |m| && id < |m|
    ensures FinalId(m, start, id) < |Deduped(types, m, start)|
    ensures var t := Deduped(types, m, start)[FinalId(m, start, id)];
            SameClass(orig[id], t) && (IsDecl(t) ==> IsDecl(orig[id]))
  {
    var r := Root(m, id);
    FinalIdInRange(orig, types, m, start, id);
    assert MergeOk(orig, id, r);
    ShapeFacts(orig[r], types[r]);
  }
}
