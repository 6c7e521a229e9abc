/** The invariant that ties the canonical map to the index of canonical types, and
    the ways in which the passes preserve it. */
module CanonicalIndex {
  import opened BtfTypes
  import opened CanonicalMap
  import opened Equivalence
  import H = HashMap

  /** Kinds that are ever filed in the index. */
  predicate IsHashedKind(k: Kind) { k !in {Unknown, Var, Datasec} }

  /** Two types of which only one may stay canonical. */
  predicate Duplicates(a: BtfType, b: BtfType) {
    EnumCompatible(a, b) || (a == b && IsHashedKind(a.info.kind) && !IsComposite(a))
  }

  predicate SameStructs(a: BtfType, b: BtfType) { IsComposite(a) && Shape(a) == Shape(b) }

  /** A signature by which duplicates, and structs worth comparing, can be found. */
  ghost predicate SignatureOk(sig: BtfType -> nat) {
    && (forall a, b {:trigger Duplicates(a, b)} :: Duplicates(a, b) ==> sig(a) == sig(b))
    && (forall a, b {:trigger SameStructs(a, b)} :: SameStructs(a, b) ==> sig(a) == sig(b))
  }

  lemma SignatureWorks()
    ensures SignatureOk(Signature)
  {
    forall a, b | SameStructs(a, b)
      ensures Signature(a) == Signature(b)
    {
      ShapeFacts(a, b);
    }
  }

  /** The hash table holds exactly the filed types, each under its signature. */
  ghost predicate TableOk(sig: BtfType -> nat, types: seq<BtfType>, filed: set<TypeId>, c: multiset<H.Entry>) {
    && (forall i :: i in filed ==> i < |types| && H.Entry(sig(types[i]), i) in c)
    && (forall e :: e in c ==> e.value >= 0 && (e.value as TypeId) in filed && e.value < |types| && e.key == sig(types[e.value]))
  }

  lemma TableGrows(sig: BtfType -> nat, types: seq<BtfType>, filed: set<TypeId>, c: multiset<H.Entry>, id: TypeId)
    requires TableOk(sig, types, filed - {id}, c) && id in filed && id < |types|
    ensures TableOk(sig, types, filed, c + multiset{H.Entry(sig(types[id]), id)})
  {
    forall i | i in filed
      ensures i < |types| && H.Entry(sig(types[i]), i) in c + multiset{H.Entry(sig(types[id]), id)}
    {
      assert i != id ==> i in filed - {id};
    }
  }

  /** Filed types stay canonical unless they are declarations that found their definition. */
  ghost predicate FiledOk(types: seq<BtfType>, m: seq<nat>, filed: set<TypeId>)
    requires |m| == |types|
  {
    forall i :: i in filed ==> i < |types| && IsMapped(m, i) && (IsDecl(types[i]) || m[i] == i)
  }

  ghost predicate FiledComplete(types: seq<BtfType>, m: seq<nat>, filed: set<TypeId>)
    requires |m| == |types|
  {
    forall i :: 0 <= i < |m| && m[i] == i && IsHashedKind(types[i].info.kind) ==> i in filed
  }

  /** Outside the immutable base no two canonical types are duplicates. */
  ghost predicate NoDuplicates(types: seq<BtfType>, m: seq<nat>, start: TypeId)
    requires |m| == |types|
  {
    forall i, j {:trigger Duplicates(types[i], types[j])} ::
      0 <= i < |m| && 0 <= j < |m| && i != j && m[i] == i && m[j] == j && (start <= i || start <= j)
      ==> !Duplicates(types[i], types[j])
  }

  /** The rewritten records: same shapes, each reference replaced at most by a
      type that may represent it. */
  ghost predicate Tracks(orig: seq<BtfType>, types: seq<BtfType>)
    requires GraphOk(orig) && GraphOk(types)
  {
    && |orig| == |types|
    && (forall i :: 0 <= i < |orig| ==> Shape(types[i]) == Shape(orig[i]))
    && (forall i, j :: 0 <= i < |orig| && 0 <= j < |orig[i].refs| && j < |types[i].refs| ==>
          MergeOk(orig, orig[i].refs[j], types[i].refs[j]))
  }

  ghost predicate InvariantBy(orig: seq<BtfType>, types: seq<BtfType>, m: seq<nat>, filed: set<TypeId>, start: TypeId, rank: seq<nat>) {
    && GraphOk(orig) && GraphOk(types) && Tracks(orig, types)
    && |m| == |types|
    && LinksOk(orig, m) && Ranked(m, rank)
    && FiledOk(types, m, filed) && FiledComplete(types, m, filed)
    && NoDuplicates(types, m, start)
  }

  /** What every step of every pass keeps.  `orig` are the records as given, `types`
      as rewritten so far, `filed` the types in the index, `start` the first id
      after the immutable base. */
  ghost predicate Invariant(orig: seq<BtfType>, types: seq<BtfType>, m: seq<nat>, filed: set<TypeId>, start: TypeId) {
    exists rank :: InvariantBy(orig, types, m, filed, start, rank)
  }

  lemma InvariantFacts(orig: seq<BtfType>, types: seq<BtfType>, m: seq<nat>, filed: set<TypeId>, start: TypeId)
    ensures Invariant(orig, types, m, filed, start) <==>
      && GraphOk(orig) && GraphOk(types) && Tracks(orig, types)
      && |m| == |types|
      && Forest(m) && LinksOk(orig, m)
      && FiledOk(types, m, filed) && FiledComplete(types, m, filed)
      && NoDuplicates(types, m, start)
  {
    if Forest(m) && GraphOk(orig) && GraphOk(types) && LinksOk(orig, m) && |m| == |types| {
      var rank :| Ranked(m, rank);
      assert Invariant(orig, types, m, filed, start) <== InvariantBy(orig, types, m, filed, start, rank);
    }
  }

  lemma TracksItself(types: seq<BtfType>)
    requires GraphOk(types)
    ensures Tracks(types, types)
  {
  }

  /** Type i becomes canonical and is filed. */
  lemma AddCanonical(orig: seq<BtfType>, types: seq<BtfType>, m: seq<nat>, filed: set<TypeId>, start: TypeId, i: TypeId)
    requires Invariant(orig, types, m, filed, start) && i < |m|
    requires forall j :: j in filed && m[j] == j && j != i && (start <= i || start <= j) ==> !Duplicates(types[i], types[j])
    ensures Invariant(orig, types, m[i := i], filed + {i}, start)
  {
    var m' := m[i := i];
    var rank :| InvariantBy(orig, types, m, filed, start, rank);
    forall a, b | 0 <= a < |m'| && 0 <= b < |m'| && a != b && m'[a] == a && m'[b] == b && (start <= a || start <= b)
      ensures !Duplicates(types[a], types[b])
    {
      assert Duplicates(types[a], types[b]) ==> Duplicates(types[b], types[a]) && IsHashedKind(types[b].info.kind);
    }
    assert InvariantBy(orig, types, m', filed + {i}, start, rank);
  }

  /** Type i is pointed at a type that may represent it. */
  lemma AddLink(orig: seq<BtfType>, types: seq<BtfType>, m: seq<nat>, filed: set<TypeId>, start: TypeId, i: TypeId, j: TypeId)
    requires Invariant(orig, types, m, filed, start) && i < |m| && j < |m|
    requires i != j && Forest(m[i := j])
    requires IsDecl(types[i]) || m[i] != i
    requires MergeOk(orig, i, j)
    ensures Invariant(orig, types, m[i := j], filed, start)
  {
    var m' := m[i := j];
    var rank :| Ranked(m', rank);
    forall a | 0 <= a < |m'| && Linked(m', a)
      ensures MergeOk(orig, a, m'[a])
    {
      if a != i {
        assert Linked(m, a);
      }
    }
    assert InvariantBy(orig, types, m', filed, start, rank);
  }

  /** The verdict on `id` may be recorded. */
  ghost predicate CanSettle(orig: seq<BtfType>, types: seq<BtfType>, m: seq<nat>, filed: set<TypeId>, start: TypeId, id: TypeId, newId: TypeId)
    requires GraphOk(orig) && |m| == |types| == |orig| && id < |m| && newId < |m|
    requires forall i :: i in filed ==> i < |m|
  {
    if newId == id then
      forall j :: j in filed && m[j] == j && j != id && (start <= id || start <= j) ==> !Duplicates(types[id], types[j])
    else Forest(m[id := newId]) && MergeOk(orig, id, newId) && (IsDecl(types[id]) || m[id] != id)
  }

  lemma SettleKeeps(orig: seq<BtfType>, types: seq<BtfType>, m: seq<nat>, filed: set<TypeId>, start: TypeId, id: TypeId, newId: TypeId)
    requires Invariant(orig, types, m, filed, start) && id < |m| && newId < |m|
    requires CanSettle(orig, types, m, filed, start, id, newId)
    ensures Invariant(orig, types, m[id := newId], if newId == id then filed + {id} else filed, start)
  {
    if newId == id {
      AddCanonical(orig, types, m, filed, start, id);
    } else {
      AddLink(orig, types, m, filed, start, id, newId);
    }
  }

  /** Type i is marked as being worked on. */
  lemma MarkInProgress(orig: seq<BtfType>, types: seq<BtfType>, m: seq<nat>, filed: set<TypeId>, start: TypeId, i: TypeId)
    requires Invariant(orig, types, m, filed, start) && i < |m|
    requires !IsMapped(m, i)
    ensures Invariant(orig, types, m[i := IN_PROGRESS_ID], filed, start)
  {
    var rank :| InvariantBy(orig, types, m, filed, start, rank);
    assert InvariantBy(orig, types, m[i := IN_PROGRESS_ID], filed, start, rank);
  }

  /** All link targets have been processed themselves. */
  ghost predicate TargetsMapped(m: seq<nat>)
    requires MapOk(m)
  {
    forall i :: 0 <= i < |m| && Linked(m, i) ==> IsMapped(m, m[i])
  }

  lemma {:induction false} RankedRootMapped(m: seq<nat>, rank: seq<nat>, i: TypeId)
    requires MapOk(m) && Ranked(m, rank) && TargetsMapped(m)
    requires i < |m| && IsMapped(m, i)
    ensures m[RankedRoot(m, rank, i)] == RankedRoot(m, rank, i)
    decreases rank[i]
  {
    if Linked(m, i) {
      RankedRootMapped(m, rank, m[i]);
    }
  }

  /** Resolving a processed type ends at a canonical one. */
  lemma RootCanonical(m: seq<nat>, i: TypeId)
    requires Forest(m) && TargetsMapped(m)
    requires i < |m| && IsMapped(m, i)
    ensures m[Root(m, i)] == Root(m, i)
  {
    var rank: seq<nat> :| Ranked(m, rank) && Root(m, i) == RankedRoot(m, rank, i);
    RankedRootMapped(m, rank, i);
  }

  // ------------------------------------------------------------------
  // Merging a hypothesis
  // ------------------------------------------------------------------

  /** What survives of an accepted hypothesis while the canonical map changes. */
  ghost predicate PairsSound(types: seq<BtfType>, h: seq<nat>)
    requires GraphOk(types) && HypotOk(h) && |h| == |types|
  {
    forall c :: 0 <= c < |h| && Recorded(h, c) ==>
      SameClass(types[c], types[h[c]]) && AgreeIfClear(types, c, h[c])
  }

  lemma AcceptedPairsSound(v: View, h: seq<nat>)
    requires ViewOk(v) && HypotOk(h) && |h| == |v.types|
    requires LinksOk(v.types, v.canon) && AllPairsOk(v, h)
    ensures PairsSound(v.types, h)
  {
    forall c | 0 <= c < |h| && Recorded(h, c)
      ensures SameClass(v.types[c], v.types[h[c]]) && AgreeIfClear(v.types, c, h[c])
    {
      assert PairOk(v, h, c);
      PairSameClass(v, h, c);
      HypothesisAgrees(v, h, c);
    }
  }

  lemma RelatedAgree(v: View, h: seq<nat>, a: TypeId, b: TypeId)
    requires ViewOk(v) && HypotOk(h) && |h| == |v.types| && a < |h| && b < |h|
    requires LinksOk(v.types, v.canon) && AllPairsOk(v, h)
    requires Related(v, h, a, b) && (Clear(v.types, a) || Clear(v.types, b))
    ensures Agree(v.types, a, b)
  {
    hide Clear;
    forall path
      ensures ObserveDefined(v.types, a, path) == ObserveDefined(v.types, b, path)
    {
      RelatedObserve(v, h, a, b, path);
    }
  }

  /** What one or more merges may change: declarations and unprocessed structs get
      a target; canonical definitions stay, and nothing becomes canonical. */
  ghost predicate MergeFrame(types: seq<BtfType>, m: seq<nat>, m': seq<nat>)
    requires |m| == |types|
  {
    && |m'| == |m|
    && forall i :: 0 <= i < |m| ==>
         && (m[i] == i && !IsDecl(types[i]) ==> m'[i] == i)
         && (m'[i] == i ==> m[i] == i)
         && (m'[i] != m[i] ==> (types[i].info.kind == Fwd || IsComposite(types[i])) && IsMapped(m', i))
  }

  lemma MergeFrameLink(types: seq<BtfType>, m: seq<nat>, from: TypeId, to: TypeId)
    requires |m| == |types| <= MAX_NR_TYPES && from < |m| && to < |m| && from != to
    requires types[from].info.kind == Fwd || (IsComposite(types[from]) && !IsMapped(m, from))
    ensures MergeFrame(types, m, m[from := to])
  {
  }

  lemma MergeFrameNone(types: seq<BtfType>, m: seq<nat>)
    requires |m| == |types|
    ensures MergeFrame(types, m, m)
  {
  }

  lemma MergeFrameTransitive(types: seq<BtfType>, m0: seq<nat>, m1: seq<nat>, m2: seq<nat>)
    requires |m0| == |m1| == |types|
    requires MergeFrame(types, m0, m1) && MergeFrame(types, m1, m2)
    ensures MergeFrame(types, m0, m2)
  {
    forall i | 0 <= i < |m0| && m2[i] != m0[i]
      ensures (types[i].info.kind == Fwd || IsComposite(types[i])) && IsMapped(m2, i)
    {
      assert m2[i] == m1[i] ==> IsMapped(m1, i);
    }
  }

  /** The roots of the two sides of a record may represent each other, as far as
      the kinds of types decide which way round. */
  lemma RootsOfPair(types: seq<BtfType>, m: seq<nat>, h: seq<nat>, c: TypeId)
    requires GraphOk(types) && HypotOk(h) && |h| == |types| && LinksOk(types, m) && Forest(m)
    requires PairsSound(types, h) && c < |h| && Recorded(h, c)
    ensures var t, u := Root(m, h[c]), Root(m, c);
            && SameClass(types[t], types[u])
            && AgreeIfClear(types, t, u)
            && (types[t].info.kind != Fwd && types[u].info.kind == Fwd ==> MergeOk(types, u, t))
            && (types[t].info.kind == Fwd && types[u].info.kind != Fwd ==> MergeOk(types, t, u))
            && (IsComposite(types[t]) && types[u].info.kind != Fwd ==> MergeOk(types, t, u))
  {
    var t, u := Root(m, h[c]), Root(m, c);
    RootMergeOk(types, m, h[c]);
    RootMergeOk(types, m, c);
    hide AgreeIfClear;
    hide Root;
    AgreeIfClearSymmetric(types, c, h[c]);
    AgreeIfClearSymmetric(types, h[c], t);
    AgreeIfClearTransitive(types, t, h[c], c);
    AgreeIfClearTransitive(types, t, c, u);
    AgreeIfClearSymmetric(types, t, u);
  }

  /** The canonical map after merging the record of canon: a declaration is pointed at
      a definition, whichever side it is on, and an unprocessed struct at a processed
      one; with `adjustCanon` only canonical-side declarations are pointed. */
  ghost function Merged(types: seq<BtfType>, m: seq<nat>, h: seq<nat>, canon: TypeId, adjustCanon: bool): seq<nat>
    requires Forest(m) && |m| == |types| == |h| && HypotOk(h) && canon < |h| && Recorded(h, canon)
  {
    var t, c := Root(m, h[canon]), Root(m, canon);
    if types[t].info.kind != Fwd && types[c].info.kind == Fwd then m[c := t]
    else if adjustCanon || types[c].info.kind == Fwd then m
    else if types[t].info.kind == Fwd || (IsComposite(types[t]) && IsMapped(m, c) && !IsMapped(m, t)) then m[t := c]
    else m
  }

  /** A merge that changes the map makes the two sides of the record one, resolving
      everything else as before. */
  lemma MergedJoins(types: seq<BtfType>, m: seq<nat>, h: seq<nat>, canon: TypeId, adjustCanon: bool, x: TypeId)
    requires Forest(m) && |m| == |types| == |h| && HypotOk(h) && canon < |h| && Recorded(h, canon) && x < |m|
    ensures var m' := Merged(types, m, h, canon, adjustCanon);
            && Forest(m')
            && (m' != m ==> Root(m', canon) == Root(m', h[canon]))
            && (Root(m, x) != Root(m, canon) && Root(m, x) != Root(m, h[canon]) ==> Root(m', x) == Root(m, x))
            && (Root(m, canon) == Root(m, h[canon]) ==> Root(m', x) == Root(m, x))
  {
    var m' := Merged(types, m, h, canon, adjustCanon);
    var t, c := Root(m, h[canon]), Root(m, canon);
    if m' == m[c := t] && c != t {
      LinkToTerminal(m, c, t);
      LinkJoins(m, c, t, x);
      LinkJoins(m, c, t, canon);
      LinkJoins(m, c, t, h[canon]);
    } else if m' == m[t := c] && c != t {
      LinkToTerminal(m, t, c);
      LinkJoins(m, t, c, x);
      LinkJoins(m, t, c, canon);
      LinkJoins(m, t, c, h[canon]);
    } else {
      assert m' == m;
    }
  }

  lemma MergedForest(types: seq<BtfType>, m: seq<nat>, h: seq<nat>, canon: TypeId, adjustCanon: bool)
    requires Forest(m) && |m| == |types| == |h| && HypotOk(h) && canon < |h| && Recorded(h, canon)
    ensures Forest(Merged(types, m, h, canon, adjustCanon)) && |Merged(types, m, h, canon, adjustCanon)| == |m|
  {
    MergedJoins(types, m, h, canon, adjustCanon, canon);
  }

  /** The first k listed records, merged in order. */
  ghost function MergedAll(types: seq<BtfType>, m: seq<nat>, h: seq<nat>, list: seq<TypeId>, k: nat, adjustCanon: bool): (m': seq<nat>)
    requires Forest(m) && |m| == |types| == |h| && HypotOk(h) && k <= |list|
    requires forall i :: 0 <= i < |list| ==> list[i] < |h| && Recorded(h, list[i])
    ensures Forest(m') && |m'| == |m|
  {
    if k == 0 then m else
      var m1 := MergedAll(types, m, h, list, k - 1, adjustCanon);
      MergedForest(types, m1, h, list[k - 1], adjustCanon);
      Merged(types, m1, h, list[k - 1], adjustCanon)
  }

  // ------------------------------------------------------------------
  // Primitive types
  // ------------------------------------------------------------------

  /** Links lead only from primitive types to processed ones. */
  ghost predicate PrimLinks(types: seq<BtfType>, m: seq<nat>) {
    && |m| == |types| && MapOk(m) && TargetsMapped(m)
    && forall i :: 0 <= i < |m| && Linked(m, i) ==> IsPrimKind(types[i].info.kind)
  }

  /** An unprocessed primitive type may be linked to any processed one. */
  lemma PrimLink(types: seq<BtfType>, m: seq<nat>, id: TypeId, newId: TypeId)
    requires GraphOk(types) && Forest(m) && PrimLinks(types, m)
    requires id < |m| && newId < |m| && !IsMapped(m, id) && IsMapped(m, newId)
    ensures Forest(m[id := newId])
    ensures types[newId] == types[id] ==> MergeOk(types, id, newId)
  {
    RootCanonical(m, newId);
    LinkFromTerminal(m, id, newId);
    if types[newId] == types[id] {
      IdenticalRecordsAgree(types, id, newId);
    }
  }

  /** While enum `id` is being compared, canonical enum declarations may have been
      redirected to it. */
  ghost predicate EnumStep(types: seq<BtfType>, m0: seq<nat>, m: seq<nat>, id: TypeId) {
    && |m| == |m0| == |types| && id < |m0|
    && m[id] == m0[id]
    && forall i :: 0 <= i < |m0| && m[i] != m0[i] ==> IsMapped(m0, i) && IsEnumFwd(types[i]) && m[i] == id
  }

  /** What a step of the primitive pass may change: `id`, and enum declarations that
      are already processed and stay so. */
  ghost predicate PrimFrame(types: seq<BtfType>, m: seq<nat>, m': seq<nat>, id: TypeId) {
    && |m| == |m'| == |types| && id < |m|
    && (!IsPrimKind(types[id].info.kind) ==> m' == m)
    && forall i :: 0 <= i < |m| && i != id && m'[i] != m[i] ==> IsMapped(m, i) && IsMapped(m', i) && IsEnumFwd(types[i])
  }

  lemma EnumIsPrim(t: BtfType)
    ensures IsEnumFwd(t) ==> IsPrimKind(t.info.kind)
  {
  }

  lemma PrimLinksUpdate(types: seq<BtfType>, m0: seq<nat>, m: seq<nat>, id: TypeId, newId: TypeId)
    requires GraphOk(types) && MapOk(m) && PrimLinks(types, m0) && EnumStep(types, m0, m, id)
    requires !IsMapped(m0, id) && IsPrimKind(types[id].info.kind)
    requires newId < |types| && (newId == id || IsMapped(m, newId))
    ensures PrimLinks(types, m[id := newId]) && PrimFrame(types, m0, m[id := newId], id)
  {
    hide GraphOk;
    hide IsPrimKind;
    var m' := m[id := newId];
    forall i | 0 <= i < |m'| && Linked(m', i)
      ensures IsMapped(m', m'[i]) && IsPrimKind(types[i].info.kind)
    {
      EnumIsPrim(types[i]);
      if i != id && m[i] == m0[i] {
        assert Linked(m0, i);
      }
    }
  }

  /** The verdict of an exact comparison may be recorded. */
  lemma SettlePrim(types: seq<BtfType>, m: seq<nat>, filed: set<TypeId>, start: TypeId, id: TypeId, newId: TypeId)
    requires Invariant(types, types, m, filed, start) && PrimLinks(types, m)
    requires id < |m| && newId < |m| && !IsMapped(m, id)
    requires types[id].info.kind in {Int, Fwd, Float}
    requires if newId == id then forall j :: j in filed ==> types[j] != types[id]
             else newId in filed && types[newId] == types[id]
    ensures CanSettle(types, types, m, filed, start, id, newId)
    ensures PrimLinks(types, m[id := newId]) && PrimFrame(types, m, m[id := newId], id)
  {
    InvariantFacts(types, types, m, filed, start);
    PrimLinksUpdate(types, m, m, id, newId);
    if newId != id {
      PrimLink(types, m, id, newId);
    }
  }

  /** The verdict on an enum may be recorded. */
  lemma SettleEnum(types: seq<BtfType>, m0: seq<nat>, m: seq<nat>, cs: seq<TypeId>, filed: set<TypeId>, start: TypeId,
                   sig: BtfType -> nat, id: TypeId, newId: TypeId)
    requires Invariant(types, types, m, filed, start) && PrimLinks(types, m0) && EnumStep(types, m0, m, id)
    requires newId < |m| && !IsMapped(m0, id) && IsAnyEnum(types[id]) && SignatureOk(sig)
    requires forall j :: 0 <= j < |cs| ==> cs[j] in filed
    requires forall i :: i in filed && sig(types[i]) == sig(types[id]) ==> exists j :: 0 <= j < |cs| && cs[j] == i
    requires newId != id ==> Forest(m[id := newId]) && MergeOk(types, id, newId) && IsMapped(m, newId)
    requires newId == id ==> forall j :: 0 <= j < |cs| && m[cs[j]] == cs[j] ==> !EnumCompatible(types[id], types[cs[j]])
    ensures CanSettle(types, types, m, filed, start, id, newId)
    ensures PrimLinks(types, m[id := newId]) && PrimFrame(types, m0, m[id := newId], id)
  {
    InvariantFacts(types, types, m, filed, start);
    PrimLinksUpdate(types, m0, m, id, newId);
    if newId == id {
      forall j | j in filed && m[j] == j && j != id
        ensures !Duplicates(types[id], types[j])
      {
        assert Duplicates(types[id], types[j]) ==> EnumCompatible(types[id], types[j]);
      }
    }
  }

  /** Primitive types below `id` are processed, those from `id` on are not; nothing
      else has changed. */
  ghost predicate PrimProgress(types: seq<BtfType>, m0: seq<nat>, m: seq<nat>, start: TypeId, id: TypeId) {
    && |m0| == |m| == |types| && id <= |m|
    && (forall i :: 0 <= i < id && IsPrimKind(types[i].info.kind) ==> IsMapped(m, i))
    && (forall i :: id <= i < |m| && IsPrimKind(types[i].info.kind) ==> m[i] == UNPROCESSED_ID)
    && (forall i :: start <= i < id ==> types[i].info.kind != Unknown)
    && (forall i :: 0 <= i < |m| && !IsPrimKind(types[i].info.kind) ==> m[i] == m0[i])
  }

  lemma PrimProgressStep(types: seq<BtfType>, m0: seq<nat>, m: seq<nat>, m': seq<nat>, start: TypeId, id: TypeId)
    requires PrimProgress(types, m0, m, start, id) && id < |m|
    requires PrimFrame(types, m, m', id)
    requires IsPrimKind(types[id].info.kind) ==> IsMapped(m', id)
    requires types[id].info.kind != Unknown
    ensures PrimProgress(types, m0, m', start, id + 1)
  {
  }

  /** Accepting an enum candidate creates no circle: a definition only takes a
      canonical definition, and a declaration redirects nothing beforehand. */
  lemma EnumLink(types: seq<BtfType>, m: seq<nat>, id: TypeId, candId: TypeId)
    requires GraphOk(types) && Forest(m) && |m| == |types|
    requires id < |m| && candId < |m| && !IsMapped(m, id) && IsMapped(m, candId)
    requires EnumCompatible(types[id], types[candId])
    requires IsEnumFwd(types[id]) || types[id] == types[candId]
    requires IsEnumFwd(types[id]) ==> PrimLinks(types, m)
    requires IsDecl(types[candId]) || m[candId] == candId
    ensures Forest(m[id := candId]) && MergeOk(types, id, candId) && candId != id
  {
    if IsEnumFwd(types[id]) {
      PrimLink(types, m, id, candId);
      DeclAgrees(types, id, candId);
    } else {
      LinkToTerminal(m, id, candId);
      IdenticalRecordsAgree(types, id, candId);
    }
  }

  // ------------------------------------------------------------------
  // Start
  // ------------------------------------------------------------------

  /** Void, variables and data sections are canonical from the start. */
  function InitialEntry(types: seq<BtfType>, i: TypeId): nat
    requires i < |types|
  {
    if i == 0 || types[i].info.kind == Var || types[i].info.kind == Datasec then i else UNPROCESSED_ID
  }

  ghost predicate InitialMap(types: seq<BtfType>, m: seq<nat>) {
    |m| == |types| && forall i :: 0 <= i < |m| ==> m[i] == InitialEntry(types, i)
  }

  lemma InitialInvariant(types: seq<BtfType>, m: seq<nat>, start: TypeId)
    requires GraphOk(types) && InitialMap(types, m)
    ensures Invariant(types, types, m, {}, start) && PrimLinks(types, m)
  {
    var rank: seq<nat> := seq(|m|, _ => 0);
    TracksItself(types);
    assert forall i :: 0 <= i < |m| ==> !Linked(m, i);
    forall i | 0 <= i < |m| && m[i] == i
      ensures !IsHashedKind(types[i].info.kind)
    {
    }
    assert InvariantBy(types, types, m, {}, start, rank);
  }

  /** Base types below `id` have been made canonical. */
  ghost predicate PrepProgress(types: seq<BtfType>, m: seq<nat>, filed: set<TypeId>, id: TypeId) {
    && |m| == |types|
    && (forall i :: i in filed ==> i < id)
    && forall i :: 0 <= i < |m| ==> m[i] == if i < id then i else InitialEntry(types, i)
  }

  lemma PrepStep(types: seq<BtfType>, m: seq<nat>, filed: set<TypeId>, start: TypeId, id: TypeId)
    requires GraphOk(types) && PrepProgress(types, m, filed, id) && id < start <= |types|
    ensures PrepProgress(types, m[id := id], filed + {id}, id + 1)
    ensures m[id] == id ==> PrepProgress(types, m, filed, id + 1)
    ensures CanSettle(types, types, m, filed, start, id, id)
  {
  }

  lemma PrepDone(types: seq<BtfType>, m: seq<nat>, filed: set<TypeId>, start: TypeId)
    requires GraphOk(types) && MapOk(m) && 1 <= start <= |types| && PrepProgress(types, m, filed, start)
    ensures PrimLinks(types, m) && PrimProgress(types, m, m, start, start)
  {
    assert forall i :: 0 <= i < |m| ==> !Linked(m, i);
  }

  // ------------------------------------------------------------------
  // Structs and forward declarations
  // ------------------------------------------------------------------

  /** Only forward declarations and structs have changed, and to something processed. */
  ghost predicate StructFrame(types: seq<BtfType>, m: seq<nat>, m': seq<nat>) {
    && |m| == |m'| == |types|
    && forall i :: 0 <= i < |m| && m'[i] != m[i] ==> (types[i].info.kind == Fwd || IsComposite(types[i])) && IsMapped(m', i)
  }

  /** Primitive types and the structs below `id` are processed; other kinds are as
      they were at `m0`. */
  ghost predicate StructProgress(types: seq<BtfType>, m0: seq<nat>, m: seq<nat>, id: TypeId) {
    && |m0| == |m| == |types| && id <= |m|
    && (forall i :: 0 <= i < |m| && IsPrimKind(types[i].info.kind) ==> IsMapped(m, i))
    && (forall i :: 0 <= i < id && IsComposite(types[i]) ==> IsMapped(m, i))
    && (forall i :: 0 <= i < |m| && m[i] != m0[i] ==> types[i].info.kind == Fwd || IsComposite(types[i]))
  }

  lemma StructProgressStep(types: seq<BtfType>, m0: seq<nat>, m: seq<nat>, m': seq<nat>, id: TypeId)
    requires StructProgress(types, m0, m, id) && id < |m|
    requires StructFrame(types, m, m')
    requires IsComposite(types[id]) ==> IsMapped(m', id)
    ensures StructProgress(types, m0, m', id + 1)
  {
  }

  /** Once all primitive types and structs are processed, links lead only to
      canonical types, and none starts at a reference type. */
  lemma TargetsMappedAfter(types: seq<BtfType>, m0: seq<nat>, m: seq<nat>)
    requires GraphOk(types) && PrimLinks(types, m0) && LinksOk(types, m)
    requires StructProgress(types, m0, m, |types|)
    ensures TargetsMapped(m)
    ensures forall i :: 0 <= i < |m| && Linked(m, i) ==> !IsRefKind(types[i].info.kind)
  {
    forall i | 0 <= i < |m| && Linked(m, i)
      ensures IsMapped(m, m[i]) && !IsRefKind(types[i].info.kind)
    {
      assert MergeOk(types, i, m[i]);
      assert m[i] == m0[i] ==> Linked(m0, i);
      assert ClassKind(types[i]) == ClassKind(types[m[i]]);
    }
  }

  /** A struct accepted against a cleared hypothesis may be represented by the
      candidate, and the hypothesis may be merged. */
  lemma AcceptedStruct(v: View, h0: seq<nat>, h: seq<nat>, id: TypeId, candId: TypeId)
    requires ViewOk(v) && HypotOk(h) && |h0| == |h| == |v.types| && id < |h| && candId < |h|
    requires forall c :: 0 <= c < |h0| ==> h0[c] == UNPROCESSED_ID
    requires LinksOk(v.types, v.canon) && NewPairsOk(v, h0, h) && Related(v, h, id, candId)
    requires Shape(v.types[id]) == Shape(v.types[candId]) && IsComposite(v.types[id])
    ensures PairsSound(v.types, h)
    ensures MergeOk(v.types, id, candId)
  {
    assert AllPairsOk(v, h);
    AcceptedPairsSound(v, h);
    ShapeFacts(v.types[id], v.types[candId]);
    hide Clear;
    if Clear(v.types, id) || Clear(v.types, candId) {
      RelatedAgree(v, h, id, candId);
    }
  }

  // ------------------------------------------------------------------
  // No duplicate structs
  // ------------------------------------------------------------------

  /** What a compiler emits: every struct belongs to a unit without duplicates. */
  ghost predicate Compiled(types: seq<BtfType>, start: TypeId)
    requires GraphOk(types)
  {
    forall i :: start <= i < |types| && IsComposite(types[i]) ==> UnitOf(types, i)
  }

  ghost predicate UnitOf(types: seq<BtfType>, i: TypeId)
    requires GraphOk(types)
  {
    exists unit :: DedupedUnit(types, unit) && i in unit
  }

  /** Outside the immutable base no two canonical structs from which no declared name is
      seen mean the same. */
  ghost predicate StructsDistinct(types: seq<BtfType>, m: seq<nat>, start: TypeId) {
    GraphOk(types) && |m| == |types| &&
    (Compiled(types, start) ==>
      forall i, j :: 0 <= i < |m| && 0 <= j < |m| && i != j && m[i] == i && m[j] == j && (start <= i || start <= j)
                       && IsComposite(types[i]) && Plain(types, i)
        ==> !Bisimilar(types, i, j))
  }

  /** Only structs that are new among the canonical ones matter. */
  lemma StructsDistinctFrame(types: seq<BtfType>, m: seq<nat>, m': seq<nat>, start: TypeId)
    requires StructsDistinct(types, m, start) && |m'| == |m|
    requires forall i :: 0 <= i < |m| && IsComposite(types[i]) && m'[i] == i ==> m[i] == i
    ensures StructsDistinct(types, m', start)
  {
    forall i, j | 0 <= i < |m| && 0 <= j < |m| && i != j && m'[i] == i && m'[j] == j && (start <= i || start <= j)
                    && IsComposite(types[i]) && Plain(types, i) && Compiled(types, start)
      ensures !Bisimilar(types, i, j)
    {
      if Bisimilar(types, i, j) {
        BisimilarStep(types, i, j);
        ShapeFacts(types[i], types[j]);
      }
    }
  }

  /** Type `id` of a unit without duplicates does not mean the same as j. */
  ghost predicate ToldApart(types: seq<BtfType>, unit: set<TypeId>, id: TypeId, j: TypeId) {
    && GraphOk(types) && id < |types| && j < |types|
    && (Plain(types, id) && DedupedUnit(types, unit) && id in unit ==> !Bisimilar(types, id, j))
  }

  lemma ShapesTell(types: seq<BtfType>, unit: set<TypeId>, id: TypeId, j: TypeId)
    requires GraphOk(types) && id < |types| && j < |types|
    requires Shape(types[id]) != Shape(types[j])
    ensures ToldApart(types, unit, id, j)
  {
    if Bisimilar(types, id, j) {
      BisimilarStep(types, id, j);
    }
  }

  /** Struct `id` is told from every filed type. */
  ghost predicate StructNew(types: seq<BtfType>, filed: set<TypeId>, id: TypeId, unit: set<TypeId>) {
    forall j :: j in filed ==> ToldApart(types, unit, id, j)
  }

  /** Structs that mean the same have the same signature, so trying the types of that
      signature is trying all. */
  lemma AllTried(types: seq<BtfType>, sig: BtfType -> nat, filed: set<TypeId>, cs: seq<TypeId>, id: TypeId, unit: set<TypeId>)
    requires GraphOk(types) && id < |types| && IsComposite(types[id]) && SignatureOk(sig)
    requires forall j :: j in filed ==> j < |types|
    requires forall i :: i in filed && sig(types[i]) == sig(types[id]) ==> exists j :: 0 <= j < |cs| && cs[j] == i
    requires forall j :: 0 <= j < |cs| ==> ToldApart(types, unit, id, cs[j])
    ensures StructNew(types, filed, id, unit)
  {
    forall i | i in filed
      ensures ToldApart(types, unit, id, i)
    {
      if Shape(types[id]) == Shape(types[i]) {
        assert SameStructs(types[id], types[i]);
      } else {
        ShapesTell(types, unit, id, i);
      }
    }
  }

  lemma NewStructDistinct(types: seq<BtfType>, m: seq<nat>, filed: set<TypeId>, start: TypeId, id: TypeId, unit: set<TypeId>)
    requires StructsDistinct(types, m, start) && FiledComplete(types, m, filed)
    requires id < |types| && IsComposite(types[id]) && start <= id
    requires UnitOf(types, id) ==> DedupedUnit(types, unit) && id in unit
    requires StructNew(types, filed, id, unit)
    ensures StructsDistinct(types, m[id := id], start)
  {
    var m' := m[id := id];
    forall i, j | 0 <= i < |m| && 0 <= j < |m| && i != j && m'[i] == i && m'[j] == j && (start <= i || start <= j)
                    && IsComposite(types[i]) && Plain(types, i) && Compiled(types, start)
      ensures !Bisimilar(types, i, j)
    {
      if i == id || j == id {
        var other := if i == id then j else i;
        if Shape(types[id]) == Shape(types[other]) {
          ShapeFacts(types[id], types[other]);
        } else {
          ShapesTell(types, unit, id, other);
        }
        assert ToldApart(types, unit, id, other);
        if Bisimilar(types, i, j) {
          PlainBisimilar(types, i, j);
        }
      }
    }
  }

  lemma NotFiled(orig: seq<BtfType>, types: seq<BtfType>, m: seq<nat>, filed: set<TypeId>, start: TypeId, id: TypeId)
    requires Invariant(orig, types, m, filed, start) && id < |m| && !IsMapped(m, id)
    ensures GraphOk(types) && id !in filed
  {
    InvariantFacts(orig, types, m, filed, start);
  }

  lemma SettleStruct(types: seq<BtfType>, m0: seq<nat>, m: seq<nat>, filed: set<TypeId>, start: TypeId, id: TypeId, newId: TypeId)
    requires Invariant(types, types, m, filed, start) && |m0| == |types| && id < |m| && newId < |m|
    requires MergeFrame(types, m0, m) && !IsMapped(m0, id)
    requires IsComposite(types[id])
    requires newId != id ==> m[newId] == newId && MergeOk(types, id, newId)
    ensures CanSettle(types, types, m, filed, start, id, newId)
    ensures StructFrame(types, m0, m) && StructFrame(types, m0, m[id := newId])
  {
    InvariantFacts(types, types, m, filed, start);
    if newId != id {
      LinkToTerminal(m, id, newId);
    }
  }
}
