/** The BTF type deduplicator. */
module Dedup {
  import opened BtfTypes
  import opened CanonicalMap
  import opened Equivalence
  import opened CanonicalIndex
  import opened Traversal
  import opened RefTypes
  import opened ForwardDecls
  import E = BtfEncoding
  import S = BtfSection
  import H = HashMap

  method NewMap(types: seq<BtfType>) returns (m: seq<nat>)
    requires |types| > 0
    ensures InitialMap(types, m)
  {
    m := [0];
    var i := 1;
    while i < |types|
      invariant 1 <= i <= |types| && |m| == i
      invariant forall j :: 0 <= j < i ==> m[j] == InitialEntry(types, j)
    {
      if types[i].info.kind == Var || types[i].info.kind == Datasec {
        m := m + [i];
      } else {
        m := m + [UNPROCESSED_ID];
      }
      i := i + 1;
    }
  }

  /** Follow the canonical map to its end. */
  method ResolveTypeId(m: seq<nat>, id: TypeId) returns (r: TypeId)
    requires Forest(m) && id < |m|
    ensures r == Root(m, id)
  {
    r := id;
    ghost var rank :| Ranked(m, rank);
    while IsMapped(m, r) && m[r] != r
      invariant r < |m|
      invariant Root(m, r) == Root(m, id)
      decreases rank[r]
    {
      RootStep(m, r);
      r := m[r];
    }
    RootStep(m, r);
  }

  class Dedup {
    const startId: TypeId
    const table: H.Table
    // The words of the section behind the base, and the index of its records.
    const data: array<nat>
    const offs: array<nat>
    const sig: BtfType -> nat
    ghost const orig: seq<BtfType>
    ghost const embed: seq<nat>
    ghost const refRank: seq<nat>
    ghost var filed: set<TypeId>
    var types: seq<BtfType>
    var cmap: seq<nat>
    var hypotMap: seq<nat>
    var hypotList: seq<TypeId>
    var hypotAdjustCanon: bool

    /** Set up the maps: nothing is filed and nothing is hypothesised yet. */
    constructor (input: seq<BtfType>, startId: TypeId, table: H.Table, sig: BtfType -> nat,
                 data: array<nat>, offs: array<nat>, ghost embed: seq<nat>, ghost refRank: seq<nat>)
      requires GraphOk(input) && EmbedRanked(input, embed)
      requires 1 <= startId <= |input|
      requires SignatureOk(sig)
      requires table.Valid() && table.Contents() == multiset{} && forall k :: table.denotes(k) == k
      requires data != offs && S.Written(data[..], offs[..], input[startId..])
      ensures this.data == data && this.offs == offs && DataOk() && filed == {}
      ensures Valid() && types == orig == input && this.startId == startId && this.table == table
      ensures this.sig == sig && this.embed == embed && this.refRank == refRank
      ensures InitialMap(types, cmap) && PrimLinks(types, cmap)
    {
      this.startId, this.table, this.sig, this.orig, this.embed := startId, table, sig, input, embed;
      this.types, this.data, this.offs := input, data, offs;
      this.refRank := refRank;
      filed := {};
      hypotMap, hypotList, hypotAdjustCanon := seq(|input|, _ => UNPROCESSED_ID), [], false;
      var m := NewMap(input);
      InitialInvariant(input, m, startId);
      this.cmap := m;
    }

    ghost predicate Valid()
      reads this, table
    {
      && Inv()
      && EmbedRanked(types, embed)
      && HypotValid()
      && IndexValid()
    }

    ghost predicate Inv()
      reads this
    {
      && 1 <= startId <= |types| && |cmap| == |types|
      && Invariant(orig, types, cmap, filed, startId)
    }

    ghost predicate IndexValid()
      reads this, table
    {
      && SignatureOk(sig)
      && table.Valid() && (forall k :: table.denotes(k) == k)
      && TableOk(sig, types, filed, table.Contents())
    }

    /** The words say what the types say. */
    ghost predicate DataOk()
      reads this, data, offs
    {
      data != offs && startId <= |types| && S.Written(data[..], offs[..], types[startId..])
    }

    ghost function V(): View
      reads this
    {
      View(types, embed, cmap)
    }

    ghost predicate HypotValid()
      reads this
    {
      && |hypotMap| == |types|
      && HypotOk(hypotMap) && ListMatches(hypotMap, hypotList)
    }

    /** The state of the traversal. */
    ghost function Now(): Trav
      reads this
    {
      Trav(hypotMap, hypotList, hypotAdjustCanon)
    }

    lemma NowFresh()
      requires HypotValid() && hypotList == [] && !hypotAdjustCanon
      requires forall c :: 0 <= c < |hypotMap| ==> hypotMap[c] == UNPROCESSED_ID
      ensures TravOk(V(), Now()) && Now() == Fresh(|types|)
    {
      assert hypotMap == Fresh(|types|).h;
    }

    lemma NowOk()
      requires HypotValid()
      ensures TravOk(V(), Now())
    {
    }

    // ----------------------------------------------------------------
    // Resolution
    // ----------------------------------------------------------------

    method ResolveFwdId(id: TypeId) returns (r: TypeId)
      requires Forest(cmap) && |types| == |cmap| && id < |cmap|
      ensures r == ResolvedFwd(types, cmap, id)
    {
      if types[id].info.kind != Fwd {
        return id;
      }
      r := ResolveTypeId(cmap, id);
      if types[r].info.kind != Fwd {
        return r;
      }
      return id;
    }

    // ----------------------------------------------------------------
    // Hypothetical map
    // ----------------------------------------------------------------

    /** Record a pair, unless the list cannot grow. */
    method HypotMapAdd(fromId: TypeId, toId: TypeId) returns (err: int)
      requires HypotValid() && fromId < |types| && toId < |types|
      requires !Recorded(hypotMap, fromId)
      modifies this`hypotMap, this`hypotList
      ensures HypotValid() && (err == 0 || err == -H.ENOMEM)
      ensures err == 0 ==> Now() == Noted(old(Now()), fromId, toId)
      ensures err != 0 ==> Now() == old(Now())
    {
      if * {
        return -H.ENOMEM;
      }
      err := 0;
      hypotList := hypotList + [fromId];
      hypotMap := hypotMap[fromId := toId];
    }

    method ClearHypotMap()
      requires HypotValid()
      modifies this`hypotMap, this`hypotList, this`hypotAdjustCanon
      ensures HypotValid()
      ensures hypotList == [] && !hypotAdjustCanon
      ensures forall c :: 0 <= c < |hypotMap| ==> hypotMap[c] == UNPROCESSED_ID
    {
      var i := 0;
      while i < |hypotList|
        invariant 0 <= i <= |hypotList|
        invariant hypotList == old(hypotList) && |hypotMap| == |old(hypotMap)|
        invariant forall c :: 0 <= c < |hypotMap| ==>
                    hypotMap[c] == if c in hypotList[..i] then UNPROCESSED_ID else old(hypotMap[c])
      {
        hypotMap := hypotMap[hypotList[i] := UNPROCESSED_ID];
        assert hypotList[..i + 1] == hypotList[..i] + [hypotList[i]];
        i := i + 1;
      }
      assert hypotList[..i] == hypotList;
      hypotList := [];
      hypotAdjustCanon := false;
    }

    // ----------------------------------------------------------------
    // Graph equivalence
    // ----------------------------------------------------------------

    method AreIdenticalArrays(a: TypeId, b: TypeId) returns (eq: bool)
      requires GraphOk(types) && a < |types| && b < |types|
      ensures eq == IdenticalArrays(types, a, b)
    {
      if types[a].info.kind != Array || types[b].info.kind != Array {
        return false;
      }
      eq := EqualArray(types[a], types[b]);
    }

    method AreIdenticalStructs(a: TypeId, b: TypeId) returns (eq: bool)
      requires GraphOk(types) && EmbedRanked(types, embed) && a < |types| && b < |types|
      ensures eq == IdenticalStructs(types, embed, a, b)
      decreases embed[a]
    {
      hide PayloadCount;
      if !IsComposite(types[a]) || types[a].info.kind != types[b].info.kind {
        return false;
      }
      var same := ShallowEqualStruct(types[a], types[b]);
      if !same {
        return false;
      }
      assert Shape(types[a]).info == Shape(types[b]).info;
      var i := 0;
      while i < types[a].info.vlen
        invariant 0 <= i <= types[a].info.vlen
        invariant forall j :: 0 <= j < i ==> IdenticalMembers(types, embed, a, b, j)
      {
        var x, y := types[a].refs[i], types[b].refs[i];
        if x != y {
          var arrays := AreIdenticalArrays(x, y);
          if !arrays {
            var structs := false;
            if IsComposite(types[x]) {
              structs := AreIdenticalStructs(x, y);
            }
            if !structs {
              assert !IdenticalMembers(types, embed, a, b, i);
              return false;
            }
          }
        }
        i := i + 1;
      }
      return true;
    }

    /** Side-by-side traversal of the graphs of a candidate and a canonical type. */
    method IsEquiv(candId: TypeId, canonId: TypeId, ghost unit: set<TypeId>) returns (r: int)
      requires ViewOk(V()) && HypotValid() && TravOk(V(), Now())
      requires candId < |types| && canonId < |types|
      modifies this`hypotMap, this`hypotList, this`hypotAdjustCanon
      ensures HypotValid() && TravOk(V(), Now()) && Extends(old(hypotMap), hypotMap)
      ensures r == 1 || r == 0 || r == -EINVAL || r == -H.ENOMEM
      ensures r != -H.ENOMEM ==> Verdict(r, Now()) == old(Equiv(V(), startId, Now(), candId, canonId))
      ensures r == 1 ==> Related(V(), hypotMap, candId, canonId)
      ensures r == 1 ==> NewPairsOk(V(), old(hypotMap), hypotMap)
      ensures MustAccept(V(), unit, old(hypotMap), candId, canonId) ==> r != 0
      ensures MustAccept(V(), unit, old(hypotMap), candId, canonId) ==> hypotAdjustCanon == old(hypotAdjustCanon)
      ensures MustAccept(V(), unit, old(hypotMap), candId, canonId) && r == 1 ==> HypotFaithful(types, unit, hypotMap)
      decreases Unrecorded(hypotMap), 0
    {
      hide GraphOk;
      hide MustAccept;
      hide HypotFaithful;
      hide NewPairsOk;
      hide Pair;
      hide ListMatches;
      var candRoot := ResolveTypeId(cmap, candId);
      var canonRoot := ResolveTypeId(cmap, canonId);
      MustAcceptFacts(V(), unit, hypotMap, candId, canonId);
      NewPairsNone(V(), hypotMap);
      if candRoot == canonRoot {
        return 1;
      }
      var canon := ResolveFwdId(canonId);
      if Recorded(hypotMap, canon) {
        r := MatchRecorded(candId, canon, unit);
        return;
      }
      ghost var h0, t0 := hypotMap, Now();
      var err := HypotMapAdd(canon, candId);
      if err != 0 {
        return err;
      }
      NotedGrows(V(), t0, canon, candId);
      r := CheckPair(candId, canon, unit);
      if r == 1 {
        NewPairsClose(V(), h0, canon, candId, hypotMap);
      }
    }

    /** The canonical-side type is already paired: only the same candidate, or a
        verbatim copy of it, is accepted. */
    method MatchRecorded(candId: TypeId, canon: TypeId, ghost unit: set<TypeId>) returns (r: int)
      requires ViewOk(V()) && HypotValid()
      requires candId < |types| && canon < |types| && Recorded(hypotMap, canon)
      ensures r == 0 || r == 1
      ensures r == 1 <==> (hypotMap[canon] == candId || IdenticalArrays(types, hypotMap[canon], candId)
                           || IdenticalStructs(types, embed, hypotMap[canon], candId))
      ensures MustAccept(V(), unit, hypotMap, candId, canon) ==> r == 1
    {
      if hypotMap[canon] == candId {
        return 1;
      }
      var same := AreIdenticalArrays(hypotMap[canon], candId);
      if same {
        return 1;
      }
      same := AreIdenticalStructs(hypotMap[canon], candId);
      if same {
        return 1;
      }
      if MustAccept(V(), unit, hypotMap, candId, canon) {
        assert Bisimilar(types, hypotMap[canon], candId);
        assert false;
      }
      return 0;
    }

    /** The freshly recorded pair is compared, and its references in turn. */
    method CheckPair(candId: TypeId, canon: TypeId, ghost unit: set<TypeId>) returns (r: int)
      requires ViewOk(V()) && HypotValid() && TravOk(V(), Now())
      requires candId < |types| && canon < |types| && hypotMap[canon] == candId
      modifies this`hypotMap, this`hypotList, this`hypotAdjustCanon
      ensures HypotValid() && TravOk(V(), Now()) && Extends(old(hypotMap), hypotMap)
      ensures r == 1 || r == 0 || r == -EINVAL || r == -H.ENOMEM
      ensures r != -H.ENOMEM ==> Verdict(r, Now()) == old(Pair(V(), startId, Now(), candId, canon))
      ensures r == 1 ==> PairOk(V(), hypotMap, canon) && NewPairsOk(V(), old(hypotMap), hypotMap)
      ensures MustAccept(V(), unit, old(hypotMap), candId, canon) ==> r != 0
      ensures MustAccept(V(), unit, old(hypotMap), candId, canon) ==> hypotAdjustCanon == old(hypotAdjustCanon)
      ensures MustAccept(V(), unit, old(hypotMap), candId, canon) && r == 1 ==> HypotFaithful(types, unit, hypotMap)
      decreases Unrecorded(hypotMap), 4
    {
      hide MustAccept;
      hide HypotFaithful;
      hide NewPairsOk;
      hide ListMatches;
      hide Refs;
      hide Extends;
      hide RefsRelated;
      var t, u := types[candId], types[canon];
      PairFacts(V(), unit, hypotMap, candId, canon);
      PairHolds(V(), hypotMap, hypotMap, candId, canon);
      hide PairOk;
      hide GraphOk;
      if t.name != u.name {
        return 0;
      }
      if (t.info.kind == Fwd || u.info.kind == Fwd) && t.info.kind != u.info.kind {
        r := CheckFwd(candId, canon);
        return;
      }
      if t.info.kind != u.info.kind {
        return 0;
      }
      r := CheckForm(t, u);
      if r != 1 || IsPrimKind(t.info.kind) {
        return;
      }
      ghost var h0 := hypotMap;
      r := RefsEquiv(candId, canon, unit);
      PairHolds(V(), h0, hypotMap, candId, canon);
    }

    /** A forward declaration on one side only: the other must be what it announces. */
    method CheckFwd(candId: TypeId, canon: TypeId) returns (r: int)
      requires candId < |types| && canon < |types|
      requires types[candId].name == types[canon].name && types[candId].info.kind != types[canon].info.kind
      requires types[candId].info.kind == Fwd || types[canon].info.kind == Fwd
      modifies this`hypotAdjustCanon
      ensures r == if FwdMatch(types[candId], types[canon]) then 1 else 0
      ensures hypotAdjustCanon == (old(hypotAdjustCanon)
                                   || (FwdMatch(types[candId], types[canon]) && types[canon].info.kind == Fwd && canon < startId))
    {
      var t, u := types[candId], types[canon];
      var realKind, fwdKind;
      if t.info.kind == Fwd {
        realKind, fwdKind := u.info.kind, FwdKind(t);
      } else {
        realKind, fwdKind := t.info.kind, FwdKind(u);
        if fwdKind == realKind && canon < startId {
          hypotAdjustCanon := true;
        }
      }
      return if fwdKind == realKind then 1 else 0;
    }

    /** Compare two records of one kind and name, leaving out what they refer to. */
    method CheckForm(t: BtfType, u: BtfType) returns (r: int)
      requires WellFormed(t) && WellFormed(u) && t.name == u.name && t.info.kind == u.info.kind
      ensures r == if !IsComparedKind(t.info.kind) then -EINVAL else if SameForm(t, u) then 1 else 0
    {
      var same := false;
      match t.info.kind {
        case Int =>
          same := EqualIntTag(t, u);
          NoRefs(t, u);
        case Enum | Enum64 =>
          same := CompatEnum(t, u);
        case Fwd | Float =>
          EqualCommonIsEquality(t, u);
          same := EqualCommon(t, u);
          NoRefs(t, u);
        case Const | Volatile | Restrict | Ptr | Typedef | Func | TypeTag =>
          same := t.info == u.info;
          assert t.payload == u.payload == [];
        case Array =>
          same := CompatArray(t, u);
        case Struct | Union =>
          same := ShallowEqualStruct(t, u);
        case FuncProto =>
          same := CompatFuncProto(t, u);
        case _ =>
          return -EINVAL;
      }
      return if same then 1 else 0;
    }

    lemma NoRefs(t: BtfType, u: BtfType)
      requires WellFormed(t) && WellFormed(u) && t.info.kind == u.info.kind && t.info.kind in {Int, Fwd, Float}
      ensures Shape(t) == Shape(u) <==> t == u
    {
      assert t.refs == [] && u.refs == [];
    }

    /** Compare the references of two types of the same shape pairwise; for an
        array the index type comes first. */
    method RefsEquiv(candId: TypeId, canon: TypeId, ghost unit: set<TypeId>) returns (r: int)
      requires ViewOk(V()) && HypotValid() && TravOk(V(), Now())
      requires candId < |types| && canon < |types|
      requires Shape(types[candId]) == Shape(types[canon]) && types[candId].info == types[canon].info
      modifies this`hypotMap, this`hypotList, this`hypotAdjustCanon
      ensures HypotValid() && TravOk(V(), Now()) && Extends(old(hypotMap), hypotMap)
      ensures r == 1 || r == 0 || r == -EINVAL || r == -H.ENOMEM
      ensures r != -H.ENOMEM ==> Verdict(r, Now()) == old(Refs(V(), startId, Now(), candId, canon, 0))
      ensures r == 1 ==> RefsRelated(V(), hypotMap, types[candId], types[canon], |types[canon].refs|)
      ensures r == 1 ==> NewPairsOk(V(), old(hypotMap), hypotMap)
      ensures MustAccept(V(), unit, old(hypotMap), candId, canon) ==> r != 0
      ensures MustAccept(V(), unit, old(hypotMap), candId, canon) ==> hypotAdjustCanon == old(hypotAdjustCanon)
      ensures MustAccept(V(), unit, old(hypotMap), candId, canon) && r == 1 ==> HypotFaithful(types, unit, hypotMap)
      decreases Unrecorded(hypotMap), 3
    {
      hide MustAccept;
      hide HypotFaithful;
      hide NewPairsOk;
      hide ListMatches;
      hide RefsRelated;
      hide Refs;
      hide Extends;
      SameRefCount(V(), candId, canon);
      if types[candId].info.kind == Array {
        r := ArrayRefsEquiv(candId, canon, unit);
      } else {
        r := ListRefsEquiv(candId, canon, unit);
      }
    }

    method ListRefsEquiv(candId: TypeId, canon: TypeId, ghost unit: set<TypeId>) returns (r: int)
      requires ViewOk(V()) && HypotValid() && TravOk(V(), Now())
      requires candId < |types| && canon < |types|
      requires types[candId].info == types[canon].info && types[candId].info.kind != Array && |types[candId].refs| == |types[canon].refs|
      modifies this`hypotMap, this`hypotList, this`hypotAdjustCanon
      ensures HypotValid() && TravOk(V(), Now()) && Extends(old(hypotMap), hypotMap)
      ensures r == 1 || r == 0 || r == -EINVAL || r == -H.ENOMEM
      ensures r != -H.ENOMEM ==> Verdict(r, Now()) == old(Refs(V(), startId, Now(), candId, canon, 0))
      ensures r == 1 ==> RefsRelated(V(), hypotMap, types[candId], types[canon], |types[canon].refs|)
      ensures r == 1 ==> NewPairsOk(V(), old(hypotMap), hypotMap)
      ensures MustAccept(V(), unit, old(hypotMap), candId, canon) ==> r != 0
      ensures MustAccept(V(), unit, old(hypotMap), candId, canon) ==> hypotAdjustCanon == old(hypotAdjustCanon)
      ensures MustAccept(V(), unit, old(hypotMap), candId, canon) && r == 1 ==> HypotFaithful(types, unit, hypotMap)
      decreases Unrecorded(hypotMap), 2
    {
      hide MustAccept;
      hide HypotFaithful;
      hide NewPairsOk;
      hide ListMatches;
      hide RefsRelated;
      hide Equiv;
      hide Refs;
      hide Extends;
      hide HypotOk;
      hide TravOk;
      hide EmbedRanked;
      hide Forest;
      hide GraphOk;
      var t, u := types[candId], types[canon];
      ghost var h0, t0 := hypotMap, Now();
      StartRefs(V(), unit, hypotMap, candId, canon);
      var i := 0;
      while i < |t.refs|
        invariant 0 <= i <= |t.refs| == |u.refs|
        invariant HypotValid() && TravOk(V(), Now()) && Extends(h0, hypotMap)
        invariant Refs(V(), startId, t0, candId, canon, 0) == Refs(V(), startId, Now(), candId, canon, i)
        invariant RefsRelated(V(), hypotMap, t, u, i)
        invariant NewPairsOk(V(), h0, hypotMap)
        invariant MustAccept(V(), unit, h0, candId, canon) ==> hypotAdjustCanon == old(hypotAdjustCanon)
        invariant MustAccept(V(), unit, h0, candId, canon) ==> MustAccept(V(), unit, hypotMap, candId, canon)
      {
        ExtendsShrinks(h0, hypotMap);
        RefsStep(V(), startId, Now(), candId, canon, i);
        r := RefEquiv(candId, canon, i, unit, h0);
        if r <= 0 {
          return;
        }
        i := i + 1;
      }
      RefsStep(V(), startId, Now(), candId, canon, i);
      MustAcceptFacts(V(), unit, hypotMap, candId, canon);
      return 1;
    }

    /** One round of the loop over references. */
    method RefEquiv(candId: TypeId, canon: TypeId, i: nat, ghost unit: set<TypeId>, ghost h0: seq<nat>) returns (r: int)
      requires ViewOk(V()) && HypotValid() && TravOk(V(), Now())
      requires candId < |types| && canon < |types|
      requires i < |types[candId].refs| == |types[canon].refs|
      requires Extends(h0, hypotMap) && NewPairsOk(V(), h0, hypotMap)
      requires RefsRelated(V(), hypotMap, types[candId], types[canon], i)
      modifies this`hypotMap, this`hypotList, this`hypotAdjustCanon
      ensures HypotValid() && TravOk(V(), Now()) && Extends(old(hypotMap), hypotMap) && Extends(h0, hypotMap)
      ensures r == 1 || r == 0 || r == -EINVAL || r == -H.ENOMEM
      ensures r != -H.ENOMEM ==>
                Verdict(r, Now()) == old(Equiv(V(), startId, Now(), types[candId].refs[i], types[canon].refs[i]))
      ensures r == 1 ==> NewPairsOk(V(), h0, hypotMap)
      ensures r == 1 ==> RefsRelated(V(), hypotMap, types[candId], types[canon], i + 1)
      ensures MustAccept(V(), unit, old(hypotMap), candId, canon) ==> r != 0
      ensures MustAccept(V(), unit, old(hypotMap), candId, canon) ==> hypotAdjustCanon == old(hypotAdjustCanon)
      ensures MustAccept(V(), unit, old(hypotMap), candId, canon) && r == 1 ==> MustAccept(V(), unit, hypotMap, candId, canon)
      decreases Unrecorded(hypotMap), 1
    {
      hide MustAccept;
      hide HypotFaithful;
      hide NewPairsOk;
      hide Related;
      hide Equiv;
      hide ListMatches;
      var t, u := types[candId], types[canon];
      MustAcceptRef(V(), unit, hypotMap, candId, canon, i);
      ghost var h1 := hypotMap;
      r := IsEquiv(t.refs[i], u.refs[i], unit);
      if r == 1 {
        RefsRelatedMonotone(V(), h1, hypotMap, t, u, i);
        NewPairsTransitive(V(), h0, h1, hypotMap);
        MustAcceptLater(V(), unit, h1, hypotMap, candId, canon);
      }
    }

    method ArrayRefsEquiv(candId: TypeId, canon: TypeId, ghost unit: set<TypeId>) returns (r: int)
      requires ViewOk(V()) && HypotValid() && TravOk(V(), Now())
      requires candId < |types| && canon < |types|
      requires types[candId].info.kind == Array && |types[candId].refs| == |types[canon].refs| == 2
      requires types[candId].info == types[canon].info
      modifies this`hypotMap, this`hypotList, this`hypotAdjustCanon
      ensures HypotValid() && TravOk(V(), Now()) && Extends(old(hypotMap), hypotMap)
      ensures r == 1 || r == 0 || r == -EINVAL || r == -H.ENOMEM
      ensures r != -H.ENOMEM ==> Verdict(r, Now()) == old(Refs(V(), startId, Now(), candId, canon, 0))
      ensures r == 1 ==> RefsRelated(V(), hypotMap, types[candId], types[canon], |types[canon].refs|)
      ensures r == 1 ==> NewPairsOk(V(), old(hypotMap), hypotMap)
      ensures MustAccept(V(), unit, old(hypotMap), candId, canon) ==> r != 0
      ensures MustAccept(V(), unit, old(hypotMap), candId, canon) ==> hypotAdjustCanon == old(hypotAdjustCanon)
      ensures MustAccept(V(), unit, old(hypotMap), candId, canon) && r == 1 ==> HypotFaithful(types, unit, hypotMap)
      decreases Unrecorded(hypotMap), 2
    {
      hide MustAccept;
      hide HypotFaithful;
      hide NewPairsOk;
      hide Related;
      hide Equiv;
      hide ListMatches;
      SameRefCount(V(), candId, canon);
      hide GraphOk;
      var t, u := types[candId], types[canon];
      ghost var h0, t0 := hypotMap, Now();
      MustAcceptRef(V(), unit, hypotMap, candId, canon, 1);
      r := IsEquiv(t.refs[1], u.refs[1], unit);
      ArrayRefs(V(), startId, t0, candId, canon);
      if r <= 0 {
        return;
      }
      ghost var h1 := hypotMap;
      ExtendsShrinks(h0, h1);
      MustAcceptLater(V(), unit, h0, h1, candId, canon);
      r := RefEquiv(candId, canon, 0, unit, h0);
      if r == 1 {
        RelatedMonotone(V(), h1, hypotMap, t.refs[1], u.refs[1]);
        BothRelated(V(), hypotMap, t, u);
        MustAcceptFacts(V(), unit, hypotMap, candId, canon);
      }
    }

    // ----------------------------------------------------------------
    // Canonical index
    // ----------------------------------------------------------------

    /** All filed types with the given signature, in some order. */
    method Candidates(h: nat) returns (cs: seq<TypeId>)
      requires IndexValid()
      ensures forall j :: 0 <= j < |cs| ==> cs[j] in filed
      ensures forall i :: i in filed && sig(types[i]) == h ==> exists j :: 0 <= j < |cs| && cs[j] == i
    {
      hide SignatureOk;
      var es := table.KeyEntries(h);
      FiledValues(es, table.Contents(), h);
      cs := [];
      var i := 0;
      while i < |es|
        invariant 0 <= i <= |es| && |cs| == i
        invariant forall j :: 0 <= j < i ==> cs[j] == es[j].value
      {
        cs := cs + [es[i].value];
        i := i + 1;
      }
    }

    lemma FiledValues(es: seq<H.Entry>, c: multiset<H.Entry>, h: nat)
      requires TableOk(sig, types, filed, c)
      requires forall e: H.Entry :: multiset(es)[e] == if e.key == h then c[e] else 0
      ensures forall j :: 0 <= j < |es| ==> es[j].value >= 0 && (es[j].value as TypeId) in filed
      ensures forall i :: i in filed && sig(types[i]) == h ==> exists j :: 0 <= j < |es| && es[j].value == i
    {
      forall j | 0 <= j < |es|
        ensures es[j] in c
      {
        assert es[j] in multiset(es);
      }
      forall i | i in filed && sig(types[i]) == h
        ensures exists j :: 0 <= j < |es| && es[j].value == i
      {
        var e := H.Entry(sig(types[i]), i);
        assert e in multiset(es);
      }
    }

    /** Append `id` to the index under its signature. */
    method File(id: TypeId) returns (err: int)
      requires table.Valid() && (forall k :: table.denotes(k) == k) && id < |types|
      requires SignatureOk(sig) && id in filed && TableOk(sig, types, filed - {id}, table.Contents())
      modifies table
      ensures err == 0 || err == -H.ENOMEM
      ensures err == 0 ==> IndexValid()
    {
      hide SignatureOk;
      hide TableOk;
      TableGrows(sig, types, filed, table.Contents(), id);
      ghost var e;
      err, e := table.Insert(sig(types[id]), id, H.Append, true);
    }

    /** Record the verdict on `id`: represented by `newId`, or canonical and filed. */
    method Settle(id: TypeId, newId: TypeId) returns (err: int)
      requires Inv() && IndexValid() && id < |types| && newId < |types| && id !in filed
      requires CanSettle(orig, types, cmap, filed, startId, id, newId)
      modifies this`cmap, this`filed, table
      ensures err == 0 || err == -H.ENOMEM
      ensures cmap == old(cmap)[id := newId]
      ensures filed == if newId == id then old(filed) + {id} else old(filed)
      ensures Inv()
      ensures err == 0 ==> IndexValid()
    {
      SettleKeeps(orig, types, cmap, filed, startId, id, newId);
      cmap := cmap[id := newId];
      err := 0;
      if newId == id {
        filed := filed + {id};
        assert filed - {id} == old(filed);
        err := File(id);
      }
    }

    /** Kinds whose comparator is equality of records. */
    predicate IsExactKind(k: Kind) { IsRefKind(k) || k in {Int, Fwd, Float} }

    method EqualExact(t: BtfType, cand: BtfType) returns (eq: bool)
      requires WellFormed(t) && WellFormed(cand) && IsExactKind(t.info.kind)
      ensures eq <==> t == cand
    {
      if t.info.kind == Int || t.info.kind == DeclTag {
        eq := EqualIntTag(t, cand);
      } else if t.info.kind == Array {
        eq := EqualArray(t, cand);
      } else if t.info.kind == FuncProto {
        eq := EqualFuncProto(t, cand);
      } else {
        EqualCommonIsEquality(t, cand);
        eq := EqualCommon(t, cand);
      }
    }

    /** Look for a filed type with exactly the record of `id`. */
    method FindExact(id: TypeId) returns (newId: TypeId)
      requires IndexValid() && forall i :: 0 <= i < |types| ==> WellFormed(types[i])
      requires id < |types| && IsExactKind(types[id].info.kind) && id !in filed
      ensures newId < |types|
      ensures newId != id ==> newId in filed && types[newId] == types[id]
      ensures newId == id ==> forall i :: i in filed ==> types[i] != types[id]
    {
      var cs := Candidates(sig(types[id]));
      var k := 0;
      while k < |cs|
        invariant 0 <= k <= |cs|
        invariant forall j :: 0 <= j < k ==> types[cs[j]] != types[id]
      {
        var eq := EqualExact(types[id], types[cs[k]]);
        if eq {
          return cs[k];
        }
        k := k + 1;
      }
      return id;
    }

    // ----------------------------------------------------------------
    // Primitive types
    // ----------------------------------------------------------------

    method PrimType(id: TypeId) returns (err: int)
      requires Inv() && IndexValid() && types == orig && PrimLinks(types, cmap)
      requires startId <= id < |types|
      requires IsPrimKind(types[id].info.kind) ==> cmap[id] == UNPROCESSED_ID
      modifies this`cmap, this`filed, table
      ensures err == 0 || err == -EINVAL || err == -H.ENOMEM
      ensures err == -EINVAL <==> types[id].info.kind == Unknown
      ensures err == 0 ==> Inv() && IndexValid() && PrimLinks(types, cmap)
      ensures err == 0 && IsPrimKind(types[id].info.kind) ==> IsMapped(cmap, id)
      ensures PrimFrame(types, old(cmap), cmap, id) && old(filed) <= filed
    {
      var kind := types[id].info.kind;
      if kind == Unknown {
        return -EINVAL;
      } else if kind == Enum || kind == Enum64 {
        err := PrimEnum(id);
      } else if kind == Int || kind == Fwd || kind == Float {
        err := PrimExact(id);
      } else {
        return 0;
      }
    }

    method PrimExact(id: TypeId) returns (err: int)
      requires Inv() && IndexValid() && types == orig && PrimLinks(types, cmap)
      requires startId <= id < |types|
      requires types[id].info.kind in {Int, Fwd, Float} && cmap[id] == UNPROCESSED_ID
      modifies this`cmap, this`filed, table
      ensures err == 0 || err == -H.ENOMEM
      ensures err == 0 ==> Inv() && IndexValid() && PrimLinks(types, cmap) && IsMapped(cmap, id)
      ensures PrimFrame(types, old(cmap), cmap, id) && old(filed) <= filed
    {
      InvariantFacts(orig, types, cmap, filed, startId);
      var newId := FindExact(id);
      SettlePrim(types, cmap, filed, startId, id, newId);
      err := Settle(id, newId);
    }

    method PrimEnum(id: TypeId) returns (err: int)
      requires Inv() && IndexValid() && types == orig && PrimLinks(types, cmap)
      requires startId <= id < |types|
      requires IsAnyEnum(types[id]) && cmap[id] == UNPROCESSED_ID
      modifies this`cmap, this`filed, table
      ensures err == 0 || err == -H.ENOMEM
      ensures err == 0 ==> Inv() && IndexValid() && PrimLinks(types, cmap) && IsMapped(cmap, id)
      ensures PrimFrame(types, old(cmap), cmap, id) && old(filed) <= filed
    {
      hide SignatureOk;
      hide TableOk;
      var cs := Candidates(sig(types[id]));
      ghost var m0 := cmap;
      var newId;
      cmap, newId := ResolveEnum(types, cmap, cs, id, filed, startId);
      SettleEnum(types, m0, cmap, cs, filed, startId, sig, id, newId);
      err := Settle(id, newId);
    }

    method PrimTypes() returns (err: int)
      requires Inv() && IndexValid() && types == orig && PrimLinks(types, cmap)
      requires PrimProgress(types, cmap, cmap, startId, startId)
      modifies this`cmap, this`filed, table
      ensures err == 0 || err == -EINVAL || err == -H.ENOMEM
      ensures err == 0 ==> Inv() && IndexValid() && PrimLinks(types, cmap)
      ensures err == 0 ==> PrimProgress(types, old(cmap), cmap, startId, |types|)
      ensures err == -EINVAL ==> !AllCompared(types)
      ensures old(filed) <= filed
    {
      hide SignatureOk;
      hide TableOk;
      hide GraphOk;
      hide Invariant;
      hide PrimLinks;
      var id := startId;
      while id < |types|
        invariant startId <= id <= |types|
        invariant Inv() && IndexValid() && PrimLinks(types, cmap)
        invariant PrimProgress(types, old(cmap), cmap, startId, id) && old(filed) <= filed
      {
        ghost var m := cmap;
        err := PrimType(id);
        if err != 0 {
          return;
        }
        PrimProgressStep(types, old(cmap), m, cmap, startId, id);
        id := id + 1;
      }
      return 0;
    }

    // ----------------------------------------------------------------
    // Base types
    // ----------------------------------------------------------------

    /** All types of the base are canonical by definition. */
    method Prep() returns (err: int)
      requires Inv() && IndexValid() && types == orig && PrimLinks(types, cmap) && InitialMap(types, cmap) && filed == {}
      modifies this`cmap, this`filed, table
      ensures err == 0 || err == -EINVAL || err == -H.ENOMEM
      ensures err == 0 ==> Inv() && IndexValid() && PrimLinks(types, cmap) && PrimProgress(types, cmap, cmap, startId, startId)
      ensures err == 0 ==> PrepProgress(types, cmap, filed, startId)
      ensures err == -EINVAL ==> !AllCompared(types)
    {
      hide SignatureOk;
      hide TableOk;
      hide PrimProgress;
      hide PrimLinks;
      hide GraphOk;
      var id := 1;
      while id < startId
        invariant 1 <= id <= startId
        invariant Inv() && IndexValid() && PrepProgress(types, cmap, filed, id)
      {
        var kind := types[id].info.kind;
        if kind == Unknown {
          return -EINVAL;
        }
        PrepStep(types, cmap, filed, startId, id);
        if kind != Var && kind != Datasec {
          err := Settle(id, id);
          if err != 0 {
            return;
          }
        }
        id := id + 1;
      }
      InvariantFacts(orig, types, cmap, filed, startId);
      PrepDone(types, cmap, filed, startId);
      return 0;
    }

    // ----------------------------------------------------------------
    // Structs and unions
    // ----------------------------------------------------------------

    /** Compare struct `id` with one filed candidate; 1 if it represents `id`.  An
        accepted hypothesis is merged even when it only serves to point base
        declarations at definitions. */
    method TryStruct(id: TypeId, candId: TypeId, ghost unit: set<TypeId>) returns (r: int)
      requires Inv() && HypotValid() && EmbedRanked(types, embed) && types == orig
      requires id < |types| && IsComposite(types[id]) && candId in filed && candId < |types|
      modifies this`cmap, this`hypotMap, this`hypotList, this`hypotAdjustCanon
      ensures Inv() && HypotValid()
      ensures r == 0 || r == 1 || r == -EINVAL || r == -H.ENOMEM
      ensures MergeFrame(types, old(cmap), cmap)
      ensures r == 1 ==> MergeOk(orig, id, candId) && cmap[candId] == candId
      ensures r == 0 ==> ToldApart(types, unit, id, candId)
      ensures r != -H.ENOMEM ==> old(ViewOk(V())) && Tryout(r, cmap) == old(Tried(V(), startId, id, candId))
      ensures r == -EINVAL ==> !AllCompared(types)
    {
      InvariantFacts(orig, types, cmap, filed, startId);
      hide AllCompared;
      hide Invariant;
      hide ToldApart;
      hide ListMatches;
      hide MergeOk;
      hide Equiv;
      hide MergedAll;
      assert ViewOk(V()) && LinksOk(types, cmap);
      hide Tracks;
      hide LinksOk;
      hide FiledComplete;
      hide NoDuplicates;
      var same := ShallowEqualStruct(types[id], types[candId]);
      if !same {
        ShapesTell(types, unit, id, candId);
        return 0;
      }
      ShapeFacts(types[id], types[candId]);
      ClearHypotMap();
      ghost var h0 := hypotMap;
      NowFresh();
      MustOrTold(unit, id, candId);
      EquivInvalid(V(), startId, Now(), id, candId);
      var eq := IsEquiv(id, candId, unit);
      if eq <= 0 {
        return eq;
      }
      MergeAccepted(id, candId, h0);
      if hypotAdjustCanon {
        return 0;
      }
      return 1;
    }

    /** Merge the hypothesis under which struct `id` was accepted. */
    method MergeAccepted(id: TypeId, candId: TypeId, ghost h0: seq<nat>)
      requires Inv() && HypotValid() && ViewOk(V()) && LinksOk(types, cmap) && types == orig
      requires id < |types| && IsComposite(types[id]) && candId in filed && candId < |types|
      requires Shape(types[id]) == Shape(types[candId]) && Related(V(), hypotMap, id, candId)
      requires |h0| == |types| && (forall c :: 0 <= c < |h0| ==> h0[c] == UNPROCESSED_ID) && NewPairsOk(V(), h0, hypotMap)
      modifies this`cmap
      ensures Inv() && MergeFrame(types, old(cmap), cmap)
      ensures MergeOk(types, id, candId) && cmap[candId] == candId
      ensures TravOk(V(), Now()) && cmap == MergedAll(types, old(cmap), hypotMap, hypotList, |hypotList|, hypotAdjustCanon)
    {
      hide MergeOk;
      hide LinksOk;
      hide MergeFrame;
      hide ListMatches;
      hide MergedAll;
      hide Invariant;
      hide NewPairsOk;
      hide PairsSound;
      hide Related;
      hide HypotOk;
      hide TravOk;
      hide ViewOk;
      hide Shape;
      AcceptedStruct(V(), h0, hypotMap, id, candId);
      cmap := MergeHypotMap(types, cmap, hypotMap, hypotList, hypotAdjustCanon, filed, startId);
      NowOk();
      FiledIsCanonical(id, candId);
    }

    lemma FiledIsCanonical(id: TypeId, candId: TypeId)
      requires Inv() && id < |types| && candId < |types| && candId in filed
      requires IsComposite(types[id]) && Shape(types[id]) == Shape(types[candId])
      ensures cmap[candId] == candId
    {
      InvariantFacts(orig, types, cmap, filed, startId);
      hide Invariant;
      hide LinksOk;
      hide NoDuplicates;
      hide FiledComplete;
      hide Tracks;
      ShapeFacts(types[id], types[candId]);
    }

    /** With a cleared hypothesis, types that are not told apart must be accepted. */
    lemma MustOrTold(unit: set<TypeId>, id: TypeId, candId: TypeId)
      requires ViewOk(V()) && HypotValid() && id < |types| && candId < |types|
      requires forall c :: 0 <= c < |hypotMap| ==> hypotMap[c] == UNPROCESSED_ID
      ensures MustAccept(V(), unit, hypotMap, id, candId) || ToldApart(types, unit, id, candId)
    {
    }

    method StructType(id: TypeId) returns (err: int)
      requires Inv() && HypotValid() && IndexValid() && EmbedRanked(types, embed) && types == orig
      requires startId <= id < |types| && StructsDistinct(types, cmap, startId)
      modifies this`cmap, this`filed, this`hypotMap, this`hypotList, this`hypotAdjustCanon, table
      ensures err == 0 || err == -EINVAL || err == -H.ENOMEM
      ensures err == 0 ==> Inv() && HypotValid() && IndexValid() && StructsDistinct(types, cmap, startId)
      ensures StructFrame(types, old(cmap), cmap) && old(filed) <= filed
      ensures err == 0 && IsComposite(types[id]) ==> IsMapped(cmap, id)
      ensures err == 0 ==> StructStep(types, embed, startId, old(cmap), id, cmap)
      ensures err == -EINVAL ==> !AllCompared(types)
    {
      InvariantFacts(orig, types, cmap, filed, startId);
      hide Invariant;
      if IsMapped(cmap, id) || !IsComposite(types[id]) {
        return 0;
      }
      err := DedupStruct(id);
    }

    method DedupStruct(id: TypeId) returns (err: int)
      requires Inv() && HypotValid() && IndexValid() && EmbedRanked(types, embed) && types == orig
      requires startId <= id < |types| && IsComposite(types[id]) && !IsMapped(cmap, id)
      requires StructsDistinct(types, cmap, startId)
      modifies this`cmap, this`filed, this`hypotMap, this`hypotList, this`hypotAdjustCanon, table
      ensures err == 0 || err == -EINVAL || err == -H.ENOMEM
      ensures err == 0 ==> Inv() && HypotValid() && IndexValid() && IsMapped(cmap, id)
      ensures StructFrame(types, old(cmap), cmap) && old(filed) <= filed
      ensures err == 0 ==> StructsDistinct(types, cmap, startId)
      ensures err == 0 ==> StructStep(types, embed, startId, old(cmap), id, cmap)
      ensures err == -EINVAL ==> !AllCompared(types)
    {
      hide AllCompared;
      hide Invariant;
      hide DedupedUnit;
      hide StructsDistinct;
      hide StructNew;
      hide SignatureOk;
      hide Offered;
      hide Chosen;
      hide StructStep;
      hide ViewOk;
      hide MergeFrame;
      hide MergeOk;
      hide TableOk;
      hide EmbedRanked;
      hide HypotOk;
      hide ListMatches;
      NotFiled(orig, types, cmap, filed, startId, id);
      var newId;
      ghost var unit := PickUnit(types, id);
      ghost var tried;
      err, newId, tried := ChooseStruct(id, unit);
      SettleStruct(types, old(cmap), cmap, filed, startId, id, newId);
      if err == 0 {
        SettledDistinct(old(cmap), id, newId, unit);
        ChosenSteps(types, embed, startId, old(cmap), id, tried, cmap[id := newId]);
        err := Settle(id, newId);
      }
    }

    /** The unit of a struct, if it has one. */
    ghost function PickUnit(ts: seq<BtfType>, id: TypeId): (unit: set<TypeId>)
      requires GraphOk(ts)
      ensures UnitOf(ts, id) ==> DedupedUnit(ts, unit) && id in unit
    {
      if UnitOf(ts, id) then var unit :| DedupedUnit(ts, unit) && id in unit; unit else {}
    }

    lemma SettledDistinct(m0: seq<nat>, id: TypeId, newId: TypeId, unit: set<TypeId>)
      requires Inv() && types == orig && startId <= id < |types| && IsComposite(types[id]) && newId < |types|
      requires StructsDistinct(types, m0, startId) && MergeFrame(types, m0, cmap)
      requires UnitOf(types, id) ==> DedupedUnit(types, unit) && id in unit
      requires newId == id ==> StructNew(types, filed, id, unit)
      ensures StructsDistinct(types, cmap[id := newId], startId)
    {
      InvariantFacts(orig, types, cmap, filed, startId);
      StructsDistinctFrame(types, m0, cmap, startId);
      if newId == id {
        NewStructDistinct(types, cmap, filed, startId, id, unit);
      } else {
        StructsDistinctFrame(types, cmap, cmap[id := newId], startId);
      }
    }

    /** The first filed candidate that represents struct `id`, or `id` itself. */
    method ChooseStruct(id: TypeId, ghost unit: set<TypeId>) returns (err: int, newId: TypeId, ghost tried: seq<TypeId>)
      requires Inv() && HypotValid() && IndexValid() && EmbedRanked(types, embed) && types == orig
      requires id < |types| && IsComposite(types[id]) && id !in filed
      modifies this`cmap, this`hypotMap, this`hypotList, this`hypotAdjustCanon
      ensures Inv() && HypotValid()
      ensures err == 0 || err == -EINVAL || err == -H.ENOMEM
      ensures MergeFrame(types, old(cmap), cmap)
      ensures newId < |types|
      ensures newId != id ==> MergeOk(orig, id, newId) && cmap[newId] == newId
      ensures err == 0 && newId == id ==> StructNew(types, filed, id, unit)
      ensures old(ViewOk(V())) && Offered(types, old(cmap), tried, id)
      ensures err == 0 ==> Choice(err, newId, cmap) == old(Chosen(V(), startId, tried, id))
      ensures err == -EINVAL ==> !AllCompared(types)
    {
      hide AllCompared;
      hide Invariant;
      hide ToldApart;
      hide StructNew;
      hide MergeFrame;
      hide MergeOk;
      hide GraphOk;
      hide TableOk;
      hide EmbedRanked;
      hide HypotOk;
      hide ListMatches;
      hide SignatureOk;
      var cs := Candidates(sig(types[id]));
      InvariantFacts(orig, types, cmap, filed, startId);
      tried := cs;
      CandidatesOffered(types, cmap, filed, sig, cs, id);
      assert ViewOk(V());
      hide Offered;
      hide Tried;
      hide ViewOk;
      hide Chosen;
      hide LinksOk;
      hide Tracks;
      hide FiledComplete;
      hide NoDuplicates;
      hide Forest;
      var k := 0;
      MergeFrameNone(types, cmap);
      assert cs[0..] == cs;
      while k < |cs|
        invariant 0 <= k <= |cs|
        invariant Inv() && HypotValid()
        invariant ViewOk(V()) && Chosen(V(), startId, cs[k..], id) == old(Chosen(V(), startId, cs, id))
        invariant MergeFrame(types, old(cmap), cmap)
        invariant forall j :: 0 <= j < k ==> ToldApart(types, unit, id, cs[j])
      {
        ghost var m := cmap;
        var r := TryStruct(id, cs[k], unit);
        MergeFrameTransitive(types, old(cmap), m, cmap);
        if r < 0 {
          return r, id, cs;
        }
        ChosenStep(V().(canon := m), startId, cs, k, id);
        if r == 1 {
          return 0, cs[k], cs;
        }
        k := k + 1;
      }
      ChosenEnd(V(), startId, cs, id);
      AllTried(types, sig, filed, cs, id, unit);
      return 0, id, cs;
    }

    method StructTypes() returns (err: int)
      requires Inv() && HypotValid() && IndexValid() && EmbedRanked(types, embed) && types == orig
      requires StructProgress(types, cmap, cmap, startId) && StructsDistinct(types, cmap, startId)
      modifies this`cmap, this`filed, this`hypotMap, this`hypotList, this`hypotAdjustCanon, table
      ensures err == 0 || err == -EINVAL || err == -H.ENOMEM
      ensures err == 0 ==> Inv() && HypotValid() && IndexValid() && StructsDistinct(types, cmap, startId)
      ensures old(filed) <= filed
      ensures err == 0 ==> StructProgress(types, old(cmap), cmap, |types|)
      ensures err == 0 ==> StructRun(types, embed, startId, old(cmap), |types|, cmap)
      ensures err == -EINVAL ==> !AllCompared(types)
    {
      InvariantFacts(orig, types, cmap, filed, startId);
      hide StructStep;
      hide StructRun;
      hide Invariant;
      hide StructsDistinct;
      hide SignatureOk;
      hide TableOk;
      hide EmbedRanked;
      hide GraphOk;
      hide HypotOk;
      hide ListMatches;
      hide StructProgress;
      hide LinksOk;
      hide Tracks;
      hide NoDuplicates;
      hide FiledComplete;
      hide FiledOk;
      StructRunStarts(types, embed, startId, cmap);
      var id := startId;
      while id < |types|
        invariant startId <= id <= |types|
        invariant Inv() && HypotValid() && IndexValid() && EmbedRanked(types, embed)
        invariant StructProgress(types, old(cmap), cmap, id)
        invariant StructsDistinct(types, cmap, startId) && old(filed) <= filed
        invariant StructRun(types, embed, startId, old(cmap), id, cmap)
      {
        ghost var m := cmap;
        err := StructType(id);
        if err != 0 {
          return;
        }
        StructRunNext(types, embed, startId, old(cmap), id, m, cmap);
        StructProgressStep(types, old(cmap), m, cmap, id);
        id := id + 1;
      }
      return 0;
    }

    // ----------------------------------------------------------------
    // Reference types
    // ----------------------------------------------------------------

    ghost predicate RefInv()
      reads this, table, data, offs
    {
      && DataOk() && IndexValid() && |cmap| == |types| == |orig|
      && RefState(orig, types, cmap, filed, startId)
    }

    /** Canonical type of `id`, found by resolving its references first. */
    method RefType(id: TypeId) returns (r: int)
      requires RefInv() && id < |types|
      modifies this`types, this`cmap, this`filed, table, data
      ensures r < 0 ==> r == -ELOOP || r == -H.ENOMEM
      ensures r >= 0 ==> RefInv() && RefFrame(old(types), old(cmap), types, cmap, |cmap|) && old(filed) <= filed
      ensures r >= 0 ==> id < |cmap| && r < |cmap| && IsMapped(cmap, id) && Forest(cmap) && r == Root(cmap, id)
      ensures r == -ELOOP ==> old(!IsMapped(cmap, id))
      ensures r == -ELOOP && RefRankedFor(orig, startId, refRank) ==> old(!Below(cmap, refRank, id))
      decreases Unprocessed(cmap), 0, 1
    {
      RefStateFacts(orig, types, cmap, filed, startId);
      if cmap[id] == IN_PROGRESS_ID {
        return -ELOOP;
      }
      if IsMapped(cmap, id) {
        r := ResolveTypeId(cmap, id);
        return;
      }
      r := DedupRef(id);
    }

    method DedupRef(id: TypeId) returns (r: int)
      requires RefInv() && id < |types| && cmap[id] == UNPROCESSED_ID
      modifies this`types, this`cmap, this`filed, table, data
      ensures r < 0 ==> r == -ELOOP || r == -H.ENOMEM
      ensures r >= 0 ==> RefInv() && RefFrame(old(types), old(cmap), types, cmap, |cmap|) && old(filed) <= filed
      ensures r >= 0 ==> id < |cmap| && r < |cmap| && IsMapped(cmap, id) && Forest(cmap) && r == Root(cmap, id)
      ensures r == -ELOOP && RefRankedFor(orig, startId, refRank) ==> old(!Below(cmap, refRank, id))
      decreases Unprocessed(cmap), 0, 0
    {
      hide RefWork;
      hide SignatureOk;
      hide TableOk;
      hide RefRankedFor;
      hide RefState;
      ghost var t0, m0 := types, cmap;
      EnterRef(orig, types, cmap, filed, startId, id);
      cmap := cmap[id := IN_PROGRESS_ID];
      RefWorkFacts(orig, types, cmap, filed, startId, id, 0);
      r := ResolveRefs(id);
      if r < 0 {
        return;
      }
      ghost var t1, m1 := types, cmap;
      r := ChooseRef(id);
      if r >= 0 {
        RefFrameWhole(t0, m0, t1, m1, id, r, |cmap|);
      }
    }

    ghost predicate RefWorkInv(id: TypeId, n: nat)
      reads this, table, data, offs
    {
      && DataOk() && IndexValid() && |cmap| == |types| == |orig| && id < |orig| && n <= |orig[id].refs| == |types[id].refs|
      && RefWork(orig, types, cmap, filed, startId, id, n)
    }

    /** Replace the references of `id` by their canonical types, one after the other. */
    method ResolveRefs(id: TypeId) returns (r: int)
      requires RefWorkInv(id, 0)
      modifies this`types, this`cmap, this`filed, table, data
      ensures r == 0 || r == -ELOOP || r == -H.ENOMEM
      ensures r == 0 ==> RefWorkInv(id, |orig[id].refs|)
      ensures r == 0 ==> RefFrame(old(types), old(cmap), types, cmap, id) && old(filed) <= filed
      ensures r == -ELOOP && RefRankedFor(orig, startId, refRank) ==> old(!BelowOthers(cmap, refRank, id))
      decreases Unprocessed(cmap), 2
    {
      hide RefWork;
      hide RefState;
      hide RefFrame;
      hide SignatureOk;
      hide TableOk;
      RefFrameNone(types, cmap, id);
      var j := 0;
      while j < |types[id].refs|
        invariant id < |orig| && 0 <= j <= |orig[id].refs| && RefWorkInv(id, j)
        invariant RefFrame(old(types), old(cmap), types, cmap, id) && old(filed) <= filed
        decreases |orig[id].refs| - j
      {
        ghost var t1, m1 := types, cmap;
        RefFrameShrinks(old(types), old(cmap), types, cmap, id);
        BelowOthersFrame(old(types), old(cmap), types, cmap, id, refRank, id);
        r := ResolveRef(id, j);
        if r < 0 {
          return;
        }
        RefFrameTransitive(old(types), old(cmap), t1, m1, types, cmap, id);
        j := j + 1;
      }
      return 0;
    }

    method ResolveRef(id: TypeId, j: nat) returns (r: int)
      requires RefWorkInv(id, j) && j < |types[id].refs|
      modifies this`types, this`cmap, this`filed, table, data
      ensures r == 0 || r == -ELOOP || r == -H.ENOMEM
      ensures r == 0 ==> RefWorkInv(id, j + 1)
      ensures r == 0 ==> RefFrame(old(types), old(cmap), types, cmap, id) && old(filed) <= filed
      ensures r == -ELOOP && RefRankedFor(orig, startId, refRank) ==> old(!BelowOthers(cmap, refRank, id))
      decreases Unprocessed(cmap), 1
    {
      hide RefWork;
      hide RefState;
      ghost var t1, m1, f1 := types, cmap, filed;
      hide SignatureOk;
      hide TableOk;
      hide S.Written;
      hide E.RefPos;
      var at := RefAddress(id, j);
      var ref := data[at];
      NextRef(orig, types, cmap, filed, startId, refRank, id, j);
      RefWorkFacts(orig, types, cmap, filed, startId, id, j);
      r := RefType(ref);
      if r < 0 {
        return;
      }
      RefWorkFrame(orig, t1, m1, f1, types, cmap, filed, startId, id, j);
      RefFrameRewrite(t1, m1, types, cmap, id, j, r);
      PutRef(id, j, r, at);
      return 0;
    }

    /** Overwrite reference j of `id` in place. */
    method PutRef(id: TypeId, j: nat, r: TypeId, at: nat)
      requires RefWorkInv(id, j) && j < |types[id].refs| && At(id, j, at)
      requires orig[id].refs[j] < |cmap| && IsMapped(cmap, orig[id].refs[j])
      requires Forest(cmap) && r == Root(cmap, orig[id].refs[j])
      modifies this`types, data
      ensures RefWorkInv(id, j + 1)
      ensures types == Rewrite(old(types), id, j, r) && data[..] == old(data[..])[at := r]
    {
      hide SignatureOk;
      hide S.Written;
      hide E.RefPos;
      hide Root;
      hide Forest;
      hide RefWork;
      hide RefState;
      RewriteRef(orig, types, cmap, filed, startId, id, j, r);
      RefWorkFacts(orig, types, cmap, filed, startId, id, j);
      RefReady(orig, types, cmap, filed, startId, id);
      TableRewrite(sig, types, Rewrite(types, id, j, r), filed, table.Contents(), id);
      hide TableOk;
      WordPut(types, startId, data[..], offs[..], id, j, r);
      types := Rewrite(types, id, j, r);
      ghost var words := data[..];
      data[at] := r;
      assert data[..] == words[at := r];
    }

    /** The place of reference j of `id` among the words. */
    ghost predicate At(id: TypeId, j: nat, at: nat)
      reads this, data, offs
    {
      && startId <= id < |types| && id - startId < offs.Length && j < RefCount(types[id].info)
      && at == offs[id - startId] + E.RefPos(types[id].info, j) < data.Length
    }

    method RefAddress(id: TypeId, j: nat) returns (at: nat)
      requires RefWorkInv(id, j) && j < |types[id].refs|
      ensures At(id, j, at) && data[at] == types[id].refs[j]
    {
      hide SignatureOk;
      hide TableOk;
      hide RefWork;
      hide RefState;
      hide S.Written;
      hide E.RefPos;
      RefWorkFacts(orig, types, cmap, filed, startId, id, j);
      BehindBase(orig, types, cmap, filed, startId, id);
      S.WrittenRef(data[..], offs[..], types[startId..], id - startId, j);
      at := offs[id - startId] + E.RefPos(types[id].info, j);
    }

    /** Look for a filed type with the same record, or file this one. */
    method ChooseRef(id: TypeId) returns (r: int)
      requires id < |orig| && RefWorkInv(id, |orig[id].refs|)
      modifies this`cmap, this`filed, table
      ensures r == -H.ENOMEM || r >= 0
      ensures r >= 0 ==> RefInv() && r < |cmap| && cmap == old(cmap)[id := r] && old(filed) <= filed
      ensures r >= 0 ==> Forest(cmap) && r == Root(cmap, id)
    {
      hide SignatureOk;
      hide TableOk;
      hide S.Written;
      hide RefWork;
      hide RefState;
      RefWorkFacts(orig, types, cmap, filed, startId, id, |orig[id].refs|);
      RefReady(orig, types, cmap, filed, startId, id);
      var newId := FindExact(id);
      LeaveRef(orig, types, cmap, filed, startId, id, newId);
      cmap := cmap[id := newId];
      r := newId;
      if newId == id {
        filed := filed + {id};
        assert filed - {id} == old(filed);
        var err := File(id);
        if err != 0 {
          r := err;
        }
      }
    }

    method RefTypes() returns (err: int)
      requires RefInv() && NoneInProgress(cmap) && MappedUpTo(cmap, startId)
      modifies this`types, this`cmap, this`filed, table, data
      ensures err == 0 || err == -ELOOP || err == -H.ENOMEM
      ensures err == 0 ==> RefInv() && MappedUpTo(cmap, |cmap|)
      ensures err == 0 ==> ProcessedKept(old(cmap), cmap) && old(filed) <= filed
      ensures err == -ELOOP ==> !RefRankedFor(orig, startId, refRank)
    {
      hide RefState;
      hide RefFrame;
      hide SignatureOk;
      hide TableOk;
      var id := startId;
      while id < |types|
        invariant startId <= id <= |types|
        invariant RefInv() && NoneInProgress(cmap) && MappedUpTo(cmap, id)
        invariant ProcessedKept(old(cmap), cmap) && old(filed) <= filed
      {
        ghost var t, m := types, cmap;
        err := RefType(id);
        if err < 0 {
          return;
        }
        RefLoopStep(t, m, types, cmap, id);
        ProcessedKeptStep(old(cmap), t, m, types, cmap, |m|);
        id := id + 1;
      }
      return 0;
    }

    // ----------------------------------------------------------------
    // All passes
    // ----------------------------------------------------------------

    /** From a fresh start, settle the base and the primitive types. */
    method SettlePrims() returns (err: int)
      requires Inv() && IndexValid() && types == orig && PrimLinks(types, cmap) && InitialMap(types, cmap) && filed == {}
      modifies this`cmap, this`filed, table
      ensures err == 0 || err == -EINVAL || err == -H.ENOMEM
      ensures err == 0 ==> Inv() && IndexValid()
      ensures err == 0 ==> PrimsDone(types, cmap, startId) && StructProgress(types, cmap, cmap, startId)
      ensures err == 0 ==> StructsDistinct(types, cmap, startId) && BaseFiled(types, filed, startId)
      ensures err == -EINVAL ==> !AllCompared(types)
    {
      err := Prep();
      if err != 0 {
        return;
      }
      ghost var filed0, m0 := filed, cmap;
      InvariantFacts(orig, types, cmap, filed, startId);
      BaseIsFiled(types, cmap, filed, startId);
      err := PrimTypes();
      if err != 0 {
        return;
      }
      InvariantFacts(orig, types, cmap, filed, startId);
      PrimsAreDone(types, m0, cmap, filed0, startId);
      NoStructsYet(types, cmap, startId);
    }

    /** From there, settle structs and forward declarations. */
    method SettleStructs() returns (err: int)
      requires Inv() && HypotValid() && IndexValid() && EmbedRanked(types, embed) && types == orig
      requires PrimsDone(types, cmap, startId) && StructProgress(types, cmap, cmap, startId)
      requires StructsDistinct(types, cmap, startId)
      modifies this`cmap, this`filed, this`hypotMap, this`hypotList, this`hypotAdjustCanon, table
      ensures err == 0 || err == -EINVAL || err == -H.ENOMEM
      ensures err == 0 ==> (old(DataOk()) ==> RefInv()) && NoneInProgress(cmap) && MappedUpTo(cmap, startId)
      ensures err == 0 ==> StructsDistinct(types, cmap, startId) && old(filed) <= filed
      ensures err == 0 ==> StructsFrom(types, embed, startId, old(cmap), cmap)
      ensures err == -EINVAL ==> !AllCompared(types)
    {
      hide Invariant;
      hide StructRun;
      hide StructsFrom;
      hide StructProgress;
      hide StructsDistinct;
      hide PrimsDone;
      hide RefState;
      hide SignatureOk;
      hide TableOk;
      hide EmbedRanked;
      hide HypotOk;
      hide ListMatches;
      hide S.Written;
      hide AllCompared;
      err := StructTypes();
      if err == 0 {
        err := SettleFwds(old(cmap));
      }
    }

    /** Link forward declarations, after the struct pass from m0. */
    method SettleFwds(ghost m0: seq<nat>) returns (err: int)
      requires Inv() && IndexValid() && types == orig && StructsDistinct(types, cmap, startId)
      requires PrimsDone(types, m0, startId) && StructProgress(types, m0, cmap, |types|)
      requires StructRun(types, embed, startId, m0, |types|, cmap)
      modifies this`cmap
      ensures err == 0 || err == -H.ENOMEM
      ensures err == 0 ==> (old(DataOk()) ==> RefInv()) && NoneInProgress(cmap) && MappedUpTo(cmap, startId)
      ensures err == 0 ==> StructsDistinct(types, cmap, startId) && StructsFrom(types, embed, startId, m0, cmap)
    {
      hide Invariant;
      hide StructRun;
      hide StructsFrom;
      hide StructProgress;
      hide StructsDistinct;
      hide PrimsDone;
      hide RefState;
      hide FwdProgress;
      hide LinksOk;
      hide GraphOk;
      hide SignatureOk;
      hide TableOk;
      hide S.Written;
      hide NoneInProgress;
      hide MappedUpTo;
      ghost var m1 := cmap;
      InvariantLinks(types, cmap, filed, startId);
      var m;
      err, m := ResolveFwds(types, cmap, startId, filed);
      if err != 0 {
        return;
      }
      cmap := m;
      PassesMeet(types, m0, m1, cmap, filed, startId);
      FwdsKeepStructs(types, m1, cmap, startId);
      FwdsOnlyDecls(types, embed, m0, m1, cmap, startId);
      SameCount(m);
    }

    lemma SameCount(m: seq<nat>)
      requires RefState(orig, types, m, filed, startId)
      ensures |m| == |types| == |orig|
    {
      RefStateFacts(orig, types, m, filed, startId);
    }

    /** Determine the canonical type of every type; references of reference types are
        overwritten in place. */
    method Canonicalize() returns (err: int)
      requires DataOk() && Valid() && types == orig && InitialMap(types, cmap) && PrimLinks(types, cmap) && filed == {}
      modifies this, table, data
      ensures err == 0 || err == -EINVAL || err == -ELOOP || err == -H.ENOMEM
      ensures err == 0 ==> DataOk()
      ensures err == 0 ==> Canonicalized(orig, types, cmap, startId)
      ensures err == -ELOOP ==> !RefRankedFor(orig, startId, refRank)
      ensures err == -EINVAL ==> !AllCompared(orig)
      ensures err == 0 ==> Distinguished(orig, cmap, startId) && PassedThrough(orig, embed, startId, cmap)
    {
      hide S.Written;
      hide SignatureOk;
      hide TableOk;
      hide RefState;
      hide Canonicalized;
      hide Distinguished;
      hide PassedThrough;
      hide StructsDistinct;
      hide StructsFrom;
      hide AllCompared;
      err := SettlePrims();
      if err != 0 {
        return;
      }
      ghost var m1 := cmap;
      InvariantLinks(types, cmap, filed, startId);
      hide Invariant;
      hide SignatureOk;
      hide TableOk;
      err := SettleStructs();
      if err != 0 {
        return;
      }
      ghost var m2 := cmap;
      RefStateFacts(orig, types, cmap, filed, startId);
      err := RefTypes();
      if err != 0 {
        return;
      }
      RefStateCanonicalized(orig, types, cmap, filed, startId);
      StaysDistinguished(orig, types, m2, cmap, filed, startId);
      StaysPassed(orig, embed, startId, m1, m2, cmap);
    }
  }

  lemma WordPut(types: seq<BtfType>, start: TypeId, data: seq<nat>, offs: seq<nat>, id: TypeId, j: nat, r: TypeId)
    requires start <= id < |types| && j < |types[id].refs| && S.Written(data, offs, types[start..])
    requires id - start < |offs| && j < RefCount(types[id].info) && offs[id - start] + E.RefPos(types[id].info, j) < |data|
    ensures S.Written(data[offs[id - start] + E.RefPos(types[id].info, j) := r], offs, Rewrite(types, id, j, r)[start..])
  {
    hide S.Written;
    hide E.RefPos;
    S.WrittenPutRef(data, offs, types[start..], id - start, j, r);
    var ts := types[start..];
    assert Rewrite(types, id, j, r)[start..] == ts[id - start := ts[id - start].(refs := ts[id - start].refs[j := r])];
  }

  /** The entries of structs are those that a run of the struct pass from m leaves. */
  ghost predicate StructsFrom(types: seq<BtfType>, embed: seq<nat>, start: TypeId, m: seq<nat>, m': seq<nat>) {
    exists m1 :: StructRun(types, embed, start, m, |types|, m1) && SameStructEntries(types, m1, m')
  }

  ghost predicate SameStructEntries(types: seq<BtfType>, m: seq<nat>, m': seq<nat>) {
    |m| == |m'| == |types| && forall i :: 0 <= i < |types| && IsComposite(types[i]) ==> m'[i] == m[i]
  }

  /** How the entries of structs came about: primitive types were settled first, and then
      the struct pass was run. */
  ghost predicate PassedThrough(types: seq<BtfType>, embed: seq<nat>, start: TypeId, m: seq<nat>) {
    exists m1 :: SettledBefore(types, start, m1) && StructsFrom(types, embed, start, m1, m)
  }

  ghost predicate SettledBefore(types: seq<BtfType>, start: TypeId, m: seq<nat>) {
    GraphOk(types) && PrimsDone(types, m, start) && LinksOk(types, m)
  }

  lemma FwdsOnlyDecls(types: seq<BtfType>, embed: seq<nat>, m0: seq<nat>, m1: seq<nat>, m: seq<nat>, start: TypeId)
    requires StructRun(types, embed, start, m0, |types|, m1) && FwdProgress(types, m1, m, start, |types|)
    ensures StructsFrom(types, embed, start, m0, m)
  {
    hide StructRun;
    forall i | 0 <= i < |types| && IsComposite(types[i])
      ensures m[i] == m1[i]
    {
      assert start <= i ==> FwdVerdict(types, m1, i, m[i]);
    }
    assert SameStructEntries(types, m1, m);
  }

  lemma StaysPassed(types: seq<BtfType>, embed: seq<nat>, start: TypeId, m1: seq<nat>, m2: seq<nat>, m: seq<nat>)
    requires SettledBefore(types, start, m1) && StructsFrom(types, embed, start, m1, m2)
    requires RefPhase(types, types, m2, start) && ProcessedKept(m2, m)
    ensures PassedThrough(types, embed, start, m)
  {
    hide StructRun;
    var mid :| StructRun(types, embed, start, m1, |types|, mid) && SameStructEntries(types, mid, m2);
    assert SameStructEntries(types, mid, m) by {
      forall i | 0 <= i < |types| && IsComposite(types[i])
        ensures m[i] == mid[i]
      {
        assert IsMapped(m2, i);
      }
    }
    assert StructsFrom(types, embed, start, m1, m);
  }

  /** Use an accepted hypothesis to extend the canonical map. */
  method MergeHypotMap(types: seq<BtfType>, m0: seq<nat>, h: seq<nat>, list: seq<TypeId>, adjustCanon: bool,
                       ghost filed: set<TypeId>, ghost start: TypeId)
    returns (m: seq<nat>)
    requires Invariant(types, types, m0, filed, start)
    requires |h| == |types| && HypotOk(h) && ListMatches(h, list) && PairsSound(types, h)
    ensures Forest(m0) && |m0| == |types| && m == MergedAll(types, m0, h, list, |list|, adjustCanon)
    ensures Invariant(types, types, m, filed, start)
    ensures MergeFrame(types, m0, m)
  {
    InvariantFacts(types, types, m0, filed, start);
    hide Invariant;
    hide MergeFrame;
    hide Merged;
    hide PairsSound;
    hide GraphOk;
    m := m0;
    MergeFrameNone(types, m0);
    var i := 0;
    while i < |list|
      invariant 0 <= i <= |list|
      invariant m == MergedAll(types, m0, h, list, i, adjustCanon)
      invariant Invariant(types, types, m, filed, start)
      invariant MergeFrame(types, m0, m)
    {
      ghost var m1 := m;
      m := MergeRecord(types, m, h, list[i], adjustCanon, filed, start);
      MergeFrameTransitive(types, m0, m1, m);
      i := i + 1;
    }
  }

  method MergeRecord(types: seq<BtfType>, m0: seq<nat>, h: seq<nat>, canon: TypeId, adjustCanon: bool,
                     ghost filed: set<TypeId>, ghost start: TypeId)
    returns (m: seq<nat>)
    requires Invariant(types, types, m0, filed, start)
    requires |h| == |types| && HypotOk(h) && PairsSound(types, h) && canon < |h| && Recorded(h, canon)
    ensures Forest(m0) && |m0| == |types| && m == Merged(types, m0, h, canon, adjustCanon)
    ensures Invariant(types, types, m, filed, start)
    ensures MergeFrame(types, m0, m)
  {
    InvariantFacts(types, types, m0, filed, start);
    var t := ResolveTypeId(m0, h[canon]);
    var c := ResolveTypeId(m0, canon);
    var tKind, cKind := types[t].info.kind, types[c].info.kind;
    RootsOfPair(types, m0, h, canon);
    MergeFrameNone(types, m0);
    hide GraphOk;
    hide Tracks;
    hide LinksOk;
    hide FiledOk;
    hide FiledComplete;
    hide NoDuplicates;
    hide Invariant;
    hide PairsSound;
    hide MergeFrame;
    m := m0;
    if tKind != Fwd && cKind == Fwd {
      LinkToTerminal(m0, c, t);
      AddLink(types, types, m0, filed, start, c, t);
      MergeFrameLink(types, m0, c, t);
      m := m[c := t];
    }
    if adjustCanon {
      return;
    }
    if tKind == Fwd && cKind != Fwd {
      LinkToTerminal(m0, t, c);
      AddLink(types, types, m0, filed, start, t, c);
      MergeFrameLink(types, m0, t, c);
      m := m[t := c];
    }
    if (tKind == Struct || tKind == Union) && cKind != Fwd && IsMapped(m, c) && !IsMapped(m, t) {
      LinkToTerminal(m0, t, c);
      AddLink(types, types, m0, filed, start, t, c);
      MergeFrameLink(types, m0, t, c);
      m := m[t := c];
    }
  }

  /** Find the enum that represents `id` among the candidates.  A declaration takes
      any enum of its name; a definition takes an equal one, and captures the
      canonical declarations of its name that it passes. */
  method ResolveEnum(types: seq<BtfType>, m0: seq<nat>, cs: seq<TypeId>, id: TypeId, ghost filed: set<TypeId>, ghost start: TypeId)
    returns (m: seq<nat>, newId: TypeId)
    requires Invariant(types, types, m0, filed, start) && PrimLinks(types, m0)
    requires id < |m0| && IsAnyEnum(types[id]) && m0[id] == UNPROCESSED_ID
    requires forall j :: 0 <= j < |cs| ==> cs[j] in filed
    ensures Invariant(types, types, m, filed, start) && EnumStep(types, m0, m, id)
    ensures newId < |types|
    ensures newId != id ==> Forest(m[id := newId]) && MergeOk(types, id, newId) && IsMapped(m, newId)
    ensures newId == id ==> forall j :: 0 <= j < |cs| && m[cs[j]] == cs[j] ==> !EnumCompatible(types[id], types[cs[j]])
  {
    InvariantFacts(types, types, m0, filed, start);
    hide Invariant;
    hide Forest;
    hide PrimLinks;
    hide Refused;
    hide GraphOk;
    hide Tracks;
    hide LinksOk;
    hide FiledComplete;
    hide NoDuplicates;
    hide MergeOk;
    m := m0;
    var k := 0;
    NoneRefused(types, m0, cs, id);
    while k < |cs|
      invariant 0 <= k <= |cs|
      invariant Invariant(types, types, m, filed, start) && EnumStep(types, m0, m, id)
      invariant IsEnumFwd(types[id]) ==> m == m0
      invariant Refused(types, m, cs, k, id)
    {
      ghost var m1 := m;
      var take;
      m, take := VisitEnum(types, m, cs[k], id, m0, filed, start);
      if take {
        return m, cs[k];
      }
      OneMoreRefused(types, m1, m, cs, k, id);
      k := k + 1;
    }
    AllRefused(types, m, cs, id);
    return m, id;
  }

  /** The first k candidates that are still canonical are no match. */
  ghost predicate Refused(types: seq<BtfType>, m: seq<nat>, cs: seq<TypeId>, k: nat, id: TypeId) {
    && k <= |cs| && id < |types| == |m| && (forall j :: 0 <= j < |cs| ==> cs[j] < |m|)
    && forall j :: 0 <= j < k && m[cs[j]] == cs[j] ==> !EnumCompatible(types[id], types[cs[j]])
  }

  lemma NoneRefused(types: seq<BtfType>, m: seq<nat>, cs: seq<TypeId>, id: TypeId)
    requires id < |types| == |m| && forall j :: 0 <= j < |cs| ==> cs[j] < |m|
    ensures Refused(types, m, cs, 0, id)
  {
  }

  lemma OneMoreRefused(types: seq<BtfType>, m: seq<nat>, m': seq<nat>, cs: seq<TypeId>, k: nat, id: TypeId)
    requires Refused(types, m, cs, k, id) && k < |cs| && |m'| == |m|
    requires forall j :: 0 <= j < |m'| && m'[j] == j ==> m[j] == j
    requires cs[k] < |m'| && id < |types| == |m'| && (m'[cs[k]] == cs[k] ==> !EnumCompatible(types[id], types[cs[k]]))
    ensures Refused(types, m', cs, k + 1, id)
  {
    hide EnumCompatible;
  }

  lemma AllRefused(types: seq<BtfType>, m: seq<nat>, cs: seq<TypeId>, id: TypeId)
    requires Refused(types, m, cs, |cs|, id)
    ensures forall j :: 0 <= j < |cs| && m[cs[j]] == cs[j] ==> !EnumCompatible(types[id], types[cs[j]])
  {
    hide EnumCompatible;
  }

  /** An enum declaration may be represented by a definition of its name. */
  lemma EnumDeclMerges(types: seq<BtfType>, decl: TypeId, def: TypeId)
    requires GraphOk(types) && decl < |types| && def < |types| && EnumCompatible(types[def], types[decl])
    requires !IsEnumFwd(types[def]) && types[def] != types[decl]
    ensures MergeOk(types, decl, def) && IsDecl(types[decl])
  {
    DeclAgrees(types, decl, def);
  }

  /** Compare enum `id` with one candidate; true if the candidate represents it. */
  method VisitEnum(types: seq<BtfType>, m1: seq<nat>, candId: TypeId, id: TypeId, ghost m0: seq<nat>, ghost filed: set<TypeId>, ghost start: TypeId)
    returns (m: seq<nat>, take: bool)
    requires Invariant(types, types, m1, filed, start) && PrimLinks(types, m0) && EnumStep(types, m0, m1, id)
    requires IsAnyEnum(types[id]) && m0[id] == UNPROCESSED_ID && candId in filed
    requires IsEnumFwd(types[id]) ==> m1 == m0
    ensures Invariant(types, types, m, filed, start) && EnumStep(types, m0, m, id)
    ensures IsEnumFwd(types[id]) ==> m == m0
    ensures forall j :: 0 <= j < |m| && m[j] == j ==> m1[j] == j
    ensures take ==> candId != id && Forest(m[id := candId]) && MergeOk(types, id, candId) && IsMapped(m, candId)
    ensures !take && m[candId] == candId ==> !EnumCompatible(types[id], types[candId])
  {
    InvariantFacts(types, types, m1, filed, start);
    hide Invariant;
    hide Forest;
    hide PrimLinks;
    hide MergeOk;
    assert WellFormed(types[id]) && WellFormed(types[candId]);
    hide GraphOk;
    hide LinksOk;
    hide Tracks;
    hide NoDuplicates;
    hide FiledComplete;
    hide WellFormed;
    m := m1;
    var eq := EqualEnum(types[id], types[candId]);
    if eq {
      EnumLink(types, m, id, candId);
      return m, true;
    }
    eq := CompatEnum(types[id], types[candId]);
    if eq {
      if IsEnumFwd(types[id]) {
        EnumLink(types, m, id, candId);
        return m, true;
      }
      LinkToTerminal(m, candId, id);
      EnumDeclMerges(types, candId, id);
      AddLink(types, types, m, filed, start, candId, id);
      m := m[candId := id];
    }
    return m, false;
  }
}
