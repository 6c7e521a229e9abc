/** What deduplication does to declarations that are ambiguous: a definition can end up
    represented by a different one of the same name. */
module AmbiguousDecls {
  import opened BtfTypes
  import opened CanonicalMap
  import opened Equivalence
  import opened CanonicalIndex
  import opened Traversal
  import opened RefTypes
  import opened BtfCompaction
  import D = Dedup
  import S = BtfSection
  import H = HashMap

  const NAME_A: nat := 1
  const NAME_S: nat := 3
  const NAME_T: nat := 5
  const MEMBER: nat := 7

  function Sized(size: nat): BtfType { BtfType(NAME_A, Info(Struct, 0, false), size, [], []) }
  function Declared(): BtfType { BtfType(NAME_A, Info(Fwd, 0, false), 0, [], []) }
  function Pointer(to: TypeId): BtfType { BtfType(0, Info(Ptr, 0, false), 0, [], [to]) }
  function Holder(name: nat, member: TypeId): BtfType { BtfType(name, Info(Struct, 1, false), 8, [MEMBER, 0], [member]) }

  /** Two different structs A, and a declaration of A that is used both where the one
      and where the other is meant. */
  function Ambiguous(): seq<BtfType> {
    [ VOID,
      Sized(8),            // 1: struct A of 8 bytes
      Pointer(1),
      Holder(NAME_T, 2),   // 3: struct T { struct A *member; }
      Declared(),
      Pointer(4),
      Holder(NAME_S, 5),   // 6: struct S with the declared A
      Holder(NAME_S, 8),   // 7: struct S with the A of 4 bytes
      Pointer(10),
      Holder(NAME_T, 5),   // 9: struct T with the declared A
      Sized(4)             // 10: struct A of 4 bytes
    ]
  }

  const U := UNPROCESSED_ID

  /** The map before the struct pass, ... */
  function AtStart(): seq<nat> { [0, U, U, U, 4, U, U, U, U, U, U] }
  /** ... when struct 7 is compared with 6, ... */
  function BeforeS(): seq<nat> { [0, 1, U, 3, 4, U, 6, U, U, U, U] }
  function PairsOfS(): seq<nat> { [U, U, U, U, 10, 8, 7, U, U, U, U] }
  /** ... when struct 9 is compared with 3, and after that. */
  function BeforeT(): seq<nat> { [0, 1, U, 3, 10, U, 6, 6, U, U, U] }
  function PairsOfT(): seq<nat> { [U, 4, 5, 9, U, U, U, U, U, U, U] }
  function AfterT(): seq<nat> { [0, 1, U, 3, 10, U, 6, 6, U, 3, 1] }

  lemma TypesAt()
    ensures |Ambiguous()| == 11
    ensures Ambiguous()[0] == VOID && Ambiguous()[1] == Sized(8) && Ambiguous()[2] == Pointer(1)
    ensures Ambiguous()[3] == Holder(NAME_T, 2) && Ambiguous()[4] == Declared() && Ambiguous()[5] == Pointer(4)
    ensures Ambiguous()[6] == Holder(NAME_S, 5) && Ambiguous()[7] == Holder(NAME_S, 8) && Ambiguous()[8] == Pointer(10)
    ensures Ambiguous()[9] == Holder(NAME_T, 5) && Ambiguous()[10] == Sized(4)
  {
  }

  lemma AmbiguousGraph()
    ensures GraphOk(Ambiguous()) && |Ambiguous()| == 11
  {
    TypesAt();
    hide Ambiguous;
    var ts := Ambiguous();
    forall i | 0 <= i < |ts|
      ensures WellFormed(ts[i]) && (forall j :: 0 <= j < |ts[i].refs| ==> ts[i].refs[j] < |ts|)
    {
    }
  }

  lemma FactsOfS()
    ensures |BeforeS()| == |BeforeT()| == 11 && Forest(BeforeS()) && BeforeT() == BeforeS()[7 := 6][4 := 10] && BeforeT()[7] == 6
    ensures BeforeS()[4] == 4 && BeforeS()[6] == 6
    ensures BeforeS()[5] == BeforeS()[7] == BeforeS()[8] == BeforeS()[10] == U
  {
    assert Ranked(BeforeS(), [0, 0, 0, 0, 0, 0, 0, 0, 0, 0, 0]);
  }

  lemma PairFactsOfS()
    ensures |PairsOfS()| == 11 && HypotOk(PairsOfS()) && PairsOfS() == Fresh(11).h[6 := 7][5 := 8][4 := 10]
    ensures forall c :: 0 <= c < 11 ==> (Recorded(PairsOfS(), c) <==> c in {4, 5, 6})
    ensures PairsOfS()[4] == 10 && PairsOfS()[5] == 8 && PairsOfS()[6] == 7
  {
  }

  lemma FactsOfT()
    ensures |BeforeT()| == |AfterT()| == 11 && Forest(BeforeT()) && AfterT() == BeforeT()[9 := 3][10 := 1] && AfterT()[9] == 3
    ensures BeforeT()[1] == 1 && BeforeT()[3] == 3 && BeforeT()[4] == 10
    ensures BeforeT()[2] == BeforeT()[5] == BeforeT()[9] == BeforeT()[10] == U
  {
    assert Ranked(BeforeT(), [0, 0, 0, 0, 1, 0, 0, 1, 0, 0, 0]);
  }

  lemma PairFactsOfT()
    ensures |PairsOfT()| == 11 && HypotOk(PairsOfT()) && PairsOfT() == Fresh(11).h[3 := 9][2 := 5][1 := 4]
    ensures forall c :: 0 <= c < 11 ==> (Recorded(PairsOfT(), c) <==> c in {1, 2, 3})
    ensures PairsOfT()[1] == 4 && PairsOfT()[2] == 5 && PairsOfT()[3] == 9
  {
  }

  /** Merging what makes struct 7 equivalent to 6 points the declaration at the A of 4 bytes. */
  lemma MergeS()
    ensures Forest(BeforeS()) && HypotOk(PairsOfS()) && |BeforeS()| == |PairsOfS()| == |Ambiguous()|
    ensures forall i :: 0 <= i < |[6, 5, 4]| ==> [6, 5, 4][i] < |PairsOfS()| && Recorded(PairsOfS(), [6, 5, 4][i])
    ensures MergedAll(Ambiguous(), BeforeS(), PairsOfS(), [6, 5, 4], 3, false) == BeforeT()
  {
    PairFactsOfS();
    FactsOfS();
    TypesAt();
    hide Ambiguous;
    hide BeforeS;
    hide PairsOfS;
    hide BeforeT;
    hide Merged;
    hide MergedAll;
    hide Forest;
    hide HypotOk;
    var ts, m0, h := Ambiguous(), BeforeS(), PairsOfS();
    var m1 := m0[7 := 6];
    MergesStruct(ts, m0, h, 6, 7, 6);
    MergedForest(ts, m0, h, 6, false);
    MergesNothing(ts, m1, h, 5, 8, 5);
    MergesDecl(ts, m1, h, 4, 10, 4);
    MergedThrice(ts, m0, h, 6, 5, 4, m1, m1);
  }

  /** Where following one link from each side of a record leads. */
  ghost predicate Ends(ts: seq<BtfType>, m: seq<nat>, h: seq<nat>, canon: TypeId, t: TypeId, c: TypeId) {
    && Forest(m) && |m| == |ts| == |h| && HypotOk(h) && canon < |h| && Recorded(h, canon)
    && t < |m| && c < |m| && !Linked(m, t) && !Linked(m, c)
    && (h[canon] == t || m[h[canon]] == t) && (canon == c || m[canon] == c)
  }

  lemma RootsAtEnds(ts: seq<BtfType>, m: seq<nat>, h: seq<nat>, canon: TypeId, t: TypeId, c: TypeId)
    requires Ends(ts, m, h, canon, t, c)
    ensures Root(m, h[canon]) == t && Root(m, canon) == c
  {
    RootStep(m, h[canon]);
    RootStep(m, canon);
    RootStep(m, t);
    RootStep(m, c);
  }

  lemma MergesStruct(ts: seq<BtfType>, m: seq<nat>, h: seq<nat>, canon: TypeId, t: TypeId, c: TypeId)
    requires Ends(ts, m, h, canon, t, c)
    requires IsComposite(ts[t]) && IsComposite(ts[c]) && IsMapped(m, c) && !IsMapped(m, t)
    ensures Merged(ts, m, h, canon, false) == m[t := c]
  {
    RootsAtEnds(ts, m, h, canon, t, c);
  }

  lemma MergesDecl(ts: seq<BtfType>, m: seq<nat>, h: seq<nat>, canon: TypeId, t: TypeId, c: TypeId)
    requires Ends(ts, m, h, canon, t, c)
    requires IsComposite(ts[t]) && ts[c].info.kind == Fwd
    ensures Merged(ts, m, h, canon, false) == m[c := t]
  {
    RootsAtEnds(ts, m, h, canon, t, c);
  }

  lemma MergesNothing(ts: seq<BtfType>, m: seq<nat>, h: seq<nat>, canon: TypeId, t: TypeId, c: TypeId)
    requires Ends(ts, m, h, canon, t, c)
    requires ts[t].info.kind == ts[c].info.kind == Ptr
    ensures Merged(ts, m, h, canon, false) == m
  {
    RootsAtEnds(ts, m, h, canon, t, c);
  }

  lemma MergedThrice(ts: seq<BtfType>, m0: seq<nat>, h: seq<nat>, a: TypeId, b: TypeId, c: TypeId, m1: seq<nat>, m2: seq<nat>)
    requires Forest(m0) && Forest(m1) && Forest(m2) && |m0| == |m1| == |m2| == |h| == |ts| && HypotOk(h)
    requires a < |h| && b < |h| && c < |h| && Recorded(h, a) && Recorded(h, b) && Recorded(h, c)
    requires m1 == Merged(ts, m0, h, a, false) && m2 == Merged(ts, m1, h, b, false)
    ensures MergedAll(ts, m0, h, [a, b, c], 3, false) == Merged(ts, m2, h, c, false)
  {
    hide Merged;
    var list := [a, b, c];
    assert MergedAll(ts, m0, h, list, 0, false) == m0;
    assert MergedAll(ts, m0, h, list, 1, false) == m1;
    assert MergedAll(ts, m0, h, list, 2, false) == m2;
  }

  /** Merging what makes struct 9 equivalent to 3 replaces the A of 4 bytes, for which the
      declaration now stands, by the A of 8 bytes. */
  lemma MergeT()
    ensures Forest(BeforeT()) && HypotOk(PairsOfT()) && |BeforeT()| == |PairsOfT()| == |Ambiguous()|
    ensures forall i :: 0 <= i < |[3, 2, 1]| ==> [3, 2, 1][i] < |PairsOfT()| && Recorded(PairsOfT(), [3, 2, 1][i])
    ensures MergedAll(Ambiguous(), BeforeT(), PairsOfT(), [3, 2, 1], 3, false) == AfterT()
    ensures Forest(AfterT()) && Root(AfterT(), 10) == 1
  {
    PairFactsOfT();
    FactsOfT();
    TypesAt();
    hide Ambiguous;
    hide BeforeT;
    hide PairsOfT;
    hide AfterT;
    hide Merged;
    hide MergedAll;
    hide Forest;
    hide HypotOk;
    var ts, m0, h := Ambiguous(), BeforeT(), PairsOfT();
    var m1 := m0[9 := 3];
    MergesStruct(ts, m0, h, 3, 9, 3);
    MergedForest(ts, m0, h, 3, false);
    MergesNothing(ts, m1, h, 2, 5, 2);
    MergesStruct(ts, m1, h, 1, 10, 1);
    MergedForest(ts, m1, h, 1, false);
    MergedThrice(ts, m0, h, 3, 2, 1, m1, m1);
    RootStep(AfterT(), 10);
    RootStep(AfterT(), 1);
  }

  // ------------------------------------------------------------------
  // The traversals
  // ------------------------------------------------------------------

  /** A struct with a pointer to one thing is compared with a struct with a pointer to
      another: s, p and c are the canonical side, a, q and d the candidate's. */
  ghost predicate Holders(v: View, s: TypeId, p: TypeId, c: TypeId, a: TypeId, q: TypeId, d: TypeId) {
    && ViewOk(v) && s < |v.types| && p < |v.types| && c < |v.types| && a < |v.types| && q < |v.types| && d < |v.types|
    && s != p && p != c && s != c
    && (exists name :: v.types[s] == Holder(name, p) && v.types[a] == Holder(name, q))
    && v.types[p] == Pointer(c) && v.types[q] == Pointer(d)
    && Root(v.canon, a) != Root(v.canon, s) && Root(v.canon, q) != Root(v.canon, p) && Root(v.canon, d) != Root(v.canon, c)
    && Root(v.canon, c) == c && FwdMatch(v.types[d], v.types[c])
  }

  lemma EquivDecl(v: View, t: Trav, s: TypeId, p: TypeId, c: TypeId, a: TypeId, q: TypeId, d: TypeId)
    requires Holders(v, s, p, c, a, q, d) && TravOk(v, t) && !Recorded(t.h, c) && 1 <= c
    ensures Equiv(v, 1, t, d, c) == Verdict(1, Noted(t, c, d))
  {
    assert ResolvedFwd(v.types, v.canon, c) == c;
    NotedGrows(v, t, c, d);
    assert Pair(v, 1, Noted(t, c, d), d, c) == Verdict(1, Noted(t, c, d));
  }

  lemma EquivPointer(v: View, t: Trav, s: TypeId, p: TypeId, c: TypeId, a: TypeId, q: TypeId, d: TypeId)
    requires Holders(v, s, p, c, a, q, d) && TravOk(v, t) && !Recorded(t.h, c) && !Recorded(t.h, p) && 1 <= c
    ensures Equiv(v, 1, t, q, p) == Verdict(1, Noted(Noted(t, p, q), c, d))
  {
    assert ResolvedFwd(v.types, v.canon, p) == p;
    NotedGrows(v, t, p, q);
    var t1 := Noted(t, p, q);
    EquivDecl(v, t1, s, p, c, a, q, d);
    NotedGrows(v, t1, c, d);
    hide Holders;
    hide GraphOk;
    RefsStep(v, 1, t1, q, p, 0);
    RefsStep(v, 1, Noted(t1, c, d), q, p, 1);
    hide Refs;
    assert Pair(v, 1, t1, q, p) == Refs(v, 1, t1, q, p, 0);
  }

  /** The traversal accepts, and records all three pairs. */
  lemma EquivHolder(v: View, t: Trav, s: TypeId, p: TypeId, c: TypeId, a: TypeId, q: TypeId, d: TypeId)
    requires Holders(v, s, p, c, a, q, d) && TravOk(v, t) && 1 <= c
    requires !Recorded(t.h, s) && !Recorded(t.h, p) && !Recorded(t.h, c)
    ensures Equiv(v, 1, t, a, s) == Verdict(1, Noted(Noted(Noted(t, s, a), p, q), c, d))
  {
    assert ResolvedFwd(v.types, v.canon, s) == s;
    NotedGrows(v, t, s, a);
    var t1 := Noted(t, s, a);
    EquivPointer(v, t1, s, p, c, a, q, d);
    NotedGrows(v, t1, p, q);
    var t2 := Noted(t1, p, q);
    NotedGrows(v, t2, c, d);
    hide GraphOk;
    RefsStep(v, 1, t1, a, s, 0);
    RefsStep(v, 1, Noted(t2, c, d), a, s, 1);
    hide Refs;
    assert Pair(v, 1, t1, a, s) == Refs(v, 1, t1, a, s, 0);
  }

  lemma FreshOk(v: View)
    requires ViewOk(v)
    ensures TravOk(v, Fresh(|v.types|)) && forall c :: 0 <= c < |v.types| ==> !Recorded(Fresh(|v.types|).h, c)
  {
  }

  lemma TriedS(embed: seq<nat>)
    requires ViewOk(View(Ambiguous(), embed, BeforeS()))
    ensures |Ambiguous()| == 11 && Tried(View(Ambiguous(), embed, BeforeS()), 1, 7, 6) == Tryout(1, BeforeT())
  {
    var v := View(Ambiguous(), embed, BeforeS());
    PairFactsOfS();
    FactsOfS();
    TypesAt();
    MergeS();
    hide Ambiguous;
    hide BeforeS;
    hide BeforeT;
    hide PairsOfS;
    hide MergedAll;
    hide Equiv;
    hide Root;
    RootStep(BeforeS(), 4);
    RootStep(BeforeS(), 5);
    RootStep(BeforeS(), 6);
    RootStep(BeforeS(), 7);
    RootStep(BeforeS(), 8);
    RootStep(BeforeS(), 10);
    FreshOk(v);
    hide ViewOk;
    EquivHolder(v, Fresh(11), 6, 5, 4, 7, 8, 10);
    SamePairs(6, 7, 5, 8, 4, 10, PairsOfS());
  }

  lemma SamePairs(s: TypeId, a: TypeId, p: TypeId, q: TypeId, c: TypeId, d: TypeId, h: seq<nat>)
    requires s < 11 && p < 11 && c < 11 && h == Fresh(11).h[s := a][p := q][c := d]
    ensures Noted(Noted(Noted(Fresh(11), s, a), p, q), c, d) == Trav(h, [s, p, c], false)
  {
  }

  lemma TriedT(embed: seq<nat>)
    requires ViewOk(View(Ambiguous(), embed, BeforeT()))
    ensures |Ambiguous()| == 11 && Tried(View(Ambiguous(), embed, BeforeT()), 1, 9, 3) == Tryout(1, AfterT())
  {
    var v := View(Ambiguous(), embed, BeforeT());
    PairFactsOfT();
    FactsOfT();
    TypesAt();
    MergeT();
    hide Ambiguous;
    hide BeforeT;
    hide AfterT;
    hide PairsOfT;
    hide MergedAll;
    hide Equiv;
    hide Root;
    RootStep(BeforeT(), 1);
    RootStep(BeforeT(), 2);
    RootStep(BeforeT(), 3);
    RootStep(BeforeT(), 4);
    RootStep(BeforeT(), 5);
    RootStep(BeforeT(), 9);
    RootStep(BeforeT(), 10);
    FreshOk(v);
    hide ViewOk;
    EquivHolder(v, Fresh(11), 3, 2, 1, 9, 5, 4);
    SamePairs(3, 9, 2, 5, 1, 4, PairsOfT());
  }

  // ------------------------------------------------------------------
  // The struct pass
  // ------------------------------------------------------------------

  /** The map before the pass comes to id k. */
  function MapAt(k: nat): seq<nat> {
    if k <= 1 then AtStart()
    else if k <= 3 then AtStart()[1 := 1]
    else if k <= 6 then AtStart()[1 := 1][3 := 3]
    else if k <= 7 then BeforeS()
    else if k <= 9 then BeforeT()
    else AfterT()
  }

  lemma MapsAt()
    ensures BeforeS() == AtStart()[1 := 1][3 := 3][6 := 6]
    ensures |AtStart()| == 11 && AtStart()[0] == 0 && AtStart()[4] == 4
    ensures forall i :: 1 <= i < 11 && i != 4 ==> AtStart()[i] == U
  {
  }

  /** A struct without a canonical one of its shape becomes canonical. */
  lemma StepNew(types: seq<BtfType>, embed: seq<nat>, m: seq<nat>, id: TypeId, m': seq<nat>)
    requires StructStep(types, embed, 1, m, id, m') && IsComposite(types[id]) && !IsMapped(m, id)
    requires forall i :: 0 <= i < |m| && m[i] == i ==> Shape(types[i]) != Shape(types[id])
    ensures m' == m[id := id]
  {
    var v := View(types, embed, m);
    var cs :| Offered(types, m, cs, id) && StructChosen(v, 1, cs, id, m');
    forall j | 0 <= j < |cs|
      ensures Shape(types[cs[j]]) != Shape(types[id])
    {
      if Shape(types[cs[j]]) == Shape(types[id]) {
        ShapeFacts(types[cs[j]], types[id]);
        assert false;
      }
    }
    ChosenNone(v, 1, cs, id);
  }

  /** A struct with exactly one canonical one of its shape, which the traversal accepts. */
  lemma StepTaken(types: seq<BtfType>, embed: seq<nat>, m: seq<nat>, id: TypeId, c: TypeId, m': seq<nat>)
    requires StructStep(types, embed, 1, m, id, m') && IsComposite(types[id]) && !IsMapped(m, id)
    requires c < |m| && m[c] == c && Shape(types[c]) == Shape(types[id])
    requires forall i :: 0 <= i < |m| && m[i] == i && Shape(types[i]) == Shape(types[id]) ==> i == c
    requires Tried(View(types, embed, m), 1, id, c).r == 1
    ensures m' == Tried(View(types, embed, m), 1, id, c).m[id := c]
  {
    var v := View(types, embed, m);
    var cs :| Offered(types, m, cs, id) && StructChosen(v, 1, cs, id, m');
    hide Tried;
    forall j | 0 <= j < |cs| && Shape(types[cs[j]]) == Shape(types[id])
      ensures cs[j] == c
    {
      ShapeFacts(types[cs[j]], types[id]);
    }
    ChosenOne(v, 1, cs, id, c);
  }

  lemma ShapesApart()
    ensures |Ambiguous()| == 11
    ensures forall i, j :: 0 <= i < 11 && 0 <= j < 11 && IsComposite(Ambiguous()[j]) && Shape(Ambiguous()[i]) == Shape(Ambiguous()[j])
              ==> i == j || (i in {3, 9} && j in {3, 9}) || (i in {6, 7} && j in {6, 7})
    ensures Shape(Ambiguous()[3]) == Shape(Ambiguous()[9]) && Shape(Ambiguous()[6]) == Shape(Ambiguous()[7])
    ensures forall i :: 0 <= i < 11 ==> (IsComposite(Ambiguous()[i]) <==> i in {1, 3, 6, 7, 9, 10})
  {
    TypesAt();
    hide Ambiguous;
    var ts := Ambiguous();
    forall i, j | 0 <= i < 11 && 0 <= j < 11 && IsComposite(ts[j]) && Shape(ts[i]) == Shape(ts[j])
      ensures i == j || (i in {3, 9} && j in {3, 9}) || (i in {6, 7} && j in {6, 7})
    {
      ShapeFacts(ts[i], ts[j]);
    }
  }

  /** Which ids are canonical before id k, and which are not processed. */
  lemma CanonicalAt(k: TypeId)
    requires 1 <= k < 11
    ensures |MapAt(k)| == 11 && (k in {1, 3, 6, 7, 9} ==> !IsMapped(MapAt(k), k)) && (k == 10 ==> IsMapped(MapAt(k), k))
    ensures forall i :: 0 <= i < 11 && MapAt(k)[i] == i ==> i in {0, 1, 3, 4, 6} && (k in {1, 3, 6, 7, 9} ==> i != k)
    ensures k == 7 ==> MapAt(k)[6] == 6
    ensures k == 9 ==> MapAt(k)[3] == 3
    ensures k in {1, 3, 6} ==> MapAt(k)[k := k] == MapAt(k + 1)
  {
    MapsAt();
    EntriesOfT();
    hide AtStart;
    hide BeforeS;
    hide BeforeT;
    hide AfterT;
  }

  lemma EntriesOfT()
    ensures |BeforeT()| == |AfterT()| == 11
    ensures forall i :: 0 <= i < 11 && BeforeT()[i] == i ==> i in {0, 1, 3, 6}
    ensures BeforeT()[3] == 3 && BeforeT()[8] == U && BeforeT()[9] == U && AfterT()[10] == 1
    ensures forall i :: 0 <= i < 11 && AfterT()[i] == i ==> i in {0, 1, 3, 6}
  {
  }

  lemma StepNewAt(embed: seq<nat>, k: TypeId, m': seq<nat>)
    requires k in {1, 3, 6} && StructStep(Ambiguous(), embed, 1, MapAt(k), k, m')
    ensures m' == MapAt(k + 1)
  {
    CanonicalAt(k);
    ShapesApart();
    hide Ambiguous;
    hide MapAt;
    hide Tried;
    hide StructStep;
    StepNew(Ambiguous(), embed, MapAt(k), k, m');
  }

  lemma StepS(embed: seq<nat>, m': seq<nat>)
    requires StructStep(Ambiguous(), embed, 1, BeforeS(), 7, m')
    ensures m' == BeforeT()
  {
    CanonicalAt(7);
    ShapesApart();
    TriedS(embed);
    FactsOfS();
    hide Ambiguous;
    hide BeforeS;
    hide BeforeT;
    hide Tried;
    hide StructStep;
    StepTaken(Ambiguous(), embed, BeforeS(), 7, 6, m');
  }

  lemma StepT(embed: seq<nat>, m': seq<nat>)
    requires StructStep(Ambiguous(), embed, 1, BeforeT(), 9, m')
    ensures m' == AfterT()
  {
    CanonicalAt(9);
    ShapesApart();
    TriedT(embed);
    FactsOfT();
    hide Ambiguous;
    hide BeforeT;
    hide AfterT;
    hide Tried;
    hide StructStep;
    StepTaken(Ambiguous(), embed, BeforeT(), 9, 3, m');
  }

  lemma StepAt(embed: seq<nat>, k: TypeId, m': seq<nat>)
    requires 1 <= k < 11 && StructStep(Ambiguous(), embed, 1, MapAt(k), k, m')
    ensures m' == MapAt(k + 1)
  {
    CanonicalAt(k);
    ShapesApart();
    hide Ambiguous;
    hide AtStart;
    hide BeforeS;
    hide BeforeT;
    hide AfterT;
    hide Offered;
    hide StructChosen;
    if k in {1, 3, 6} {
      StepNewAt(embed, k, m');
    } else if k == 7 {
      StepS(embed, m');
    } else if k == 9 {
      StepT(embed, m');
    }
  }

  /** Whatever the order of candidates, the struct pass goes through these maps. */
  lemma {:induction false} RunAt(embed: seq<nat>, k: TypeId, m': seq<nat>)
    requires 1 <= k <= 11 && StructRun(Ambiguous(), embed, 1, AtStart(), k, m')
    ensures m' == MapAt(k)
    decreases k
  {
    hide StructStep;
    hide Ambiguous;
    if k > 1 {
      var j := k - 1;
      var m1 :| StructRun(Ambiguous(), embed, 1, AtStart(), j, m1) && StructStep(Ambiguous(), embed, 1, m1, j, m');
      RunAt(embed, j, m1);
      StepAt(embed, j, m');
    }
  }

  /** The primitive pass leaves the declaration, and nothing else, settled. */
  lemma StartsSo(m: seq<nat>)
    requires D.SettledBefore(Ambiguous(), 1, m)
    ensures m == AtStart()
  {
    ClassOfA();
    TypesAt();
    MapsAt();
    hide Ambiguous;
    hide AtStart;
    OnlyItself(m);
    hide LinksOk;
    assert m == AtStart();
  }

  lemma ClassOfA()
    ensures |Ambiguous()| == 11 && forall j :: 0 <= j < 11 && SameClass(Ambiguous()[4], Ambiguous()[j]) ==> j in {1, 4, 10}
  {
    TypesAt();
    hide Ambiguous;
  }

  lemma LinkFacts(types: seq<BtfType>, m: seq<nat>, i: TypeId)
    requires D.SettledBefore(types, 1, m) && i < |m|
    ensures Linked(m, i) ==> m[i] < |m| && IsMapped(m, m[i]) && SameClass(types[i], types[m[i]])
  {
    assert Linked(m, i) ==> MergeOk(types, i, m[i]);
  }

  /** The definitions are not processed yet, so the declaration leads to neither. */
  lemma OnlyItself(m: seq<nat>)
    requires D.SettledBefore(Ambiguous(), 1, m)
    ensures |m| == 11 && m[4] == 4
  {
    ClassOfA();
    TypesAt();
    hide Ambiguous;
    hide GraphOk;
    hide AgreeIfClear;
    LinkFacts(Ambiguous(), m, 4);
    hide LinksOk;
  }

  // ------------------------------------------------------------------
  // What comes out
  // ------------------------------------------------------------------

  /** After any successful run of all passes, the A of 4 bytes is represented by the A of 8
      bytes, and so it is in the new section. */
  lemma MeaningLost(types: seq<BtfType>, embed: seq<nat>, m: seq<nat>)
    requires Canonicalized(Ambiguous(), types, m, 1) && D.PassedThrough(Ambiguous(), embed, 1, m)
    ensures Root(m, 10) == 1
    ensures GraphOk(Deduped(types, m, 1)) && FinalId(m, 1, 10) < |Deduped(types, m, 1)|
    ensures Observe(Deduped(types, m, 1), FinalId(m, 1, 10), []) != Observe(Ambiguous(), 10, [])
  {
    EntriesLost(embed, m);
    TypesAt();
    hide Ambiguous;
    hide D.PassedThrough;
    hide MergeOk;
    hide Tracks;
    hide NoDuplicates;
    RootStep(m, 10);
    RootStep(m, 1);
    AmbiguousClosed();
    DedupedGraphOk(Ambiguous(), types, m, 1);
    DedupedShape(Ambiguous(), types, m, 1, 1);
    hide Canonicalized;
    hide Deduped;
    assert Shape(Ambiguous()[10]).size != Shape(Ambiguous()[1]).size;
  }

  lemma AmbiguousClosed()
    ensures BaseClosed(Ambiguous(), 1)
  {
  }

  lemma EntriesLost(embed: seq<nat>, m: seq<nat>)
    requires D.PassedThrough(Ambiguous(), embed, 1, m)
    ensures |m| == 11 && m[1] == 1 && m[10] == 1
  {
    var m1 :| D.SettledBefore(Ambiguous(), 1, m1) && D.StructsFrom(Ambiguous(), embed, 1, m1, m);
    StartsSo(m1);
    TypesAt();
    hide Ambiguous;
    hide StructRun;
    hide D.SettledBefore;
    var m2 :| StructRun(Ambiguous(), embed, 1, m1, 11, m2) && D.SameStructEntries(Ambiguous(), m2, m);
    RunAt(embed, 11, m2);
    AfterTEntries();
  }

  lemma AfterTEntries()
    ensures |AfterT()| == 11 && AfterT()[1] == 1 && AfterT()[10] == 1
  {
  }

  /** The two structs A differ, and what sees either of them sees an ambiguous name. */
  lemma TwoMeanings()
    ensures GraphOk(Ambiguous()) && |Ambiguous()| == 11
    ensures Observe(Ambiguous(), 10, []) != Observe(Ambiguous(), 1, [])
    ensures !Clear(Ambiguous(), 10) && !Clear(Ambiguous(), 1)
  {
    AmbiguousGraph();
    TypesAt();
    hide Ambiguous;
    hide GraphOk;
    var ts := Ambiguous();
    assert Shape(ts[10]).size != Shape(ts[1]).size;
    assert ObserveDefined(ts, 10, []) != ObserveDefined(ts, 1, []);
    var o := ObserveDefined(ts, 4, []);
    hide Clear;
    if Clear(ts, 10) || Clear(ts, 1) {
      var k := if Clear(ts, 10) then 10 else 1;
      ClearStep(ts, k);
      DeclAgreesWith(ts, k, 4, 10);
      DeclAgreesWith(ts, k, 4, 1);
      assert false;
    }
  }

  /** Deduplicating these types gives a wrong answer, unless memory runs out. */
  method DedupAmbiguous(data: array<nat>, offs: array<nat>) returns (err: int, d: D.Dedup)
    requires |Ambiguous()| == 11 && data != offs && S.Written(data[..], offs[..], Ambiguous()[1..])
    modifies data
    ensures err == 0 || err == -H.ENOMEM
    ensures err == 0 ==> Canonicalized(Ambiguous(), d.types, d.cmap, 1) && Root(d.cmap, 10) == 1
  {
    AmbiguousGraph();
    RanksOk();
    SignatureWorks();
    var table := new H.Table((k: int) => if k >= 0 then k else -k, (k: int) => k);
    d := new D.Dedup(Ambiguous(), 1, table, Signature, data, offs, seq(11, _ => 0), Ranks());
    hide Ambiguous;
    hide GraphOk;
    hide S.Written;
    err := d.Canonicalize();
    if err == 0 {
      MeaningLost(d.types, d.embed, d.cmap);
    }
  }

  ghost function Ranks(): seq<nat> { seq(11, _ => 0) }

  lemma RanksOk()
    ensures GraphOk(Ambiguous()) && |Ambiguous()| == 11 && AllCompared(Ambiguous())
    ensures EmbedRanked(Ambiguous(), seq(11, _ => 0)) && RefRankedFor(Ambiguous(), 1, Ranks())
  {
    AmbiguousGraph();
    TypesAt();
    hide Ambiguous;
    var ts := Ambiguous();
    forall i | 1 <= i < 11
      ensures IsComparedKind(ts[i].info.kind)
      ensures IsComposite(ts[i]) ==> forall j :: 0 <= j < |ts[i].refs| ==> !IsComposite(ts[ts[i].refs[j]])
      ensures IsRefKind(ts[i].info.kind) ==> forall j :: 0 <= j < |ts[i].refs| ==> !IsRefKind(ts[ts[i].refs[j]].info.kind)
    {
    }
  }
}
