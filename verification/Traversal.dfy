/** What the side-by-side traversal of two type graphs answers and records, and what the
    struct pass makes of it, as functions of the state they start from. */
module Traversal {
  import opened BtfTypes
  import opened CanonicalMap
  import opened Equivalence
  import opened CanonicalIndex

  /** The hypothetical map, the list of recorded ids, and whether base declarations are to
      be adjusted. */
  datatype Trav = Trav(h: seq<nat>, list: seq<TypeId>, adjust: bool)

  datatype Verdict = Verdict(r: int, t: Trav)

  ghost predicate TravOk(v: View, t: Trav) {
    && HypotOk(t.h) && |t.h| == |v.types|
    && forall i :: 0 <= i < |t.list| ==> t.list[i] < |t.h| && Recorded(t.h, t.list[i])
  }

  ghost predicate Grown(v: View, t: Trav, t': Trav) {
    TravOk(v, t') && Extends(t.h, t'.h)
  }

  lemma GrownShrinks(v: View, t: Trav, t': Trav)
    requires Grown(v, t, t')
    ensures Unrecorded(t'.h) <= Unrecorded(t.h)
  {
    ExtendsShrinks(t.h, t'.h);
  }

  lemma GrownTransitive(v: View, t: Trav, t1: Trav, t2: Trav)
    requires Grown(v, t, t1) && Grown(v, t1, t2)
    ensures Grown(v, t, t2)
  {
  }

  /** One more pair. */
  function Noted(t: Trav, c: TypeId, a: TypeId): Trav
    requires c < |t.h|
  {
    t.(h := t.h[c := a], list := t.list + [c])
  }

  lemma NotedGrows(v: View, t: Trav, c: TypeId, a: TypeId)
    requires TravOk(v, t) && c < |v.types| && a < |v.types| && !Recorded(t.h, c)
    ensures Grown(v, t, Noted(t, c, a)) && Unrecorded(Noted(t, c, a).h) < Unrecorded(t.h)
  {
    var t' := Noted(t, c, a);
    assert c in Unrecorded(t.h) && c !in Unrecorded(t'.h);
    forall i | 0 <= i < |t'.list|
      ensures t'.list[i] < |t'.h| && Recorded(t'.h, t'.list[i])
    {
      assert i < |t.list| ==> Recorded(t.h, t.list[i]);
    }
  }

  /** Types of one kind that may be equivalent, as far as their own records tell. */
  predicate SameForm(t: BtfType, u: BtfType) {
    if IsAnyEnum(t) then EnumCompatible(t, u) else Shape(t) == Shape(u)
  }

  /** The order in which references are compared: an array's index type comes first. */
  function Nth(t: BtfType, k: nat): nat {
    if t.info.kind == Array then (if k == 0 then 1 else 0) else k
  }

  /** Compare a candidate with a canonical-side type. */
  ghost function Equiv(v: View, start: TypeId, t: Trav, cand: TypeId, canon: TypeId): (w: Verdict)
    requires ViewOk(v) && TravOk(v, t) && cand < |v.types| && canon < |v.types|
    ensures Grown(v, t, w.t) && (w.r == 1 || w.r == 0 || w.r == -EINVAL)
    decreases Unrecorded(t.h), 0, 0
  {
    if Root(v.canon, cand) == Root(v.canon, canon) then Verdict(1, t)
    else
      var c := ResolvedFwd(v.types, v.canon, canon);
      if Recorded(t.h, c) then
        Verdict(if t.h[c] == cand || IdenticalArrays(v.types, t.h[c], cand) || IdenticalStructs(v.types, v.embed, t.h[c], cand)
                then 1 else 0, t)
      else
        NotedGrows(v, t, c, cand);
        var w := Pair(v, start, Noted(t, c, cand), cand, c);
        GrownTransitive(v, t, Noted(t, c, cand), w.t);
        w
  }

  /** Compare the two types of a fresh pair. */
  ghost function Pair(v: View, start: TypeId, t: Trav, cand: TypeId, c: TypeId): (w: Verdict)
    requires ViewOk(v) && TravOk(v, t) && cand < |v.types| && c < |v.types|
    ensures Grown(v, t, w.t) && (w.r == 1 || w.r == 0 || w.r == -EINVAL)
    decreases Unrecorded(t.h), 2, 0
  {
    var x, y := v.types[cand], v.types[c];
    if x.name != y.name then Verdict(0, t)
    else if x.info.kind != y.info.kind then
      Verdict(if FwdMatch(x, y) then 1 else 0, if FwdMatch(x, y) && y.info.kind == Fwd && c < start then t.(adjust := true) else t)
    else if !IsComparedKind(x.info.kind) then Verdict(-EINVAL, t)
    else if !SameForm(x, y) then Verdict(0, t)
    else if IsPrimKind(x.info.kind) then Verdict(1, t)
    else
      ShapeFacts(x, y);
      Refs(v, start, t, cand, c, 0)
  }

  lemma RefsStep(v: View, start: TypeId, t: Trav, cand: TypeId, c: TypeId, k: nat)
    requires ViewOk(v) && TravOk(v, t) && cand < |v.types| && c < |v.types|
    requires v.types[cand].info == v.types[c].info && v.types[cand].info.kind != Array && k <= |v.types[cand].refs|
    ensures if k == |v.types[cand].refs| then Refs(v, start, t, cand, c, k) == Verdict(1, t) else
            var w := Equiv(v, start, t, v.types[cand].refs[k], v.types[c].refs[k]);
            Refs(v, start, t, cand, c, k) == if w.r != 1 then w else Refs(v, start, w.t, cand, c, k + 1)
  {
    hide Equiv;
  }

  /** The two references of an array. */
  lemma ArrayRefs(v: View, start: TypeId, t: Trav, cand: TypeId, c: TypeId)
    requires ViewOk(v) && TravOk(v, t) && cand < |v.types| && c < |v.types|
    requires v.types[cand].info == v.types[c].info && v.types[cand].info.kind == Array
    requires |v.types[cand].refs| == |v.types[c].refs| == 2
    ensures var x, y := v.types[cand], v.types[c];
            var w := Equiv(v, start, t, x.refs[1], y.refs[1]);
            Refs(v, start, t, cand, c, 0) == if w.r != 1 then w else Equiv(v, start, w.t, x.refs[0], y.refs[0])
  {
    hide Equiv;
    var x, y := v.types[cand], v.types[c];
    var w := Equiv(v, start, t, x.refs[1], y.refs[1]);
    if w.r == 1 {
      var w' := Equiv(v, start, w.t, x.refs[0], y.refs[0]);
      assert Refs(v, start, w.t, cand, c, 1) == if w'.r != 1 then w' else Refs(v, start, w'.t, cand, c, 2);
    }
  }

  /** Compare the references of two types of one shape, from the k-th on. */
  ghost function Refs(v: View, start: TypeId, t: Trav, cand: TypeId, c: TypeId, k: nat): (w: Verdict)
    requires ViewOk(v) && TravOk(v, t) && cand < |v.types| && c < |v.types|
    requires v.types[cand].info == v.types[c].info && k <= |v.types[cand].refs|
    ensures Grown(v, t, w.t) && (w.r == 1 || w.r == 0 || w.r == -EINVAL)
    decreases Unrecorded(t.h), 1, |v.types[cand].refs| - k
  {
    var x, y := v.types[cand], v.types[c];
    if k == |x.refs| then Verdict(1, t)
    else
      var j := Nth(x, k);
      var w := Equiv(v, start, t, x.refs[j], y.refs[j]);
      if w.r != 1 then w
      else
        GrownShrinks(v, t, w.t);
        var w' := Refs(v, start, w.t, cand, c, k + 1);
        GrownTransitive(v, t, w.t, w'.t);
        w'
  }

  /** Every type but void is of a kind that the traversal can compare. */
  ghost predicate AllCompared(types: seq<BtfType>) {
    forall i :: 1 <= i < |types| ==> IsComparedKind(types[i].info.kind)
  }

  /** It gives up only on a type of another kind. */
  lemma {:induction false} EquivInvalid(v: View, start: TypeId, t: Trav, cand: TypeId, canon: TypeId)
    requires ViewOk(v) && TravOk(v, t) && cand < |v.types| && canon < |v.types|
    ensures Equiv(v, start, t, cand, canon).r == -EINVAL ==> !AllCompared(v.types)
    decreases Unrecorded(t.h), 0, 0
  {
    var c := ResolvedFwd(v.types, v.canon, canon);
    if Root(v.canon, cand) != Root(v.canon, canon) && !Recorded(t.h, c) {
      NotedGrows(v, t, c, cand);
      ResolvedApart(v, cand, canon);
      PairInvalid(v, start, Noted(t, c, cand), cand, c);
    }
  }

  lemma ResolvedApart(v: View, cand: TypeId, canon: TypeId)
    requires ViewOk(v) && cand < |v.types| && canon < |v.types| && Root(v.canon, cand) != Root(v.canon, canon)
    ensures cand != ResolvedFwd(v.types, v.canon, canon)
  {
    RootStep(v.canon, Root(v.canon, canon));
  }

  lemma {:induction false} PairInvalid(v: View, start: TypeId, t: Trav, cand: TypeId, c: TypeId)
    requires ViewOk(v) && TravOk(v, t) && cand < |v.types| && c < |v.types| && cand != c
    ensures Pair(v, start, t, cand, c).r == -EINVAL ==> !AllCompared(v.types)
    decreases Unrecorded(t.h), 2, 0
  {
    hide Refs;
    var x, y := v.types[cand], v.types[c];
    if Shape(x) == Shape(y) {
      ShapeFacts(x, y);
      RefsInvalid(v, start, t, cand, c, 0);
    }
    assert IsComparedKind(x.info.kind) || 1 <= cand || 1 <= c;
  }

  lemma {:induction false} RefsInvalid(v: View, start: TypeId, t: Trav, cand: TypeId, c: TypeId, k: nat)
    requires ViewOk(v) && TravOk(v, t) && cand < |v.types| && c < |v.types|
    requires v.types[cand].info == v.types[c].info && k <= |v.types[cand].refs|
    ensures Refs(v, start, t, cand, c, k).r == -EINVAL ==> !AllCompared(v.types)
    decreases Unrecorded(t.h), 1, |v.types[cand].refs| - k
  {
    hide Equiv;
    var x, y := v.types[cand], v.types[c];
    if k < |x.refs| {
      var j := Nth(x, k);
      EquivInvalid(v, start, t, x.refs[j], y.refs[j]);
      var w := Equiv(v, start, t, x.refs[j], y.refs[j]);
      if w.r == 1 {
        GrownShrinks(v, t, w.t);
        RefsInvalid(v, start, w.t, cand, c, k + 1);
      }
    }
  }

  // ------------------------------------------------------------------
  // The struct pass
  // ------------------------------------------------------------------

  ghost function Fresh(n: nat): (t: Trav)
    ensures |t.h| == n && forall c :: 0 <= c < n ==> t.h[c] == UNPROCESSED_ID
  {
    Trav(seq(n, _ => UNPROCESSED_ID), [], false)
  }

  datatype Tryout = Tryout(r: int, m: seq<nat>)

  /** One candidate is tried for struct `id`. */
  ghost function Tried(v: View, start: TypeId, id: TypeId, cand: TypeId): (o: Tryout)
    requires ViewOk(v) && id < |v.types| && cand < |v.types|
    ensures Forest(o.m) && |o.m| == |v.types|
  {
    if Shape(v.types[id]) != Shape(v.types[cand]) then Tryout(0, v.canon)
    else
      var w := Equiv(v, start, Fresh(|v.types|), id, cand);
      if w.r != 1 then Tryout(w.r, v.canon)
      else Tryout(if w.t.adjust then 0 else 1, MergedAll(v.types, v.canon, w.t.h, w.t.list, |w.t.list|, w.t.adjust))
  }

  datatype Choice = Choice(err: int, newId: TypeId, m: seq<nat>)

  /** Candidates are tried until one represents struct `id`. */
  ghost function Chosen(v: View, start: TypeId, cs: seq<TypeId>, id: TypeId): (c: Choice)
    requires ViewOk(v) && id < |v.types| && forall j :: 0 <= j < |cs| ==> cs[j] < |v.types|
    ensures |c.m| == |v.types| && c.newId < |v.types|
    decreases |cs|
  {
    if cs == [] then Choice(0, id, v.canon)
    else
      var o := Tried(v, start, id, cs[0]);
      if o.r < 0 then Choice(o.r, id, o.m)
      else if o.r == 1 then Choice(0, cs[0], o.m)
      else Chosen(v.(canon := o.m), start, cs[1..], id)
  }

  lemma ChosenStep(v: View, start: TypeId, cs: seq<TypeId>, k: nat, id: TypeId)
    requires ViewOk(v) && id < |v.types| && (forall j :: 0 <= j < |cs| ==> cs[j] < |v.types|) && k < |cs|
    ensures var o := Tried(v, start, id, cs[k]);
            ViewOk(v.(canon := o.m)) &&
            Chosen(v, start, cs[k..], id) ==
              if o.r < 0 then Choice(o.r, id, o.m)
              else if o.r == 1 then Choice(0, cs[k], o.m)
              else Chosen(v.(canon := o.m), start, cs[k + 1..], id)
  {
    hide Tried;
    assert cs[k..][1..] == cs[k + 1..] && cs[k..][0] == cs[k];
  }

  lemma ChosenEnd(v: View, start: TypeId, cs: seq<TypeId>, id: TypeId)
    requires ViewOk(v) && id < |v.types|
    ensures Chosen(v, start, cs[|cs|..], id) == Choice(0, id, v.canon)
  {
    assert cs[|cs|..] == [];
  }

  /** Candidates of another shape are passed over. */
  lemma {:induction false} ChosenNone(v: View, start: TypeId, cs: seq<TypeId>, id: TypeId)
    requires ViewOk(v) && id < |v.types| && forall j :: 0 <= j < |cs| ==> cs[j] < |v.types|
    requires forall j :: 0 <= j < |cs| ==> Shape(v.types[cs[j]]) != Shape(v.types[id])
    ensures Chosen(v, start, cs, id) == Choice(0, id, v.canon)
    decreases |cs|
  {
    hide Equiv;
    hide MergedAll;
    if cs != [] {
      ChosenNone(v, start, cs[1..], id);
    }
  }

  /** If only one candidate has the right shape, it decides. */
  lemma {:induction false} ChosenOne(v: View, start: TypeId, cs: seq<TypeId>, id: TypeId, c: TypeId)
    requires ViewOk(v) && id < |v.types| && forall j :: 0 <= j < |cs| ==> cs[j] < |v.types|
    requires c in cs && forall j :: 0 <= j < |cs| && Shape(v.types[cs[j]]) == Shape(v.types[id]) ==> cs[j] == c
    requires Tried(v, start, id, c).r == 1
    ensures Chosen(v, start, cs, id) == Choice(0, c, Tried(v, start, id, c).m)
    decreases |cs|
  {
    if cs[0] != c {
      assert Tried(v, start, id, cs[0]) == Tryout(0, v.canon);
      hide Tried;
      ChosenOne(v, start, cs[1..], id, c);
    }
  }

  /** Canonical structs, with all that have the shape of `id`, in some order. */
  ghost predicate Offered(types: seq<BtfType>, m: seq<nat>, cs: seq<TypeId>, id: TypeId)
    requires |m| == |types| && id < |types|
  {
    && (forall j :: 0 <= j < |cs| ==> cs[j] < |m| && (IsComposite(types[cs[j]]) ==> m[cs[j]] == cs[j]))
    && (forall i :: 0 <= i < |m| && m[i] == i && Shape(types[i]) == Shape(types[id]) ==> i in cs)
  }

  /** What the pass does at one id. */
  ghost predicate StructStep(types: seq<BtfType>, embed: seq<nat>, start: TypeId, m: seq<nat>, id: TypeId, m': seq<nat>) {
    && ViewOk(View(types, embed, m)) && id < |types|
    && if IsMapped(m, id) || !IsComposite(types[id]) then m' == m
       else exists cs :: Offered(types, m, cs, id) && StructChosen(View(types, embed, m), start, cs, id, m')
  }

  ghost predicate StructChosen(v: View, start: TypeId, cs: seq<TypeId>, id: TypeId, m': seq<nat>)
    requires ViewOk(v) && id < |v.types| && forall j :: 0 <= j < |cs| ==> cs[j] < |v.types|
  {
    var c := Chosen(v, start, cs, id);
    c.err == 0 && m' == c.m[id := c.newId]
  }

  lemma ChosenSteps(types: seq<BtfType>, embed: seq<nat>, start: TypeId, m: seq<nat>, id: TypeId, cs: seq<TypeId>, m': seq<nat>)
    requires ViewOk(View(types, embed, m)) && id < |types| && Offered(types, m, cs, id)
    requires !IsMapped(m, id) && IsComposite(types[id]) && StructChosen(View(types, embed, m), start, cs, id, m')
    ensures StructStep(types, embed, start, m, id, m')
  {
  }

  /** The filed types of one signature are what the pass has to try. */
  lemma CandidatesOffered(types: seq<BtfType>, m: seq<nat>, filed: set<TypeId>, sig: BtfType -> nat, cs: seq<TypeId>, id: TypeId)
    requires |m| == |types| && id < |types| && IsComposite(types[id]) && SignatureOk(sig)
    requires FiledOk(types, m, filed) && FiledComplete(types, m, filed)
    requires forall j :: 0 <= j < |cs| ==> cs[j] in filed
    requires forall i :: i in filed && sig(types[i]) == sig(types[id]) ==> exists j :: 0 <= j < |cs| && cs[j] == i
    ensures Offered(types, m, cs, id)
  {
    forall i | 0 <= i < |m| && m[i] == i && Shape(types[i]) == Shape(types[id])
      ensures i in cs
    {
      ShapeFacts(types[id], types[i]);
      assert SameStructs(types[id], types[i]);
    }
  }

  /** The pass over all ids from start up to n takes map m to map m'. */
  ghost predicate StructRun(types: seq<BtfType>, embed: seq<nat>, start: TypeId, m: seq<nat>, n: TypeId, m': seq<nat>)
    decreases n
  {
    if n <= start then m' == m
    else var k := n - 1; exists m1 :: StructRun(types, embed, start, m, k, m1) && StructStep(types, embed, start, m1, k, m')
  }

  lemma StructRunStarts(types: seq<BtfType>, embed: seq<nat>, start: TypeId, m: seq<nat>)
    ensures StructRun(types, embed, start, m, start, m)
  {
  }

  lemma StructRunNext(types: seq<BtfType>, embed: seq<nat>, start: TypeId, m: seq<nat>, n: TypeId, m1: seq<nat>, m': seq<nat>)
    requires start <= n && StructRun(types, embed, start, m, n, m1) && StructStep(types, embed, start, m1, n, m')
    ensures StructRun(types, embed, start, m, n + 1, m')
  {
    hide StructStep;
  }
}
