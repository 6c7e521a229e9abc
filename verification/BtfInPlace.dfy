/** Compaction and remapping as they are carried out: in place, on the words of the
    type section and on its offset index. */
module BtfInPlace {
  import opened BtfTypes
  import opened CanonicalMap
  import opened Equivalence
  import opened CanonicalIndex
  import opened Traversal
  import opened RefTypes
  import opened BtfEncoding
  import opened BtfSection
  import opened BtfCompaction
  import opened Dedup
  import H = HashMap

  /** Move words towards the front; the ranges may overlap. */
  method Memmove(data: array<nat>, dst: nat, src: nat, len: nat)
    requires dst <= src && src + len <= data.Length
    modifies data
    ensures Moved(old(data[..]), data[..], dst, src, len)
  {
    var k := 0;
    while k < len
      invariant 0 <= k <= len
      invariant forall q :: 0 <= q < data.Length ==>
                  data[q] == if dst <= q < dst + k then old(data[src + (q - dst)]) else old(data[q])
    {
      data[dst + k] := data[src + k];
      k := k + 1;
    }
  }

  // ------------------------------------------------------------------
  // Compaction
  // ------------------------------------------------------------------

  /** Between two steps of the compaction, with types below `i` visited: the kept ones
      are at the front, the others are untouched, and so for the offset index. */
  ghost predicate Compacting(ts: seq<BtfType>, kept: seq<BtfType>, i: nat, data: seq<nat>, offs: seq<nat>) {
    && Encodable(ts) && Encodable(kept) && i <= |ts| == |offs| && |kept| <= i && |data| == |Flat(ts)|
    && |Flat(kept)| <= |Flat(ts[..i])| <= |data|
    && data[..|Flat(kept)|] == Flat(kept)
    && data[|Flat(ts[..i])|..] == Flat(ts)[|Flat(ts[..i])|..]
    && (forall k :: 0 <= k < |kept| ==> offs[k] == |Flat(kept[..k])|)
    && (forall k :: i <= k < |offs| ==> offs[k] == |Flat(ts[..k])|)
  }

  lemma CompactingStart(ts: seq<BtfType>)
    requires Encodable(ts)
    ensures Compacting(ts, [], 0, Flat(ts), Offsets(ts)) && |Flat([])| == 0
  {
    assert ts[..0] == [];
  }

  /** The record to be looked at next has not been overwritten. */
  lemma NextRecord(ts: seq<BtfType>, kept: seq<BtfType>, i: nat, data: seq<nat>, offs: seq<nat>)
    requires Compacting(ts, kept, i, data, offs) && i < |ts|
    ensures offs[i] == |Flat(ts[..i])| && |Flat(ts[..i + 1])| == offs[i] + RecordWords(ts[i].info) <= |data|
    ensures Holds(data, offs[i], ts[i]) && InfoOf(data[offs[i] + 1]) == ts[i].info
  {
    hide Flat;
    hide Record;
    hide RecordWords;
    hide InfoOf;
    FlatAt(ts, i);
    FlatPrefix(ts, i + 1);
    var off, n := offs[i], RecordWords(ts[i].info);
    assert data[off..off + n] == data[off..][..n] == Flat(ts)[off..][..n] == Flat(ts)[off..off + n];
    InfoOfRecord(data, off, ts[i]);
  }

  lemma CompactingBounds(ts: seq<BtfType>, kept: seq<BtfType>, i: nat, data: seq<nat>, offs: seq<nat>)
    requires Compacting(ts, kept, i, data, offs) && i < |ts|
    ensures Encodable(ts) && Encodable(kept)
    ensures |Flat(kept)| <= |Flat(ts[..i])| && |kept| <= i < |offs|
  {
  }

  /** When all types have been visited, the front of the section is the result. */
  lemma CompactingEnd(ts: seq<BtfType>, kept: seq<BtfType>, data: seq<nat>, offs: seq<nat>)
    requires Compacting(ts, kept, |ts|, data, offs)
    ensures |Flat(kept)| <= |data| && data[..|Flat(kept)|] == Flat(kept)
    ensures Encodable(kept) && |kept| <= |offs| && offs[..|kept|] == Offsets(kept)
  {
  }

  lemma CompactingSkip(ts: seq<BtfType>, kept: seq<BtfType>, i: nat, data: seq<nat>, offs: seq<nat>)
    requires Compacting(ts, kept, i, data, offs) && i < |ts|
    ensures Compacting(ts, kept, i + 1, data, offs)
  {
    hide Flat;
    hide Record;
    hide RecordWords;
    hide InfoOf;
    FlatAt(ts, i);
    FlatPrefix(ts, i + 1);
    var a, b := |Flat(ts[..i])|, |Flat(ts[..i + 1])|;
    assert data[b..] == data[a..][b - a..];
    assert Flat(ts)[b..] == Flat(ts)[a..][b - a..];
  }

  /** data' is data after moving n words from `off` down to p. */
  ghost predicate Moved(data: seq<nat>, data': seq<nat>, p: nat, off: nat, n: nat) {
    && p <= off && off + n <= |data| == |data'|
    && (forall q {:trigger data'[q]} :: 0 <= q < |data| && !(p <= q < p + n) ==> data'[q] == data[q])
    && (forall q {:trigger data'[q]} :: p <= q < p + n ==> data'[q] == data[off + (q - p)])
  }

  lemma MovedWords(data: seq<nat>, data': seq<nat>, p: nat, off: nat, n: nat)
    requires Moved(data, data', p, off, n)
    ensures data'[..p + n] == data[..p] + data[off..off + n]
    ensures data'[off + n..] == data[off + n..]
  {
    var a, b := data'[..p + n], data[..p] + data[off..off + n];
    forall q | 0 <= q < |a|
      ensures a[q] == b[q]
    {
      assert a[q] == data'[q];
    }
    assert a == b;
    var c, d := data'[off + n..], data[off + n..];
    forall q | 0 <= q < |c|
      ensures c[q] == d[q]
    {
      assert c[q] == data'[off + n + q];
    }
    assert c == d;
  }

  /** Moving the record of type i behind the kept ones. */
  lemma CompactingMove(ts: seq<BtfType>, kept: seq<BtfType>, i: nat, data: seq<nat>, offs: seq<nat>, data': seq<nat>, offs': seq<nat>)
    requires Compacting(ts, kept, i, data, offs) && i < |ts| && Holds(data, |Flat(ts[..i])|, ts[i])
    requires Moved(data, data', |Flat(kept)|, |Flat(ts[..i])|, RecordWords(ts[i].info))
    requires offs' == offs[|kept| := |Flat(kept)|]
    ensures Compacting(ts, kept + [ts[i]], i + 1, data', offs')
  {
    hide Flat;
    hide Record;
    hide RecordWords;
    hide InfoOf;
    var p, off, n := |Flat(kept)|, |Flat(ts[..i])|, RecordWords(ts[i].info);
    CompactingSkip(ts, kept, i, data, offs);
    FlatAt(ts, i);
    FlatSnoc(kept, ts[i]);
    MovedWords(data, data', p, off, n);
    forall k | 0 <= k < |kept| + 1
      ensures offs'[k] == |Flat((kept + [ts[i]])[..k])|
    {
      assert (kept + [ts[i]])[..k] == kept[..k];
      assert kept[..|kept|] == kept;
    }
  }

  /** The map from old to new ids once types below `id` have been visited. */
  ghost predicate Renumbering(m: seq<nat>, start: TypeId, id: TypeId, newIds: seq<nat>) {
    && |newIds| == |m| && id <= |m|
    && forall j :: 0 <= j < |m| ==>
         newIds[j] == if j < start || (j < id && m[j] == j) then NewId(m, start, j) else UNPROCESSED_ID
  }

  lemma RenumberingStart(m: seq<nat>, start: TypeId, newIds: seq<nat>)
    requires start <= |m| == |newIds|
    requires forall j :: 0 <= j < |m| ==> newIds[j] == if j < start then j else UNPROCESSED_ID
    ensures Renumbering(m, start, start, newIds)
  {
  }

  /** Visiting one more type. */
  lemma VisitOne(types: seq<BtfType>, m: seq<nat>, start: TypeId, id: TypeId, newIds: seq<nat>)
    requires start <= id < |m| == |types| && Renumbering(m, start, id, newIds)
    ensures m[id] == id ==>
      && KeptTypes(types, m, start, id + 1) == KeptTypes(types, m, start, id) + [types[id]]
      && Renumbering(m, start, id + 1, newIds[id := start + |KeptTypes(types, m, start, id)|])
    ensures m[id] != id ==>
      && KeptTypes(types, m, start, id + 1) == KeptTypes(types, m, start, id)
      && Renumbering(m, start, id + 1, newIds)
  {
    var a, b := Kept(m, start, id), Kept(m, start, id + 1);
    if m[id] == id {
      assert b == a + [id];
    }
  }

  method CompactTypes(ghost types: seq<BtfType>, data: array<nat>, offs: array<nat>, m: seq<nat>, start: TypeId)
    returns (err: int, newIds: seq<nat>, nr: nat, len: nat)
    requires start <= |types| == |m| && Encodable(types[start..]) && data != offs
    requires data[..] == Flat(types[start..]) && offs[..] == Offsets(types[start..])
    modifies data, offs
    ensures err == if exists i :: start <= i < |m| && m[i] == i && types[i].info.kind == Unknown then -EINVAL else 0
    ensures err == 0 ==> Renumbering(m, start, |m|, newIds)
    ensures err == 0 ==> Encodable(KeptTypes(types, m, start, |m|))
    ensures err == 0 ==> len <= data.Length && data[..len] == Flat(KeptTypes(types, m, start, |m|))
    ensures err == 0 ==> nr <= offs.Length && offs[..nr] == Offsets(KeptTypes(types, m, start, |m|))
  {
    hide Flat;
    hide Record;
    hide RecordWords;
    hide InfoOf;
    hide Compacting;
    hide Renumbering;
    hide KeptTypes;
    hide Kept;
    ghost var ts := types[start..];
    ghost var kept := [];
    newIds := seq(|m|, j => if j < start then j else UNPROCESSED_ID);
    RenumberingStart(m, start, newIds);
    var p, next, id := 0, start, start;
    CompactingStart(ts);
    while id < |m|
      invariant start <= id <= |m|
      invariant kept == KeptTypes(types, m, start, id) && next == start + |kept|
      invariant Compacting(ts, kept, id - start, data[..], offs[..]) && p == |Flat(kept)|
      invariant |newIds| == |m| && Renumbering(m, start, id, newIds)
      invariant forall i :: start <= i < id && m[i] == i ==> types[i].info.kind != Unknown
    {
      VisitOne(types, m, start, id, newIds);
      if m[id] == id {
        NextRecord(ts, kept, id - start, data[..], offs[..]);
        var t := offs[id - start];
        var info := InfoOf(data[t + 1]);
        assert info == types[id].info;
        if info.kind == Unknown {
          return -EINVAL, newIds, 0, 0;
        }
        var n := RecordWords(info);
        p := MoveOne(ts, kept, id - start, data, offs, p, next - start, t, n);
        newIds := newIds[id := next];
        kept := kept + [types[id]];
        next := next + 1;
      } else {
        CompactingSkip(ts, kept, id - start, data[..], offs[..]);
      }
      id := id + 1;
    }
    err, nr, len := 0, next - start, p;
    CompactingEnd(ts, kept, data[..], offs[..]);
    assert data[..][..len] == data[..len] && offs[..][..nr] == offs[..nr];
  }

  /** Move one record down and enter it into the index. */
  method MoveOne(ghost ts: seq<BtfType>, ghost kept: seq<BtfType>, ghost i: nat, data: array<nat>, offs: array<nat>,
                 p: nat, k: nat, t: nat, n: nat)
    returns (p': nat)
    requires data != offs
    requires Compacting(ts, kept, i, data[..], offs[..]) && i < |ts| && Holds(data[..], t, ts[i])
    requires p == |Flat(kept)| && k == |kept| && t == |Flat(ts[..i])| && n == RecordWords(ts[i].info)
    modifies data, offs
    ensures Compacting(ts, kept + [ts[i]], i + 1, data[..], offs[..]) && p' == |Flat(kept + [ts[i]])|
  {
    hide Flat;
    hide Record;
    hide RecordWords;
    hide InfoOf;
    hide Compacting;
    ghost var d0, o0 := data[..], offs[..];
    CompactingBounds(ts, kept, i, d0, o0);
    Memmove(data, p, t, n);
    offs[k] := p;
    CompactingMove(ts, kept, i, d0, o0, data[..], offs[..]);
    FlatSnoc(kept, ts[i]);
    p' := p + n;
  }

  // ------------------------------------------------------------------
  // Remapping
  // ------------------------------------------------------------------

  /** What remapping makes of a reference. */
  ghost function NewRef(m: seq<nat>, newIds: seq<nat>, r: TypeId): nat
    requires Forest(m) && |newIds| == |m|
  {
    if r < |m| then newIds[Root(m, r)] else 0
  }

  ghost predicate RefsInRange(ts: seq<BtfType>, n: nat) {
    forall k, j :: 0 <= k < |ts| && 0 <= j < |ts[k].refs| ==> ts[k].refs[j] < n
  }

  /** In `cur` the references of types below k and the first j of type k are remapped. */
  ghost predicate Remapping(ts: seq<BtfType>, cur: seq<BtfType>, m: seq<nat>, newIds: seq<nat>, k: nat, j: nat)
    requires Forest(m) && |newIds| == |m|
  {
    && |cur| == |ts|
    && forall i :: 0 <= i < |ts| ==> RemappedUpTo(ts[i], cur[i], m, newIds, if i < k then |ts[i].refs| else if i == k then j else 0)
  }

  ghost predicate RemappedUpTo(t: BtfType, u: BtfType, m: seq<nat>, newIds: seq<nat>, n: nat)
    requires Forest(m) && |newIds| == |m|
  {
    && Shape(u) == Shape(t) && |u.refs| == |t.refs|
    && forall j :: 0 <= j < |t.refs| ==>
         if j < n then u.refs[j] == NewRef(m, newIds, t.refs[j]) <= MAX_NR_TYPES else u.refs[j] == t.refs[j]
  }

  /** The section and its index hold exactly the types cur. */
  ghost predicate Laid(data: seq<nat>, offs: seq<nat>, cur: seq<BtfType>) {
    && Encodable(cur) && |Flat(cur)| <= |data| && data[..|Flat(cur)|] == Flat(cur)
    && |cur| <= |offs| && forall k :: 0 <= k < |cur| ==> offs[k] == |Flat(cur[..k])|
  }

  /** Where reference j of type k is stored. */
  lemma LaidRef(data: seq<nat>, offs: seq<nat>, cur: seq<BtfType>, k: nat, j: nat)
    requires Laid(data, offs, cur) && k < |cur| && j < |cur[k].refs|
    ensures var at := offs[k] + RefPos(cur[k].info, j);
            at < |Flat(cur)| <= |data| && data[at] == cur[k].refs[j]
  {
    hide Flat;
    hide Record;
    FlatAt(cur, k);
    RecordAtRef(cur[k], j);
    var off, p := offs[k], RefPos(cur[k].info, j);
    assert data[off + p] == data[..|Flat(cur)|][off + p] == Flat(cur)[off + p];
    assert Flat(cur)[off..off + RecordWords(cur[k].info)][p] == Flat(cur)[off + p];
  }

  lemma LaidInfo(data: seq<nat>, offs: seq<nat>, cur: seq<BtfType>, k: nat)
    requires Laid(data, offs, cur) && k < |cur|
    ensures offs[k] + 1 < |data| && InfoOf(data[offs[k] + 1]) == cur[k].info
  {
    hide Flat;
    hide Record;
    hide InfoOf;
    FlatAt(cur, k);
    InfoOfRecord(Flat(cur), offs[k], cur[k]);
    assert data[offs[k] + 1] == data[..|Flat(cur)|][offs[k] + 1];
  }

  lemma LaidPutRef(data: seq<nat>, offs: seq<nat>, cur: seq<BtfType>, k: nat, j: nat, r: TypeId)
    requires Laid(data, offs, cur) && k < |cur| && j < |cur[k].refs|
    requires offs[k] + RefPos(cur[k].info, j) < |data|
    ensures Laid(data[offs[k] + RefPos(cur[k].info, j) := r], offs, cur[k := cur[k].(refs := cur[k].refs[j := r])])
    ensures var cur' := cur[k := cur[k].(refs := cur[k].refs[j := r])]; Encodable(cur') && |Flat(cur')| == |Flat(cur)|
  {
    hide Flat;
    hide Record;
    hide RefPos;
    var at := offs[k] + RefPos(cur[k].info, j);
    var cur' := cur[k := cur[k].(refs := cur[k].refs[j := r])];
    FlatPutRef(cur, k, j, r);
    assert data[at := r][..|Flat(cur)|] == data[..|Flat(cur)|][at := r];
    forall i | 0 <= i < |cur|
      ensures |Flat(cur'[..i])| == |Flat(cur[..i])|
    {
      if i <= k {
        assert cur'[..i] == cur[..i];
      } else {
        assert cur'[..i] == cur[..i][k := cur'[k]];
        FlatPutRef(cur[..i], k, j, r);
      }
    }
  }

  lemma RemappingPut(ts: seq<BtfType>, cur: seq<BtfType>, m: seq<nat>, newIds: seq<nat>, k: nat, j: nat)
    requires Forest(m) && |newIds| == |m| && Remapping(ts, cur, m, newIds, k, j)
    requires k < |ts| && j < |ts[k].refs| && NewRef(m, newIds, ts[k].refs[j]) <= MAX_NR_TYPES
    ensures |cur| == |ts| && |cur[k].refs| == |ts[k].refs| && cur[k].refs[j] == ts[k].refs[j] && cur[k].info == ts[k].info
    ensures Remapping(ts, cur[k := cur[k].(refs := cur[k].refs[j := NewRef(m, newIds, ts[k].refs[j])])], m, newIds, k, j + 1)
  {
    assert RemappedUpTo(ts[k], cur[k], m, newIds, j);
    assert Shape(cur[k]).info == Shape(ts[k]).info;
  }

  /** Rewrite the type ids in one record. */
  method RemapRecord(data: array<nat>, offs: array<nat>, m: seq<nat>, newIds: seq<nat>,
                     ghost ts: seq<BtfType>, ghost cur0: seq<BtfType>, k: nat)
    returns (err: int, ghost cur: seq<BtfType>)
    requires data != offs && Forest(m) && |newIds| == |m| && RefsInRange(ts, |m|)
    requires k < |ts| && Encodable(cur0) && Laid(data[..], offs[..], cur0) && Remapping(ts, cur0, m, newIds, k, 0)
    modifies data
    ensures err == 0 || err == -EINVAL
    ensures err == 0 ==> Laid(data[..], offs[..], cur) && Remapping(ts, cur, m, newIds, k + 1, 0)
    ensures err == 0 ==> Encodable(cur) && |Flat(cur)| == |Flat(cur0)|
    ensures err != 0 ==> exists j :: 0 <= j < |ts[k].refs| && NewRef(m, newIds, ts[k].refs[j]) > MAX_NR_TYPES
  {
    hide Laid;
    hide Remapping;
    hide RefPos;
    hide InfoOf;
    hide Flat;
    hide Encodable;
    cur := cur0;
    LaidBounds(data[..], offs[..], cur, ts, m, newIds, k, 0);
    LaidInfo(data[..], offs[..], cur, k);
    var info := InfoOf(data[offs[k] + 1]);
    var j := 0;
    while j < RefCount(info)
      invariant 0 <= j <= RefCount(info) == |ts[k].refs| && info == ts[k].info
      invariant Laid(data[..], offs[..], cur) && Remapping(ts, cur, m, newIds, k, j)
      invariant Encodable(cur) && |Flat(cur)| == |Flat(cur0)|
    {
      LaidBounds(data[..], offs[..], cur, ts, m, newIds, k, j);
      LaidRef(data[..], offs[..], cur, k, j);
      var at := offs[k] + RefPos(info, j);
      var r := ResolveTypeId(m, data[at]);
      if newIds[r] > MAX_NR_TYPES {
        return -EINVAL, cur;
      }
      RemappingPut(ts, cur, m, newIds, k, j);
      LaidPutRef(data[..], offs[..], cur, k, j, newIds[r]);
      ghost var d := data[..];
      data[at] := newIds[r];
      assert data[..] == d[at := newIds[r]];
      cur := cur[k := cur[k].(refs := cur[k].refs[j := newIds[r]])];
      j := j + 1;
    }
    RemappingNext(ts, cur, m, newIds, k);
    err := 0;
  }

  lemma LaidBounds(data: seq<nat>, offs: seq<nat>, cur: seq<BtfType>, ts: seq<BtfType>, m: seq<nat>, newIds: seq<nat>, k: nat, j: nat)
    requires Forest(m) && |newIds| == |m| && Laid(data, offs, cur) && Remapping(ts, cur, m, newIds, k, j) && k < |ts|
    ensures Encodable(cur) && |cur| == |ts| && k < |offs|
    ensures cur[k].info == ts[k].info && |cur[k].refs| == |ts[k].refs| == RefCount(ts[k].info)
    ensures j < |ts[k].refs| ==> cur[k].refs[j] == ts[k].refs[j]
  {
    assert RemappedUpTo(ts[k], cur[k], m, newIds, j);
    assert Shape(cur[k]).info == Shape(ts[k]).info;
  }

  lemma RemappingNext(ts: seq<BtfType>, cur: seq<BtfType>, m: seq<nat>, newIds: seq<nat>, k: nat)
    requires Forest(m) && |newIds| == |m| && k < |ts| && Remapping(ts, cur, m, newIds, k, |ts[k].refs|)
    ensures Remapping(ts, cur, m, newIds, k + 1, 0)
  {
  }

  /** Rewrite all type ids; fails only on a reference to a type that was not kept. */
  method RemapTypes(data: array<nat>, offs: array<nat>, nr: nat, m: seq<nat>, newIds: seq<nat>, ghost ts: seq<BtfType>)
    returns (err: int, ghost cur: seq<BtfType>)
    requires data != offs && Forest(m) && |newIds| == |m| && RefsInRange(ts, |m|)
    requires nr == |ts| && Encodable(ts) && Laid(data[..], offs[..], ts)
    modifies data
    ensures err == 0 || err == -EINVAL
    ensures err == 0 ==> Laid(data[..], offs[..], cur) && Remapping(ts, cur, m, newIds, |ts|, 0)
    ensures err == 0 ==> Encodable(cur) && |Flat(cur)| == |Flat(ts)|
    ensures err != 0 ==> exists k, j :: 0 <= k < |ts| && 0 <= j < |ts[k].refs| && NewRef(m, newIds, ts[k].refs[j]) > MAX_NR_TYPES
  {
    hide Laid;
    hide Flat;
    cur := ts;
    var k := 0;
    while k < nr
      invariant 0 <= k <= nr
      invariant Laid(data[..], offs[..], cur) && Remapping(ts, cur, m, newIds, k, 0)
      invariant Encodable(cur) && |Flat(cur)| == |Flat(ts)|
    {
      err, cur := RemapRecord(data, offs, m, newIds, ts, cur, k);
      if err != 0 {
        return;
      }
      k := k + 1;
    }
    err := 0;
  }

  // ------------------------------------------------------------------
  // Both together
  // ------------------------------------------------------------------

  lemma NewRefIsFinal(orig: seq<BtfType>, types: seq<BtfType>, m: seq<nat>, start: TypeId, newIds: seq<nat>, r: TypeId)
    requires Canonicalized(orig, types, m, start) && start <= |m| && r < |m|
    requires Renumbering(m, start, |m|, newIds)
    ensures NewRef(m, newIds, r) == FinalId(m, start, r) <= MAX_NR_TYPES
  {
    FinalIdInRange(orig, types, m, start, r);
  }

  lemma RemappedIsDeduped(orig: seq<BtfType>, types: seq<BtfType>, m: seq<nat>, start: TypeId, newIds: seq<nat>, cur: seq<BtfType>)
    requires Canonicalized(orig, types, m, start) && start <= |m|
    requires Renumbering(m, start, |m|, newIds)
    requires var ts := KeptTypes(types, m, start, |m|); Remapping(ts, cur, m, newIds, |ts|, 0)
    ensures types[..start] + cur == Deduped(types, m, start)
  {
    var ts := KeptTypes(types, m, start, |m|);
    var us := RemappedAll(m, start, ts);
    forall k | 0 <= k < |ts|
      ensures cur[k] == us[k]
    {
      RecordIsRemapped(orig, types, m, start, newIds, ts[k], cur[k]);
    }
    assert cur == us;
  }

  lemma RecordIsRemapped(orig: seq<BtfType>, types: seq<BtfType>, m: seq<nat>, start: TypeId, newIds: seq<nat>, t: BtfType, u: BtfType)
    requires Canonicalized(orig, types, m, start) && start <= |m|
    requires Renumbering(m, start, |m|, newIds)
    requires Forest(m) && forall j :: 0 <= j < |t.refs| ==> t.refs[j] < |m|
    requires RemappedUpTo(t, u, m, newIds, |t.refs|)
    ensures u == Remapped(m, start, t)
  {
    hide Renumbering;
    hide Canonicalized;
    var rs := FinalRefs(m, start, t.refs);
    forall j | 0 <= j < |t.refs|
      ensures u.refs[j] == rs[j]
    {
      NewRefIsFinal(orig, types, m, start, newIds, t.refs[j]);
    }
    assert u.refs == rs;
    assert Shape(u).name == Shape(t).name && Shape(u).info == Shape(t).info
        && Shape(u).size == Shape(t).size && Shape(u).payload == Shape(t).payload;
  }

  /** After the passes have settled the canonical map, compaction and remapping turn the
      section, in place, into the deduplicated one; neither can fail. */
  method CompactAndRemap(ghost orig: seq<BtfType>, ghost types: seq<BtfType>, m: seq<nat>, start: TypeId,
                         data: array<nat>, offs: array<nat>)
    returns (err: int, nr: nat, len: nat)
    requires Canonicalized(orig, types, m, start) && start <= |m|
    requires data != offs && Encodable(types[start..])
    requires data[..] == Flat(types[start..]) && offs[..] == Offsets(types[start..])
    modifies data, offs
    ensures err == 0
    ensures var ts := Deduped(types, m, start)[start..];
            && Encodable(ts) && nr == |ts| <= offs.Length && len == |Flat(ts)| <= data.Length
            && data[..len] == Flat(ts) && offs[..nr] == Offsets(ts)
  {
    hide Renumbering;
    hide Remapping;
    hide Flat;
    ghost var ts := KeptTypes(types, m, start, |m|);
    var newIds;
    err, newIds, nr, len := CompactTypes(types, data, offs, m, start);
    LaidStart(data[..], offs[..], ts, nr, len);
    KeptRefsInRange(orig, types, m, start);
    RenumberingLength(m, start, newIds);
    ghost var cur;
    err, cur := RemapTypes(data, offs, nr, m, newIds, ts);
    if err != 0 {
      ghost var k, j :| 0 <= k < |ts| && 0 <= j < |ts[k].refs| && NewRef(m, newIds, ts[k].refs[j]) > MAX_NR_TYPES;
      NewRefIsFinal(orig, types, m, start, newIds, ts[k].refs[j]);
      assert false;
    }
    RemappedIsDeduped(orig, types, m, start, newIds, cur);
    assert Deduped(types, m, start)[start..] == cur;
    LaidEnd(data[..], offs[..], cur);
    assert data[..][..len] == data[..len] && offs[..][..nr] == offs[..nr];
  }

  lemma LaidStart(data: seq<nat>, offs: seq<nat>, ts: seq<BtfType>, nr: nat, len: nat)
    requires Encodable(ts) && len <= |data| && data[..len] == Flat(ts)
    requires nr <= |offs| && offs[..nr] == Offsets(ts)
    ensures Laid(data, offs, ts) && nr == |ts|
  {
    hide Flat;
    forall k | 0 <= k < |ts|
      ensures offs[k] == |Flat(ts[..k])|
    {
      assert offs[k] == offs[..nr][k];
    }
  }

  lemma LaidEnd(data: seq<nat>, offs: seq<nat>, cur: seq<BtfType>)
    requires Laid(data, offs, cur)
    ensures Encodable(cur) && |Flat(cur)| <= |data| && data[..|Flat(cur)|] == Flat(cur)
    ensures |cur| <= |offs| && offs[..|cur|] == Offsets(cur)
  {
  }

  lemma KeptRefsInRange(orig: seq<BtfType>, types: seq<BtfType>, m: seq<nat>, start: TypeId)
    requires Canonicalized(orig, types, m, start)
    ensures RefsInRange(KeptTypes(types, m, start, |m|), |m|)
  {
  }

  lemma RenumberingLength(m: seq<nat>, start: TypeId, newIds: seq<nat>)
    requires Renumbering(m, start, |m|, newIds)
    ensures |newIds| == |m|
  {
  }

  // ------------------------------------------------------------------
  // Deduplication as a whole
  // ------------------------------------------------------------------

  /** Read the record that starts at off. */
  method ReadRecord(data: array<nat>, off: nat, ghost t: BtfType) returns (u: BtfType)
    requires Holds(data[..], off, t) && t.info.vlen <= MAX_VLEN
    ensures u == t
  {
    hide Record;
    hide Decode;
    hide RecordWords;
    hide InfoOf;
    InfoOfRecord(data[..], off, t);
    DecodeRecord(t);
    var info := InfoOf(data[off + 1]);
    var n := RecordWords(info);
    assert data[off..off + n] == data[..][off..off + n];
    u := Decode(data[off..off + n]);
  }

  /** Read all records of a section. */
  method ReadTypes(base: seq<BtfType>, data: array<nat>, offs: array<nat>, ghost ts: seq<BtfType>) returns (types: seq<BtfType>)
    requires Written(data[..], offs[..], ts)
    ensures types == base + ts
  {
    types := base;
    hide Flat;
    for i := 0 to offs.Length
      invariant types == base + ts[..i]
    {
      RecordInFlat(ts, i);
      assert offs[i] == offs[..][i];
      var t := ReadRecord(data, offs[i], ts[i]);
      types := types + [t];
    }
    assert ts[..offs.Length] == ts;
  }

  /** Deduplicate a section that is built on a base: the types that its words describe are
      replaced, in place, by the words of the deduplicated types. */
  method DedupSection(base: seq<BtfType>, data: array<nat>, offs: array<nat>, ghost ts: seq<BtfType>,
                      ghost embed: seq<nat>, ghost refRank: seq<nat>)
    returns (err: int, nr: nat, len: nat, ghost types: seq<BtfType>, ghost m: seq<nat>)
    requires 1 <= |base| && GraphOk(base + ts) && EmbedRanked(base + ts, embed)
    requires data != offs && Written(data[..], offs[..], ts)
    modifies data, offs
    ensures err == 0 || err == -EINVAL || err == -ELOOP || err == -H.ENOMEM
    ensures err == -EINVAL ==> !AllCompared(base + ts)
    ensures err == -ELOOP ==> !RefRankedFor(base + ts, |base|, refRank)
    ensures err == 0 ==> Canonicalized(base + ts, types, m, |base|) && Distinguished(base + ts, m, |base|)
    ensures err == 0 ==> var us := Deduped(types, m, |base|)[|base|..];
              && Encodable(us) && nr == |us| <= offs.Length && len == |Flat(us)| <= data.Length
              && data[..len] == Flat(us) && offs[..nr] == Offsets(us)
  {
    hide GraphOk;
    hide Written;
    hide Canonicalized;
    hide Distinguished;
    hide Flat;
    hide Encodable;
    nr, len := 0, 0;
    var input := ReadTypes(base, data, offs, ts);
    SignatureWorks();
    var table := new H.Table((k: int) => if k >= 0 then k else -k, (k: int) => k);
    assert input[|base|..] == ts;
    var d := new Dedup(input, |base|, table, Signature, data, offs, embed, refRank);
    err := d.Canonicalize();
    types, m := d.types, d.cmap;
    if err != 0 {
      return;
    }
    WrittenAs(data[..], offs[..], types[|base|..]);
    CanonicalSize(input, types, m, |base|);
    err, nr, len := CompactAndRemap(input, types, d.cmap, |base|, data, offs);
  }

  lemma WrittenAs(data: seq<nat>, offs: seq<nat>, ts: seq<BtfType>)
    requires Written(data, offs, ts)
    ensures Encodable(ts) && data == Flat(ts) && offs == Offsets(ts)
  {
  }

  lemma CanonicalSize(orig: seq<BtfType>, types: seq<BtfType>, m: seq<nat>, start: TypeId)
    requires Canonicalized(orig, types, m, start)
    ensures GraphOk(types) && Forest(m) && |orig| == |types| == |m|
  {
  }
}
