/** Building BTF: records are appended to the type section, and the last record grows by
    members, enumerators, parameters or variables.  Lengths are counted in 32-bit words. */
module BtfBuilder {
  import opened BtfTypes
  import opened BtfEncoding
  import opened BtfSection

  const ENOMEM: int := 12

  // ------------------------------------------------------------------
  // Growing a record
  // ------------------------------------------------------------------

  /** Words of one member of a type. */
  function MemberWords(k: Kind): nat {
    match k
    case Struct | Union | Datasec | Enum64 => 3
    case Enum | FuncProto => 2
    case _ => 0
  }

  /** The type with one more member. */
  function Grown(t: BtfType, ws: seq<nat>, kflag: bool): (t': BtfType)
    requires MemberWords(t.info.kind) > 0 && |ws| == MemberWords(t.info.kind) && WellFormed(t)
    ensures WellFormed(t') && t'.info == Info(t.info.kind, t.info.vlen + 1, kflag)
  {
    var u := t.(info := Info(t.info.kind, t.info.vlen + 1, kflag));
    match t.info.kind
    case Struct | Union => u.(payload := t.payload + [ws[0], ws[2]], refs := t.refs + [ws[1]])
    case Datasec => u.(payload := t.payload + [ws[1], ws[2]], refs := t.refs + [ws[0]])
    case FuncProto => u.(payload := t.payload + [ws[0]], refs := t.refs + [ws[1]])
    case _ => u.(payload := t.payload + ws)
  }

  lemma GrownSlots(info: Info, info': Info, p: nat)
    requires info'.kind == info.kind && info'.vlen == info.vlen + 1 && MemberWords(info.kind) > 0
    requires HEADER_WORDS <= p < RecordWords(info)
    ensures p < RecordWords(info') && SlotAt(info', p) == SlotAt(info, p)
  {
  }

  /** One more member changes the info word and adds words at the end. */
  lemma GrownRecord(t: BtfType, ws: seq<nat>, kflag: bool)
    requires MemberWords(t.info.kind) > 0 && |ws| == MemberWords(t.info.kind) && WellFormed(t)
    ensures var t' := Grown(t, ws, kflag);
            Record(t') == Record(t)[1 := InfoWord(t'.info)] + ws
  {
    hide Record;
    hide WordAt;
    hide RecordWords;
    hide WellFormed;
    hide InfoWord;
    GrownSize(t, ws, kflag);
    var t' := Grown(t, ws, kflag);
    hide Grown;
    var n := RecordWords(t.info);
    var r, r' := Record(t), Record(t');
    forall p | 0 <= p < n ensures r'[p] == r[1 := InfoWord(t'.info)][p] {
      GrownHead(t, ws, kflag, p);
      RecordIs(t, p);
      RecordIs(t', p);
    }
    forall p | n <= p < |r'| ensures r'[p] == ws[p - n] {
      GrownTail(t, ws, kflag, p - n);
      RecordIs(t', p);
    }
    assert r' == r[1 := InfoWord(t'.info)] + ws;
  }

  lemma RecordIs(t: BtfType, p: nat)
    requires WellFormed(t) && p < RecordWords(t.info)
    ensures Record(t)[p] == WordAt(t, p)
  {
    hide WordAt;
    hide RecordWords;
  }

  lemma GrownSize(t: BtfType, ws: seq<nat>, kflag: bool)
    requires MemberWords(t.info.kind) > 0 && |ws| == MemberWords(t.info.kind) && WellFormed(t)
    ensures RecordWords(Grown(t, ws, kflag).info) == RecordWords(t.info) + |ws|
  {
  }

  lemma GrownHead(t: BtfType, ws: seq<nat>, kflag: bool, p: nat)
    requires MemberWords(t.info.kind) > 0 && |ws| == MemberWords(t.info.kind) && WellFormed(t) && p < RecordWords(t.info)
    ensures var t' := Grown(t, ws, kflag);
            p < RecordWords(t'.info) && WordAt(t', p) == if p == 1 then InfoWord(t'.info) else WordAt(t, p)
  {
    GrownSize(t, ws, kflag);
    if p >= HEADER_WORDS {
      var t' := Grown(t, ws, kflag);
      GrownSlots(t.info, t'.info, p);
      var s := SlotAt(t.info, p);
      hide SlotAt;
      hide RecordWords;
      hide RefPos;
      hide PayloadPos;
    }
  }

  lemma GrownTail(t: BtfType, ws: seq<nat>, kflag: bool, k: nat)
    requires MemberWords(t.info.kind) > 0 && |ws| == MemberWords(t.info.kind) && WellFormed(t) && k < |ws|
    ensures var t' := Grown(t, ws, kflag);
            var n := RecordWords(t.info);
            n + k < RecordWords(t'.info) && WordAt(t', n + k) == ws[k]
  {
    if MemberWords(t.info.kind) == 3 {
      GrownTail3(t, ws, kflag, k);
    } else {
      GrownTail2(t, ws, kflag, k);
    }
  }

  lemma GrownTail3(t: BtfType, ws: seq<nat>, kflag: bool, k: nat)
    requires MemberWords(t.info.kind) == 3 && |ws| == 3 && WellFormed(t) && k < 3
    ensures var t' := Grown(t, ws, kflag);
            var n := RecordWords(t.info);
            n + k < RecordWords(t'.info) && WordAt(t', n + k) == ws[k]
  {
    hide Grown;
    hide WordAt;
    if t.info.kind == Datasec {
      GrownVariable(t, ws, kflag, k);
    } else if t.info.kind == Enum64 {
      GrownValue(t, ws, kflag, k);
    } else {
      GrownField(t, ws, kflag, k);
    }
  }

  lemma GrownField(t: BtfType, ws: seq<nat>, kflag: bool, k: nat)
    requires t.info.kind in {Struct, Union} && |ws| == 3 && WellFormed(t) && k < 3
    ensures var t' := Grown(t, ws, kflag);
            var n := RecordWords(t.info);
            n + k < RecordWords(t'.info) && WordAt(t', n + k) == ws[k]
  {
    TripleAt(t.info.vlen, k);
  }

  lemma GrownVariable(t: BtfType, ws: seq<nat>, kflag: bool, k: nat)
    requires t.info.kind == Datasec && |ws| == 3 && WellFormed(t) && k < 3
    ensures var t' := Grown(t, ws, kflag);
            var n := RecordWords(t.info);
            n + k < RecordWords(t'.info) && WordAt(t', n + k) == ws[k]
  {
    TripleAt(t.info.vlen, k);
  }

  lemma GrownValue(t: BtfType, ws: seq<nat>, kflag: bool, k: nat)
    requires t.info.kind == Enum64 && |ws| == 3 && WellFormed(t) && k < 3
    ensures var t' := Grown(t, ws, kflag);
            var n := RecordWords(t.info);
            n + k < RecordWords(t'.info) && WordAt(t', n + k) == ws[k]
  {
  }

  lemma TripleAt(n: nat, k: nat)
    requires k < 3
    ensures (3 * n + k) / 3 == n && (3 * n + k) % 3 == k
  {
  }

  lemma GrownTail2(t: BtfType, ws: seq<nat>, kflag: bool, k: nat)
    requires MemberWords(t.info.kind) == |ws| == 2 && WellFormed(t) && k < 2
    ensures var t' := Grown(t, ws, kflag);
            var n := RecordWords(t.info);
            n + k < RecordWords(t'.info) && WordAt(t', n + k) == ws[k]
  {
    var q := RecordWords(t.info) + k - 3;
    assert q / 2 == t.info.vlen && q % 2 == k;
  }

  ghost predicate Buildable(ts: seq<BtfType>) {
    Encodable(ts) && forall i :: 0 <= i < |ts| ==> ts[i].info.kind != Unknown
  }

  /** A record behind the section. */
  lemma AppendRecord(ts: seq<BtfType>, t: BtfType)
    requires Buildable(ts) && WellFormed(t) && t.info.vlen <= MAX_VLEN && t.info.kind != Unknown
    ensures Buildable(ts + [t]) && Flat(ts + [t]) == Flat(ts) + Record(t) && Offsets(ts + [t]) == Offsets(ts) + [|Flat(ts)|]
  {
    hide Record;
    hide RecordWords;
    hide Flat;
    FlatSnoc(ts, t);
    var ts' := ts + [t];
    forall i | 0 <= i < |ts| ensures Offsets(ts')[i] == Offsets(ts)[i] {
      assert ts'[..i] == ts[..i];
    }
    assert ts'[..|ts|] == ts;
  }

  /** The last record with a new info word and more words. */
  function GrownData(data: seq<nat>, off: nat, info: nat, ws: seq<nat>): seq<nat>
    requires off + 1 < |data|
  {
    data[off + 1 := info] + ws
  }

  lemma LastRecord(ts: seq<BtfType>)
    requires Buildable(ts) && ts != []
    ensures var n := |ts| - 1;
            && Flat(ts) == Flat(ts[..n]) + Record(ts[n]) && Offsets(ts)[n] == |Flat(ts[..n])|
            && Offsets(ts)[n] + 1 < |Flat(ts)| && |Record(ts[n])| > 1 && Buildable(ts[..n])
  {
  }

  /** A member more in the last type. */
  lemma GrowLast(ts: seq<BtfType>, ws: seq<nat>, kflag: bool)
    requires Buildable(ts) && ts != []
    requires var t := ts[|ts| - 1];
             MemberWords(t.info.kind) > 0 && |ws| == MemberWords(t.info.kind) && t.info.vlen < MAX_VLEN
    ensures var n := |ts| - 1;
            var t' := Grown(ts[n], ws, kflag);
            var off := Offsets(ts)[n];
            && Buildable(ts[n := t']) && Offsets(ts[n := t']) == Offsets(ts)
            && off + 1 < |Flat(ts)| && Flat(ts[n := t']) == GrownData(Flat(ts), off, InfoWord(t'.info), ws)
  {
    hide Record;
    hide RecordWords;
    hide Grown;
    hide Offsets;
    hide Flat;
    var n := |ts| - 1;
    var t' := Grown(ts[n], ws, kflag);
    LastRecord(ts);
    GrownRecord(ts[n], ws, kflag);
    assert ts[n := t'] == ts[..n] + [t'];
    AppendRecord(ts[..n], t');
    assert ts == ts[..n] + [ts[n]];
    AppendRecord(ts[..n], ts[n]);
    Patched(Flat(ts[..n]), Record(ts[n]), InfoWord(t'.info), ws);
  }

  lemma Patched(a: seq<nat>, r: seq<nat>, w: nat, ws: seq<nat>)
    requires |r| > 1
    ensures GrownData(a + r, |a|, w, ws) == a + (r[1 := w] + ws)
  {
    var whole: seq<nat> := a + r;
    assert whole[|a| + 1 := w] == a + r[1 := w];
  }

  /** One member too many: the count in the info word wraps around to zero, and the index
      no longer splits the section into records. */
  lemma OverflowBreaks(ts: seq<BtfType>, ws: seq<nat>, kflag: bool)
    requires Buildable(ts) && ts != []
    requires var t := ts[|ts| - 1];
             MemberWords(t.info.kind) > 0 && |ws| == MemberWords(t.info.kind) && t.info.vlen == MAX_VLEN
    ensures var n := |ts| - 1;
            var off := Offsets(ts)[n];
            var w := InfoWord(Info(ts[n].info.kind, MAX_VLEN + 1, kflag));
            && off + 1 < |Flat(ts)| && !Partition(GrownData(Flat(ts), off, w, ws), Offsets(ts))
  {
    var n := |ts| - 1;
    var off := Offsets(ts)[n];
    var info := Info(ts[n].info.kind, MAX_VLEN + 1, kflag);
    LastRecord(ts);
    var data := GrownData(Flat(ts), off, InfoWord(info), ws);
    WrappedInfo(info);
    assert data[off + 1] == InfoWord(info);
    assert SizeAt(data, off) == HEADER_WORDS;
    assert |data| > off + HEADER_WORDS;
    assert SizeIn(data)(Offsets(ts)[n]) == HEADER_WORDS;
  }

  lemma WrappedInfo(info: Info)
    requires info.vlen == MAX_VLEN + 1
    ensures KindOf(InfoWord(info)) == info.kind && VlenOf(InfoWord(info)) == 0
  {
    var k := KindNumber(info.kind);
    assert KindFromNumber(k) == info.kind && k < 32;
    assert InfoWord(info) / 0x100_0000 == (if info.kflag then 128 else 0) + k;
  }

  // ------------------------------------------------------------------
  // The builder
  // ------------------------------------------------------------------

  /** Type ids of an appended section are shifted; void stays void. */
  function Shifted(id: TypeId, shift: nat): TypeId { if id == 0 then 0 else id + shift }

  function ShiftedRefs(refs: seq<TypeId>, shift: nat): seq<TypeId> {
    seq(|refs|, j requires 0 <= j < |refs| => Shifted(refs[j], shift))
  }

  function ShiftedType(t: BtfType, shift: nat): BtfType { t.(refs := ShiftedRefs(t.refs, shift)) }

  function ShiftedTypes(ts: seq<BtfType>, shift: nat): seq<BtfType> {
    seq(|ts|, i requires 0 <= i < |ts| => ShiftedType(ts[i], shift))
  }

  /** Type k with its first j references shifted. */
  function PartShifted(ts: seq<BtfType>, k: nat, j: nat, shift: nat): seq<BtfType>
    requires k < |ts| && j <= |ts[k].refs|
  {
    ts[k := ts[k].(refs := ShiftedRefs(ts[k].refs, shift)[..j] + ts[k].refs[j..])]
  }

  lemma ShiftStep(ts: seq<BtfType>, k: nat, j: nat, shift: nat)
    requires Buildable(ts) && k < |ts| && j < |ts[k].refs| && Buildable(PartShifted(ts, k, j, shift))
    ensures var cur := PartShifted(ts, k, j, shift);
            var at := |Flat(cur[..k])| + RefPos(ts[k].info, j);
            && cur[..k] == ts[..k] && cur[k].info == ts[k].info && |cur[k].refs| == |ts[k].refs| && cur[k].refs[j] == ts[k].refs[j]
            && Buildable(PartShifted(ts, k, j + 1, shift)) && at < |Flat(cur)|
            && Flat(PartShifted(ts, k, j + 1, shift)) == Flat(cur)[at := Shifted(ts[k].refs[j], shift)]
            && Flat(cur)[at] == ts[k].refs[j]
  {
    hide Record;
    hide RecordWords;
    hide RefPos;
    hide Flat;
    hide PartShifted;
    hide Shifted;
    PartStep(ts, k, j, shift);
    var cur := PartShifted(ts, k, j, shift);
    FlatPutRef(cur, k, j, Shifted(ts[k].refs[j], shift));
    RefInFlat(cur, k, j);
  }

  lemma PartStep(ts: seq<BtfType>, k: nat, j: nat, shift: nat)
    requires k < |ts| && j < |ts[k].refs|
    ensures var cur := PartShifted(ts, k, j, shift);
            var r := Shifted(ts[k].refs[j], shift);
            && cur[..k] == ts[..k] && cur[k].info == ts[k].info && |cur[k].refs| == |ts[k].refs| && cur[k].refs[j] == ts[k].refs[j]
            && |cur| == |ts|
            && PartShifted(ts, k, j + 1, shift) == cur[k := cur[k].(refs := cur[k].refs[j := r])]
  {
    var cur := PartShifted(ts, k, j, shift);
    assert cur[..k] == ts[..k];
    assert cur[k].refs[j := Shifted(ts[k].refs[j], shift)] == ShiftedRefs(ts[k].refs, shift)[..j + 1] + ts[k].refs[j + 1..];
  }

  lemma InfoAt(ts: seq<BtfType>, k: nat)
    requires Buildable(ts) && k < |ts|
    ensures Encodable(ts) && |Flat(ts[..k])| + 1 < |Flat(ts)|
    ensures InfoOf(Flat(ts)[|Flat(ts[..k])| + 1]) == ts[k].info && RefCount(ts[k].info) == |ts[k].refs|
  {
    hide Flat;
    hide InfoOf;
    RecordInFlat(ts, k);
    InfoOfRecord(Flat(ts), Offsets(ts)[k], ts[k]);
  }

  /** The ids in one record of a section are shifted in place. */
  method ShiftRecord(ws: seq<nat>, off: nat, shift: nat, ghost ts: seq<BtfType>, ghost k: nat) returns (ws': seq<nat>)
    requires Buildable(ts) && k < |ts| && ws == Flat(ts) && off == |Flat(ts[..k])|
    ensures var ts' := ts[k := ShiftedType(ts[k], shift)];
            Buildable(ts') && ws' == Flat(ts')
  {
    hide Record;
    hide RecordWords;
    hide RefPos;
    hide Flat;
    hide InfoOf;
    hide RefCount;
    hide Buildable;
    hide ShiftedType;
    InfoAt(ts, k);
    var info := InfoOf(ws[off + 1]);
    ws' := ws;
    PartEnds(ts, k, shift);
    hide PartShifted;
    for j := 0 to RefCount(info)
      invariant Buildable(PartShifted(ts, k, j, shift)) && ws' == Flat(PartShifted(ts, k, j, shift))
    {
      ShiftStep(ts, k, j, shift);
      var at := off + RefPos(info, j);
      ws' := ws'[at := Shifted(ws'[at], shift)];
    }
  }

  lemma PartEnds(ts: seq<BtfType>, k: nat, shift: nat)
    requires k < |ts|
    ensures PartShifted(ts, k, 0, shift) == ts
    ensures PartShifted(ts, k, |ts[k].refs|, shift) == ts[k := ShiftedType(ts[k], shift)]
  {
    var refs := ts[k].refs;
    assert ShiftedRefs(refs, shift)[..0] + refs[0..] == refs;
    assert ShiftedRefs(refs, shift)[..|refs|] + refs[|refs|..] == ShiftedRefs(refs, shift);
  }

  class Builder {
    /** The type section, the offsets of its records, and the header's lengths. */
    var data: seq<nat>
    var offs: seq<nat>
    var typeLen: nat
    var strOff: nat
    const startId: nat
    ghost var types: seq<BtfType>

    ghost predicate Valid()
      reads this
    {
      && Buildable(types) && data == Flat(types) && offs == Offsets(types)
      && typeLen == |data| == strOff && startId > 0
    }

    constructor (startId: nat)
      requires startId > 0
      ensures Valid() && types == [] && this.startId == startId
    {
      data, offs, typeLen, strOff, types := [], [], 0, 0, [];
      this.startId := startId;
    }

    /** In every state that building leads to, the index is the one that parsing would
        find, and the only one. */
    lemma IndexIsParsed()
      requires Valid()
      ensures Partition(data, offs) && forall whole :: Partition(data, whole) ==> whole == offs
    {
      FlatPartition(types);
      forall whole | Partition(data, whole) ensures whole == offs {
        PartitionUnique(data, whole, offs);
      }
    }

    /** Appends a record; the id of the new type follows the last one. */
    method AddRecord(t: BtfType) returns (id: int)
      requires Valid() && WellFormed(t) && t.info.vlen <= MAX_VLEN
      modifies `data, `offs, `typeLen, `strOff, `types
      ensures Valid() && (t.info.kind == Unknown ==> id == -EINVAL)
      ensures id > 0 ==> types == old(types) + [t] && id == startId + |types| - 1
      ensures id <= 0 ==> id < 0 && types == old(types)
    {
      hide Record;
      hide RecordWords;
      hide Flat;
      if t.info.kind == Unknown {
        return -EINVAL;
      }
      if * {
        return -ENOMEM;
      }
      AppendRecord(types, t);
      var ws := Record(t);
      offs := offs + [typeLen];
      data := data + ws;
      typeLen, strOff := typeLen + |ws|, strOff + |ws|;
      types := types + [t];
      return startId + |offs| - 1;
    }

    /** Gives the last type one member more; exactly up to 65535 members the index stays right. */
    method GrowType(ws: seq<nat>, kflag: bool) returns (err: int)
      requires Valid() && types != []
      requires var k := types[|types| - 1].info.kind; MemberWords(k) > 0 && |ws| == MemberWords(k)
      modifies `data, `offs, `typeLen, `strOff, `types
      ensures err == 0 || err == -ENOMEM
      ensures err != 0 ==> Valid() && types == old(types)
      ensures var n := |old(types)| - 1;
              var t := old(types)[n];
              && (err == 0 && t.info.vlen < MAX_VLEN ==> Valid() && types == old(types)[n := Grown(t, ws, kflag)])
              && (err == 0 && t.info.vlen == MAX_VLEN ==> !Partition(data, offs))
    {
      hide WellFormed;
      hide Offsets;
      hide EndOf;
      hide SizeIn;
      hide Record;
      hide RecordWords;
      hide Flat;
      hide Grown;
      if * {
        return -ENOMEM;
      }
      ghost var n := |types| - 1;
      ghost var t := types[n];
      LastInfo();
      var off := offs[|offs| - 1];
      var info := InfoOf(data[off + 1]);
      var w := InfoWord(Info(info.kind, info.vlen + 1, kflag));
      if t.info.vlen < MAX_VLEN {
        GrowLast(types, ws, kflag);
        GrownInfo(t, ws, kflag);
        types := types[n := Grown(t, ws, kflag)];
      } else {
        OverflowBreaks(types, ws, kflag);
      }
      data := GrownData(data, off, w, ws);
      typeLen, strOff := typeLen + |ws|, strOff + |ws|;
      return 0;
    }

    lemma GrownInfo(t: BtfType, ws: seq<nat>, kflag: bool)
      requires MemberWords(t.info.kind) > 0 && |ws| == MemberWords(t.info.kind) && WellFormed(t)
      ensures Grown(t, ws, kflag).info == Info(t.info.kind, t.info.vlen + 1, kflag)
    {
    }

    /** What the record of the last type says. */
    lemma LastInfo()
      requires Valid() && types != []
      ensures |offs| == |types| && offs[|offs| - 1] + 1 < |data|
      ensures InfoOf(data[offs[|offs| - 1] + 1]) == types[|types| - 1].info
    {
      var n := |types| - 1;
      RecordInFlat(types, n);
      InfoOfRecord(data, offs[n], types[n]);
    }

    /** A field is a bit field, or not at a byte boundary. */
    static predicate IsBitfield(bitOff: nat, bitSize: nat) { bitSize > 0 || bitOff % 8 != 0 }

    /** The last type can have this field. */
    static predicate FieldFits(types: seq<BtfType>, typeId: int, bitOff: nat, bitSize: nat) {
      && types != [] && IsComposite(types[|types| - 1]) && 0 <= typeId <= MAX_NR_TYPES
      && (IsBitfield(bitOff, bitSize) ==> 0 < bitSize <= 255 && bitOff <= 0xff_ffff)
      && (types[|types| - 1].info.kind == Union ==> bitOff == 0)
    }

    /** A struct or union with one more member. */
    static function WithField(t: BtfType, name: nat, typeId: nat, bitOff: nat, bitSize: nat): BtfType {
      t.(info := Info(t.info.kind, t.info.vlen + 1, t.info.kflag || IsBitfield(bitOff, bitSize)),
         payload := t.payload + [name, bitOff + bitSize * 0x100_0000], refs := t.refs + [typeId])
    }

    /** A member of the last struct or union; an offset beyond whole bytes makes it a bit field. */
    method AddField(name: nat, typeId: int, bitOff: nat, bitSize: nat) returns (err: int)
      requires Valid()
      modifies `data, `offs, `typeLen, `strOff, `types
      ensures err == 0 || err == -EINVAL || err == -ENOMEM
      ensures err == -EINVAL <==> !FieldFits(old(types), typeId, bitOff, bitSize)
      ensures err != 0 ==> Valid() && types == old(types)
      ensures err == 0 ==>
                var n := |old(types)| - 1;
                var t := old(types)[n];
                if t.info.vlen < MAX_VLEN then Valid() && types == old(types)[n := WithField(t, name, typeId, bitOff, bitSize)]
                else !Partition(data, offs)
    {
      hide Valid;
      hide InfoOf;
      hide Grown;
      hide Partition;
      hide Flat;
      hide Builder.WithField;
      Counted();
      if |offs| == 0 {
        return -EINVAL;
      }
      LastInfo();
      var info := InfoOf(data[offs[|offs| - 1] + 1]);
      if info.kind != Struct && info.kind != Union {
        return -EINVAL;
      }
      if typeId < 0 || typeId > MAX_NR_TYPES {
        return -EINVAL;
      }
      var isBitfield := IsBitfield(bitOff, bitSize);
      if isBitfield && (bitSize == 0 || bitSize > 255 || bitOff > 0xff_ffff) {
        return -EINVAL;
      }
      if info.kind == Union && bitOff != 0 {
        return -EINVAL;
      }
      GrownStruct(types[|types| - 1], name, typeId, bitOff, bitSize);
      hide WellFormed;
      err := GrowType([name, typeId, bitOff + bitSize * 0x100_0000], isBitfield || info.kflag);
    }

    lemma Counted()
      requires Valid()
      ensures |offs| == |types| && forall i :: 0 <= i < |types| ==> WellFormed(types[i]) && types[i].info.vlen <= MAX_VLEN
    {
    }

    static lemma GrownStruct(t: BtfType, name: nat, typeId: nat, bitOff: nat, bitSize: nat)
      requires IsComposite(t) && WellFormed(t)
      ensures Grown(t, [name, typeId, bitOff + bitSize * 0x100_0000], IsBitfield(bitOff, bitSize) || t.info.kflag)
              == WithField(t, name, typeId, bitOff, bitSize)
    {
    }

    /** Appends the records of another section, its type ids shifted by one constant. */
    method AddBtf(src: seq<nat>, cnt: nat, ghost srcTypes: seq<BtfType>) returns (id: int)
      requires Valid() && Buildable(srcTypes) && src == Flat(srcTypes) && cnt == |srcTypes|
      modifies `data, `offs, `typeLen, `strOff, `types
      ensures Valid() && (id > 0 || id == -ENOMEM)
      ensures id > 0 ==> id == startId + |old(types)|
      ensures id > 0 ==> types == old(types) + ShiftedTypes(srcTypes, startId + |old(types)| - 1)
      ensures id <= 0 ==> types == old(types)
    {
      hide Flat;
      if * {
        return -ENOMEM;
      }
      var shift := startId + |offs| - 1;
      var all, newOffs := CopyShifted(data, offs, src, cnt, shift, types, srcTypes);
      data, offs := all, newOffs;
      typeLen, strOff := typeLen + |src|, strOff + |src|;
      types := types + ShiftedTypes(srcTypes, shift);
      return startId + |offs| - cnt;
    }
  }

  lemma {:induction false} FlatConcat(a: seq<BtfType>, b: seq<BtfType>)
    requires Buildable(a) && Buildable(b)
    ensures Buildable(a + b) && Flat(a + b) == Flat(a) + Flat(b)
    decreases |b|
  {
    hide WellFormed;
    hide Record;
    hide RecordWords;
    hide Flat;
    if b == [] {
      assert a + b == a;
      FlatEmpty();
    } else {
      var n := |b| - 1;
      assert a + b == (a + b[..n]) + [b[n]] && b == b[..n] + [b[n]];
      FlatConcat(a, b[..n]);
      FlatSnoc(a + b[..n], b[n]);
      FlatSnoc(b[..n], b[n]);
      Regroup(Flat(a), Flat(b[..n]), Record(b[n]));
    }
  }

  lemma FlatEmpty()
    ensures Flat([]) == []
  {
  }

  lemma Regroup(a: seq<nat>, b: seq<nat>, c: seq<nat>)
    ensures (a + b) + c == a + (b + c)
  {
  }

  /** The part of a joined section that is done: the first records of the source are shifted. */
  function Joined(a: seq<BtfType>, b: seq<BtfType>, i: nat, shift: nat): seq<BtfType>
    requires i <= |b|
  {
    a + ShiftedTypes(b, shift)[..i] + b[i..]
  }

  lemma JoinedStep(a: seq<BtfType>, b: seq<BtfType>, i: nat, shift: nat)
    requires i < |b|
    ensures var k := |a| + i;
            var cur, next := Joined(a, b, i, shift), Joined(a, b, i + 1, shift);
            && |cur| == |next| == |a| + |b| && cur[k] == b[i] && cur[..k] == next[..k]
            && next == cur[k := ShiftedType(cur[k], shift)]
  {
    var cur, next := Joined(a, b, i, shift), Joined(a, b, i + 1, shift);
    assert ShiftedTypes(b, shift)[..i + 1] == ShiftedTypes(b, shift)[..i] + [ShiftedType(b[i], shift)];
    assert b[i..] == [b[i]] + b[i + 1..];
  }

  /** The beginning of the index is right. */
  ghost predicate Begun(ts: seq<BtfType>, offs: seq<nat>, n: nat, off: nat) {
    Buildable(ts) && n <= |ts| && |offs| == n && offs == Offsets(ts)[..n] && off == |Flat(ts[..n])|
  }

  lemma BegunStep(ts: seq<BtfType>, ts': seq<BtfType>, offs: seq<nat>, n: nat, off: nat)
    requires Begun(ts, offs, n, off) && Buildable(ts') && n < |ts| == |ts'| && ts'[..n] == ts[..n] && ts'[n].info == ts[n].info
    ensures Begun(ts', offs + [off], n + 1, off + RecordWords(ts[n].info))
    ensures off + 1 < |Flat(ts)| && InfoOf(Flat(ts)[off + 1]) == ts[n].info
  {
    hide Record;
    hide RecordWords;
    hide Flat;
    hide InfoOf;
    hide WellFormed;
    InfoAt(ts, n);
    FlatAt(ts', n);
    SameOffsets(ts, ts', n);
    assert offs + [off] == Offsets(ts')[..n + 1];
  }

  lemma SameOffsets(ts: seq<BtfType>, ts': seq<BtfType>, n: nat)
    requires Buildable(ts) && Buildable(ts') && n < |ts| == |ts'| && ts'[..n] == ts[..n]
    ensures Offsets(ts')[..n] == Offsets(ts)[..n] && Offsets(ts')[n] == |Flat(ts[..n])|
  {
    hide Flat;
    forall i | 0 <= i < n ensures Offsets(ts')[i] == Offsets(ts)[i] {
      assert ts'[..i] == ts'[..n][..i] == ts[..n][..i] == ts[..i];
    }
  }

  /** Shifts the next record; its offset is known when those before are. */
  method ShiftNext(all: seq<nat>, offs: seq<nat>, off: nat, shift: nat, ghost ts: seq<BtfType>, ghost ss: seq<BtfType>, ghost i: nat)
    returns (all': seq<nat>, off': nat)
    requires i < |ss| && Begun(Joined(ts, ss, i, shift), offs, |ts| + i, off) && all == Flat(Joined(ts, ss, i, shift))
    ensures Begun(Joined(ts, ss, i + 1, shift), offs + [off], |ts| + i + 1, off')
    ensures all' == Flat(Joined(ts, ss, i + 1, shift)) && |all'| == |all|
  {
    hide Record;
    hide RecordWords;
    hide Flat;
    hide ShiftedType;
    hide WellFormed;
    hide InfoOf;
    hide Joined;
    JoinedStep(ts, ss, i, shift);
    ghost var cur, next := Joined(ts, ss, i, shift), Joined(ts, ss, i + 1, shift);
    all' := ShiftRecord(all, off, shift, cur, |ts| + i);
    SameInfo(cur[|ts| + i], shift);
    BegunStep(cur, next, offs, |ts| + i, off);
    SameLength(cur, next);
    off' := off + RecordWords(InfoOf(all[off + 1]));
  }

  /** Copies a section behind another, fills in the index and shifts the ids. */
  method CopyShifted(data: seq<nat>, offs: seq<nat>, src: seq<nat>, cnt: nat, shift: nat,
                     ghost ts: seq<BtfType>, ghost ss: seq<BtfType>)
    returns (all: seq<nat>, newOffs: seq<nat>)
    requires Buildable(ts) && Buildable(ss) && data == Flat(ts) && offs == Offsets(ts) && src == Flat(ss) && cnt == |ss|
    ensures var r := ts + ShiftedTypes(ss, shift);
            Buildable(r) && all == Flat(r) && newOffs == Offsets(r) && |all| == |data| + |src|
  {
    hide Record;
    hide RecordWords;
    hide Flat;
    hide ShiftedType;
    hide WellFormed;
    hide InfoOf;
    FlatConcat(ts, ss);
    JoinedEnds(ts, ss, shift);
    hide Joined;
    BegunStarts(ts, ss);
    all, newOffs := data + src, offs;
    var off: nat := |data|;
    for i := 0 to cnt
      invariant Begun(Joined(ts, ss, i, shift), newOffs, |ts| + i, off)
      invariant all == Flat(Joined(ts, ss, i, shift)) && |all| == |data| + |src|
    {
      hide Begun;
      var all', off' := ShiftNext(all, newOffs, off, shift, ts, ss, i);
      all, newOffs, off := all', newOffs + [off], off';
    }
    assert newOffs == Offsets(Joined(ts, ss, cnt, shift));
  }

  lemma SameInfo(t: BtfType, shift: nat)
    ensures ShiftedType(t, shift).info == t.info
  {
  }

  lemma JoinedEnds(a: seq<BtfType>, b: seq<BtfType>, shift: nat)
    ensures Joined(a, b, 0, shift) == a + b && Joined(a, b, |b|, shift) == a + ShiftedTypes(b, shift)
  {
    assert ShiftedTypes(b, shift)[..|b|] == ShiftedTypes(b, shift);
  }

  lemma BegunStarts(a: seq<BtfType>, b: seq<BtfType>)
    requires Buildable(a) && Buildable(a + b)
    ensures Begun(a + b, Offsets(a), |a|, |Flat(a)|)
  {
    hide Flat;
    assert (a + b)[..|a|] == a;
    forall i | 0 <= i < |a| ensures Offsets(a + b)[i] == Offsets(a)[i] {
      assert (a + b)[..i] == a[..i];
    }
    assert Offsets(a) == Offsets(a + b)[..|a|];
  }

  /** Records keep their sizes. */
  lemma {:induction false} SameLength(ts: seq<BtfType>, ts': seq<BtfType>)
    requires Buildable(ts) && Buildable(ts') && |ts| == |ts'| && forall i :: 0 <= i < |ts| ==> ts[i].info == ts'[i].info
    ensures |Flat(ts)| == |Flat(ts')|
    decreases |ts|
  {
    hide Record;
    hide RecordWords;
    if ts != [] {
      SameLength(ts[..|ts| - 1], ts'[..|ts| - 1]);
    }
  }
}
