/** The layout of a BTF type record as 32-bit words. */
module BtfEncoding {
  import opened BtfTypes

  const MAX_VLEN: nat := 0xffff
  const HEADER_WORDS: nat := 3

  function KindFromNumber(n: nat): Kind {
    match n
    case 1 => Int case 2 => Ptr case 3 => Array case 4 => Struct case 5 => Union
    case 6 => Enum case 7 => Fwd case 8 => Typedef case 9 => Volatile case 10 => Const
    case 11 => Restrict case 12 => Func case 13 => FuncProto case 14 => Var case 15 => Datasec
    case 16 => Float case 17 => DeclTag case 18 => TypeTag case 19 => Enum64 case _ => Unknown
  }

  function VlenOf(w: nat): nat { w % 0x1_0000 }

  function KindOf(w: nat): Kind { KindFromNumber(w / 0x100_0000 % 32) }

  function InfoOf(w: nat): Info { Info(KindOf(w), VlenOf(w), w / 0x8000_0000 % 2 == 1) }

  lemma InfoRoundTrip(info: Info)
    requires info.vlen <= MAX_VLEN
    ensures InfoOf(InfoWord(info)) == info
    ensures InfoWord(info) < 0x1_0000_0000
  {
    var w := InfoWord(info);
    var k := KindNumber(info.kind);
    assert KindFromNumber(k) == info.kind && k < 32;
    assert w == (if info.kflag then 0x8000_0000 else 0) + k * 0x100_0000 + info.vlen;
    assert w / 0x100_0000 == (if info.kflag then 128 else 0) + k;
  }

  // ------------------------------------------------------------------
  // Positions of references and other words in a record
  // ------------------------------------------------------------------

  /** Number of words of a record; kinds without a size are rejected by the parser. */
  function RecordWords(info: Info): (n: nat)
    ensures n >= HEADER_WORDS
  {
    match info.kind
    case Int | Var | DeclTag => 4
    case Enum => 3 + 2 * info.vlen
    case Enum64 | Struct | Union | Datasec => 3 + 3 * info.vlen
    case Array => 6
    case FuncProto => 3 + 2 * info.vlen
    case _ => 3
  }

  function RefPos(info: Info, j: nat): (p: nat)
    requires j < RefCount(info)
    ensures 2 <= p < RecordWords(info)
    ensures p == 2 <==> UsesTypeWord(info.kind) && j == 0
  {
    if info.kind == Array then 3 + j
    else if info.kind == Struct || info.kind == Union then 4 + 3 * j
    else if info.kind == Datasec then 3 + 3 * j
    else if info.kind == FuncProto && j > 0 then 2 + 2 * j
    else 2
  }

  function PayloadPos(info: Info, k: nat): (p: nat)
    requires k < PayloadCount(info)
    ensures HEADER_WORDS <= p < RecordWords(info)
  {
    if info.kind == Array then 5
    else if info.kind == Struct || info.kind == Union then 3 + 3 * (k / 2) + 2 * (k % 2)
    else if info.kind == Datasec then 4 + 3 * (k / 2) + k % 2
    else if info.kind == FuncProto then 3 + 2 * k
    else 3 + k
  }

  lemma RefPosInjective(info: Info, i: nat, j: nat)
    requires i < RefCount(info) && j < RefCount(info) && i != j
    ensures RefPos(info, i) != RefPos(info, j)
  {
  }

  lemma RefPosNotPayload(info: Info, j: nat, k: nat)
    requires j < RefCount(info) && k < PayloadCount(info)
    ensures RefPos(info, j) != PayloadPos(info, k)
  {
    if info.kind == Struct || info.kind == Union {
      assert RefPos(info, j) % 3 == 1;
      assert PayloadPos(info, k) % 3 == 2 * (k % 2) % 3;
    } else if info.kind == Datasec {
      assert RefPos(info, j) % 3 == 0;
      assert PayloadPos(info, k) % 3 == 1 + k % 2;
    }
  }

  datatype Slot = Ref(j: nat) | Payload(k: nat)

  /** The words of a member of a struct, a variable of a section and a parameter. */
  function MemberSlot(q: nat): (s: Slot)
    ensures s.Ref? ==> q == 3 * s.j + 1
    ensures s.Payload? ==> q == 3 * (s.k / 2) + 2 * (s.k % 2)
  {
    if q % 3 == 1 then Ref(q / 3) else Payload(2 * (q / 3) + q % 3 / 2)
  }

  function VariableSlot(q: nat): (s: Slot)
    ensures s.Ref? ==> q == 3 * s.j
    ensures s.Payload? ==> q == 3 * (s.k / 2) + s.k % 2 + 1
  {
    if q % 3 == 0 then Ref(q / 3) else Payload(2 * (q / 3) + q % 3 - 1)
  }

  function ParamSlot(q: nat): (s: Slot)
    ensures s.Ref? ==> s.j > 0 && q == 2 * s.j - 1
    ensures s.Payload? ==> q == 2 * s.k
  {
    if q % 2 == 1 then Ref(q / 2 + 1) else Payload(q / 2)
  }

  /** Every word after the header is a reference or a payload word. */
  function SlotAt(info: Info, p: nat): (s: Slot)
    requires HEADER_WORDS <= p < RecordWords(info)
    ensures s.Ref? ==> s.j < RefCount(info) && RefPos(info, s.j) == p
    ensures s.Payload? ==> s.k < PayloadCount(info) && PayloadPos(info, s.k) == p
  {
    var q := p - 3;
    if info.kind == Array then (if q < 2 then Ref(q) else Payload(0))
    else if info.kind == Struct || info.kind == Union then MemberSlot(q)
    else if info.kind == Datasec then VariableSlot(q)
    else if info.kind == FuncProto then ParamSlot(q)
    else Payload(q)
  }

  // ------------------------------------------------------------------
  // Records
  // ------------------------------------------------------------------

  function WordAt(t: BtfType, p: nat): nat
    requires WellFormed(t) && p < RecordWords(t.info)
  {
    if p == 0 then t.name
    else if p == 1 then InfoWord(t.info)
    else if p == 2 then TypeWord(t)
    else match SlotAt(t.info, p)
      case Ref(j) => t.refs[j]
      case Payload(k) => t.payload[k]
  }

  /** The words of a record, in order. */
  function Record(t: BtfType): (ws: seq<nat>)
    requires WellFormed(t)
    ensures |ws| == RecordWords(t.info)
  {
    seq(RecordWords(t.info), p requires 0 <= p < RecordWords(t.info) => WordAt(t, p))
  }

  /** What a record of the given words says. */
  function Decode(ws: seq<nat>): (t: BtfType)
    requires |ws| >= 2 && |ws| == RecordWords(InfoOf(ws[1]))
  {
    var info := InfoOf(ws[1]);
    BtfType(ws[0], info, if UsesTypeWord(info.kind) then 0 else ws[2],
            seq(PayloadCount(info), k requires 0 <= k < PayloadCount(info) => ws[PayloadPos(info, k)]),
            seq(RefCount(info), j requires 0 <= j < RefCount(info) => ws[RefPos(info, j)]))
  }

  lemma RecordAtRef(t: BtfType, j: nat)
    requires WellFormed(t) && j < |t.refs|
    ensures Record(t)[RefPos(t.info, j)] == t.refs[j]
  {
    var p := RefPos(t.info, j);
    if p >= HEADER_WORDS {
      var s := SlotAt(t.info, p);
      if s.Ref? {
        if s.j != j {
          RefPosInjective(t.info, s.j, j);
        }
      } else {
        RefPosNotPayload(t.info, j, s.k);
      }
    }
  }

  lemma RecordAtPayload(t: BtfType, k: nat)
    requires WellFormed(t) && k < |t.payload|
    ensures Record(t)[PayloadPos(t.info, k)] == t.payload[k]
  {
    var s := SlotAt(t.info, PayloadPos(t.info, k));
    if s.Ref? {
      RefPosNotPayload(t.info, s.j, k);
    }
  }

  /** Writing a type and reading the record gives the type back. */
  lemma DecodeRecord(t: BtfType)
    requires WellFormed(t) && t.info.vlen <= MAX_VLEN
    ensures |Record(t)| == RecordWords(InfoOf(Record(t)[1])) && Decode(Record(t)) == t
  {
    InfoRoundTrip(t.info);
    var u := Decode(Record(t));
    forall j | 0 <= j < |t.refs|
      ensures u.refs[j] == t.refs[j]
    {
      RecordAtRef(t, j);
    }
    forall k | 0 <= k < |t.payload|
      ensures u.payload[k] == t.payload[k]
    {
      RecordAtPayload(t, k);
    }
    assert u.refs == t.refs && u.payload == t.payload;
  }

  /** A record's type id is replaced by overwriting one word. */
  lemma RecordPutRef(t: BtfType, j: nat, r: TypeId)
    requires WellFormed(t) && j < |t.refs|
    ensures WellFormed(t.(refs := t.refs[j := r]))
    ensures Record(t.(refs := t.refs[j := r])) == Record(t)[RefPos(t.info, j) := r]
  {
    var t' := t.(refs := t.refs[j := r]);
    forall p | 0 <= p < RecordWords(t.info)
      ensures Record(t')[p] == Record(t)[RefPos(t.info, j) := r][p]
    {
      if p == RefPos(t.info, j) {
        RecordAtRef(t', j);
      } else if p == 2 {
        assert !UsesTypeWord(t.info.kind) || j != 0;
      } else if p > 2 {
        var s := SlotAt(t.info, p);
      }
    }
  }
}
