/** The type section: records laid out one after the other, the index of their
    offsets, parsing, and byte order.  Lengths and offsets are counted in 32-bit words. */
module BtfSection {
  import opened BtfTypes
  import opened BtfEncoding

  // ------------------------------------------------------------------
  // Layout
  // ------------------------------------------------------------------

  ghost predicate Encodable(ts: seq<BtfType>) {
    forall i :: 0 <= i < |ts| ==> WellFormed(ts[i]) && ts[i].info.vlen <= MAX_VLEN
  }

  ghost function Flat(ts: seq<BtfType>): seq<nat>
    requires Encodable(ts)
  {
    if ts == [] then [] else Flat(ts[..|ts| - 1]) + Record(ts[|ts| - 1])
  }

  lemma {:induction false} FlatPrefix(ts: seq<BtfType>, i: nat)
    requires Encodable(ts) && i <= |ts|
    ensures |Flat(ts[..i])| <= |Flat(ts)| && Flat(ts)[..|Flat(ts[..i])|] == Flat(ts[..i])
    decreases |ts|
  {
    hide Flat;
    hide Record;
    hide WellFormed;
    if i == |ts| {
      assert ts[..i] == ts;
    } else {
      var n := |ts| - 1;
      FlatPrefix(ts[..n], i);
      assert ts[..n][..i] == ts[..i] && ts == ts[..n] + [ts[n]];
      FlatSnoc(ts[..n], ts[n]);
      TakeFirst(Flat(ts[..n]), Record(ts[n]), |Flat(ts[..i])|);
    }
  }

  /** The record of t is found at `off`. */
  ghost predicate Holds(ws: seq<nat>, off: nat, t: BtfType) {
    WellFormed(t) && off + RecordWords(t.info) <= |ws| && ws[off..off + RecordWords(t.info)] == Record(t)
  }

  /** Record i of a section starts after the records before it. */
  lemma FlatAt(ts: seq<BtfType>, i: nat)
    requires Encodable(ts) && i < |ts|
    ensures |Flat(ts[..i])| + RecordWords(ts[i].info) == |Flat(ts[..i + 1])|
    ensures Holds(Flat(ts), |Flat(ts[..i])|, ts[i])
  {
    assert ts[..i + 1] == ts[..i] + [ts[i]];
    FlatSnoc(ts[..i], ts[i]);
    FlatPrefix(ts, i + 1);
    var f := Flat(ts[..i + 1]);
    assert f[|Flat(ts[..i])|..] == Record(ts[i]);
    assert Flat(ts)[|Flat(ts[..i])|..|f|] == Flat(ts)[..|f|][|Flat(ts[..i])|..];
  }

  lemma TakeFirst(a: seq<nat>, b: seq<nat>, k: nat)
    requires k <= |a|
    ensures (a + b)[..k] == a[..k]
  {
  }

  lemma FlatSnoc(ts: seq<BtfType>, t: BtfType)
    requires Encodable(ts) && WellFormed(t) && t.info.vlen <= MAX_VLEN
    ensures Encodable(ts + [t]) && Flat(ts + [t]) == Flat(ts) + Record(t)
  {
    assert (ts + [t])[..|ts|] == ts;
  }

  // ------------------------------------------------------------------
  // Splitting a section into records
  // ------------------------------------------------------------------

  /** Where the record after record i starts. */
  ghost function EndOf(offs: seq<nat>, i: nat, end: nat): nat {
    if i + 1 < |offs| then offs[i + 1] else end
  }

  /** Starting at 0, each of `offs` is one record after the one before, up to `end`;
      `size` gives the size of the record at an offset, 0 if there is none. */
  ghost predicate Chunks(size: nat -> nat, offs: seq<nat>, end: nat) {
    && (if offs == [] then end == 0 else offs[0] == 0)
    && forall i :: 0 <= i < |offs| ==> size(offs[i]) > 0 && offs[i] + size(offs[i]) == EndOf(offs, i, end)
  }

  lemma ChunksDrop(size: nat -> nat, offs: seq<nat>, end: nat)
    requires Chunks(size, offs, end) && offs != []
    ensures var n := |offs| - 1;
            Chunks(size, offs[..n], offs[n]) && size(offs[n]) > 0 && offs[n] + size(offs[n]) == end
  {
    var n := |offs| - 1;
    assert size(offs[n]) > 0 && offs[n] + size(offs[n]) == EndOf(offs, n, end);
    forall i | 0 <= i < n
      ensures size(offs[..n][i]) > 0 && offs[..n][i] + size(offs[..n][i]) == EndOf(offs[..n], i, offs[n])
    {
      assert offs[i] + size(offs[i]) == EndOf(offs, i, end);
    }
  }

  lemma ChunkAt(size: nat -> nat, offs: seq<nat>, end: nat, i: nat)
    requires Chunks(size, offs, end)
    ensures i < |offs| ==> offs[i] + size(offs[i]) == if i + 1 < |offs| then offs[i + 1] else end
  {
  }

  lemma OneFurther(a: seq<nat>, b: seq<nat>, n: nat)
    requires |a| == n + 1
    ensures n < |b| && a[..n] == b[..n] && a[n] == b[n] ==> a == b[..n + 1]
  {
    assert a == a[..n] + [a[n]];
    assert n < |b| ==> b[..n + 1] == b[..n] + [b[n]];
  }

  lemma ChunksStart(size: nat -> nat, offs: seq<nat>, end: nat)
    requires Chunks(size, offs, end)
    ensures if offs == [] then end == 0 else offs[0] == 0
  {
  }

  lemma ChunksAdd(size: nat -> nat, offs: seq<nat>, off: nat)
    requires Chunks(size, offs, off) && size(off) > 0
    ensures Chunks(size, offs + [off], off + size(off))
  {
    var offs', end := offs + [off], off + size(off);
    forall i | 0 <= i < |offs'|
      ensures size(offs'[i]) > 0 && offs'[i] + size(offs'[i]) == EndOf(offs', i, end)
    {
      if i < |offs| {
        assert offs[i] + size(offs[i]) == EndOf(offs, i, off);
      }
    }
  }

  /** A partial splitting is the beginning of the only whole one. */
  lemma {:induction false} ChunksPrefix(size: nat -> nat, offs: seq<nat>, end: nat, whole: seq<nat>, total: nat)
    requires Chunks(size, offs, end) && Chunks(size, whole, total) && end <= total
    ensures |offs| <= |whole| && offs == whole[..|offs|]
    ensures end == if |offs| < |whole| then whole[|offs|] else total
    decreases |offs|
  {
    hide Chunks;
    if offs != [] {
      var n := |offs| - 1;
      ChunksDrop(size, offs, end);
      ChunksPrefix(size, offs[..n], offs[n], whole, total);
      ChunkAt(size, whole, total, n);
      OneFurther(offs, whole, n);
    } else {
      ChunksStart(size, offs, end);
      ChunksStart(size, whole, total);
    }
  }

  /** Size of the record at `off`, read from its info word; 0 if the kind is unknown
      or the record does not fit. */
  function SizeAt(ws: seq<nat>, off: nat): nat {
    if off + HEADER_WORDS > |ws| || KindOf(ws[off + 1]) == Unknown then 0
    else
      var n := RecordWords(InfoOf(ws[off + 1]));
      if off + n > |ws| then 0 else n
  }

  ghost function SizeIn(ws: seq<nat>): nat -> nat { off => SizeAt(ws, off) }

  /** `offs` are the starts of records that fill `ws` exactly, all of known kinds. */
  ghost predicate Partition(ws: seq<nat>, offs: seq<nat>) {
    Chunks(SizeIn(ws), offs, |ws|)
  }

  /** A section can be read in at most one way. */
  lemma PartitionUnique(ws: seq<nat>, offs: seq<nat>, offs': seq<nat>)
    requires Partition(ws, offs) && Partition(ws, offs')
    ensures offs == offs'
  {
    ChunksPrefix(SizeIn(ws), offs, |ws|, offs', |ws|);
    ChunksPrefix(SizeIn(ws), offs', |ws|, offs, |ws|);
  }

  // ------------------------------------------------------------------
  // Parsing
  // ------------------------------------------------------------------

  /** Build the offset index of a type section. */
  method ParseTypeSec(ws: seq<nat>) returns (err: int, offs: seq<nat>)
    ensures err == 0 || err == -EINVAL
    ensures err == 0 ==> Partition(ws, offs)
    ensures err != 0 ==> forall whole :: !Partition(ws, whole)
  {
    offs := [];
    var next := 0;
    while next + HEADER_WORDS <= |ws|
      invariant next <= |ws| && Chunks(SizeIn(ws), offs, next)
      decreases |ws| - next
    {
      var kind := KindOf(ws[next + 1]);
      var size := RecordWords(InfoOf(ws[next + 1]));
      if kind == Unknown || next + size > |ws| {
        NoPartition(ws, offs, next);
        return -EINVAL, offs;
      }
      ChunksAdd(SizeIn(ws), offs, next);
      offs := offs + [next];
      next := next + size;
    }
    if next != |ws| {
      NoPartition(ws, offs, next);
      return -EINVAL, offs;
    }
    return 0, offs;
  }

  lemma NoPartition(ws: seq<nat>, offs: seq<nat>, next: nat)
    requires Chunks(SizeIn(ws), offs, next) && next < |ws| && SizeAt(ws, next) == 0
    ensures forall whole :: !Partition(ws, whole)
  {
    forall whole
      ensures !Partition(ws, whole)
    {
      if Partition(ws, whole) {
        ChunksPrefix(SizeIn(ws), offs, next, whole, |ws|);
        assert false;
      }
    }
  }

  ghost function Offsets(ts: seq<BtfType>): (offs: seq<nat>)
    requires Encodable(ts)
    ensures |offs| == |ts| && forall i :: 0 <= i < |ts| ==> offs[i] == |Flat(ts[..i])|
  {
    seq(|ts|, i requires 0 <= i < |ts| => |Flat(ts[..i])|)
  }

  lemma RecordInFlat(ts: seq<BtfType>, i: nat)
    requires Encodable(ts) && i < |ts|
    ensures Holds(Flat(ts), Offsets(ts)[i], ts[i])
    ensures EndOf(Offsets(ts), i, |Flat(ts)|) == Offsets(ts)[i] + RecordWords(ts[i].info)
  {
    FlatAt(ts, i);
    if i + 1 == |ts| {
      assert ts[..i + 1] == ts;
    }
  }

  /** What the info word of a record says. */
  lemma InfoOfRecord(ws: seq<nat>, off: nat, t: BtfType)
    requires Holds(ws, off, t) && t.info.vlen <= MAX_VLEN
    ensures off + 1 < |ws| && InfoOf(ws[off + 1]) == t.info
  {
    InfoRoundTrip(t.info);
    assert ws[off + 1] == ws[off..off + RecordWords(t.info)][1] == InfoWord(t.info);
  }

  lemma SizeOfRecord(ws: seq<nat>, off: nat, t: BtfType)
    requires Holds(ws, off, t) && t.info.vlen <= MAX_VLEN && t.info.kind != Unknown
    ensures SizeAt(ws, off) == RecordWords(t.info)
  {
    InfoOfRecord(ws, off, t);
    assert InfoOf(ws[off + 1]).kind == KindOf(ws[off + 1]);
  }

  /** Types of known kinds that are laid out one after the other are read back. */
  lemma FlatPartition(ts: seq<BtfType>)
    requires Encodable(ts) && forall i :: 0 <= i < |ts| ==> ts[i].info.kind != Unknown
    ensures Partition(Flat(ts), Offsets(ts))
  {
    var ws, offs := Flat(ts), Offsets(ts);
    forall i | 0 <= i < |offs|
      ensures SizeIn(ws)(offs[i]) > 0 && offs[i] + SizeIn(ws)(offs[i]) == EndOf(offs, i, |ws|)
    {
      RecordInFlat(ts, i);
      SizeOfRecord(ws, offs[i], ts[i]);
    }
    if ts != [] {
      assert ts[..0] == [];
    }
  }

  /** Replacing reference j of type k overwrites one word and moves nothing. */
  lemma {:induction false} FlatPutRef(ts: seq<BtfType>, k: nat, j: nat, r: TypeId)
    requires Encodable(ts) && k < |ts| && j < |ts[k].refs|
    ensures var ts' := ts[k := ts[k].(refs := ts[k].refs[j := r])];
            var at := |Flat(ts[..k])| + RefPos(ts[k].info, j);
            Encodable(ts') && at < |Flat(ts)| && Flat(ts') == Flat(ts)[at := r]
    decreases |ts|
  {
    hide Record;
    hide RecordWords;
    hide RefPos;
    hide Flat;
    var n := |ts| - 1;
    var t' := ts[k].(refs := ts[k].refs[j := r]);
    var ts' := ts[k := t'];
    RecordPutRef(ts[k], j, r);
    hide WellFormed;
    assert Encodable(ts');
    assert ts == ts[..n] + [ts[n]] && ts' == ts'[..n] + [ts'[n]];
    FlatSnoc(ts[..n], ts[n]);
    FlatSnoc(ts'[..n], ts'[n]);
    if k < n {
      assert ts'[..n] == ts[..n][k := t'] && ts[..n][..k] == ts[..k];
      FlatPutRef(ts[..n], k, j, r);
    } else {
      assert ts'[..n] == ts[..n];
    }
  }

  /** Where reference j of type k is. */
  lemma RefInFlat(ts: seq<BtfType>, k: nat, j: nat)
    requires Encodable(ts) && k < |ts| && j < |ts[k].refs|
    ensures var at := |Flat(ts[..k])| + RefPos(ts[k].info, j);
            at < |Flat(ts)| && Flat(ts)[at] == ts[k].refs[j]
  {
    hide Record;
    hide RecordWords;
    hide Flat;
    hide RefCount;
    FlatAt(ts, k);
    RecordAtRef(ts[k], j);
    hide RefPos;
    hide WellFormed;
    var off, n := |Flat(ts[..k])|, RecordWords(ts[k].info);
    assert Flat(ts)[off..off + n][RefPos(ts[k].info, j)] == ts[k].refs[j];
  }

  /** The words and the index of a section with exactly the types ts. */
  ghost predicate Written(data: seq<nat>, offs: seq<nat>, ts: seq<BtfType>) {
    Encodable(ts) && data == Flat(ts) && offs == Offsets(ts)
  }

  lemma WrittenRef(data: seq<nat>, offs: seq<nat>, ts: seq<BtfType>, k: nat, j: nat)
    requires Written(data, offs, ts) && k < |ts| && j < |ts[k].refs|
    ensures k < |offs| && j < RefCount(ts[k].info)
    ensures var at := offs[k] + RefPos(ts[k].info, j); at < |data| && data[at] == ts[k].refs[j]
  {
    hide Flat;
    RefInFlat(ts, k, j);
  }

  lemma WrittenPutRef(data: seq<nat>, offs: seq<nat>, ts: seq<BtfType>, k: nat, j: nat, r: TypeId)
    requires Written(data, offs, ts) && k < |ts| && j < |ts[k].refs| && j < RefCount(ts[k].info)
    requires k < |offs| && offs[k] + RefPos(ts[k].info, j) < |data|
    ensures Written(data[offs[k] + RefPos(ts[k].info, j) := r], offs, ts[k := ts[k].(refs := ts[k].refs[j := r])])
  {
    hide Flat;
    hide Record;
    hide RefPos;
    var ts' := ts[k := ts[k].(refs := ts[k].refs[j := r])];
    FlatPutRef(ts, k, j, r);
    forall i | 0 <= i < |ts|
      ensures |Flat(ts'[..i])| == |Flat(ts[..i])|
    {
      if i <= k {
        assert ts'[..i] == ts[..i];
      } else {
        assert ts'[..i] == ts[..i][k := ts'[k]] && ts[..i][..k] == ts[..k];
        FlatPutRef(ts[..i], k, j, r);
      }
    }
    assert Offsets(ts') == Offsets(ts);
  }
}
