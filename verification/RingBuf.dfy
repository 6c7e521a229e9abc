/** The user-space ring buffer: one reserving producer, commits in any order from any
    thread, and one consumer, interleaved at every load and store of shared memory.

    Positions are byte counts that only grow.  The ring is an array of 8-byte cells; a
    record is a header cell followed by the cells of its sample.  The double mapping of
    the ring makes addresses beyond its end continue at its start. */
module RingBuf {

  const BUSY_BIT: nat := 0x8000_0000
  const DISCARD_BIT: nat := 0x4000_0000
  const HDR_SZ: nat := 8

  // ------------------------------------------------------------------
  // Arithmetic
  // ------------------------------------------------------------------

  /** Bytes that a record with a sample of the given size takes up. */
  function TotalSize(size: nat): nat { (size + HDR_SZ + 7) / 8 * 8 }

  /** What the consumer skips for a header word: flags masked out, header added, rounded up. */
  function RoundupLen(len: nat): nat { (len % DISCARD_BIT + HDR_SZ + 7) / 8 * 8 }

  predicate IsBusy(len: nat) { len / BUSY_BIT % 2 == 1 }

  predicate IsDiscarded(len: nat) { len / DISCARD_BIT % 2 == 1 }

  /** len & ~BUSY, and | DISCARD if asked for. */
  function CommitLen(len: nat, discard: bool): nat {
    var l := if IsBusy(len) then len - BUSY_BIT else len;
    if discard && !IsDiscarded(l) then l + DISCARD_BIT else l
  }

  function SampleCells(size: nat): nat { TotalSize(size) / 8 - 1 }

  /** Cell of the ring in which a byte position lies; the ring has n cells. */
  function CellOf(pos: nat, n: nat): (c: nat)
    requires n > 0
    ensures c < n
  {
    pos / 8 % n
  }

  lemma HeaderWords(size: nat)
    requires size < DISCARD_BIT
    ensures IsBusy(size + BUSY_BIT) && !IsBusy(size) && !IsBusy(size + DISCARD_BIT)
    ensures !IsDiscarded(size) && IsDiscarded(size + DISCARD_BIT) && !IsDiscarded(size + BUSY_BIT)
    ensures RoundupLen(size) == RoundupLen(size + DISCARD_BIT) == RoundupLen(size + BUSY_BIT) == TotalSize(size)
    ensures CommitLen(size + BUSY_BIT, false) == size && CommitLen(size + BUSY_BIT, true) == size + DISCARD_BIT
    ensures TotalSize(size) % 8 == 0 && HDR_SZ + size <= TotalSize(size) < HDR_SZ + size + 8
    ensures TotalSize(size) == 8 + 8 * SampleCells(size)
  {
  }

  lemma TotalCells(size: nat)
    ensures TotalSize(size) == 8 + 8 * SampleCells(size)
  {
  }

  lemma TotalPositive(size: nat)
    ensures TotalSize(size) >= 8
  {
  }

  lemma MulAtLeast(m: nat, k: int)
    requires k >= 1
    ensures m * k >= m
  {
  }

  lemma MulDistributes(m: int, a: int, b: int)
    ensures m * (a - b) == m * a - m * b
  {
  }

  /** Quotient and remainder are the only way to split x by m. */
  lemma DivUnique(x: int, m: nat, q: int, r: nat)
    requires r < m && x == m * q + r
    ensures x / m == q && x % m == r
  {
    var k := q - x / m;
    assert x == m * (x / m) + x % m;
    MulDistributes(m, q, x / m);
    if k >= 1 {
      MulAtLeast(m, k);
    } else if k <= -1 {
      MulAtLeast(m, -k);
      MulDistributes(m, x / m, q);
    }
  }

  lemma ModDistinct(x: nat, y: nat, n: nat)
    requires x < y < x + n
    ensures x % n != y % n
  {
    if x % n == y % n {
      assert x == n * (x / n) + x % n && y == n * (y / n) + y % n;
      MulDistributes(n, y / n, x / n);
      var k := y / n - x / n;
      if k >= 1 {
        MulAtLeast(n, k);
      } else {
        MulAtLeast(n, 1 - k);
        MulDistributes(n, 1, k);
      }
      assert false;
    }
  }

  /** Aligned positions less than a ring apart lie in different cells. */
  lemma CellsDistinct(a: nat, b: nat, n: nat)
    requires n > 0 && a % 8 == 0 && b % 8 == 0
    requires a < b < a + 8 * n
    ensures CellOf(a, n) != CellOf(b, n)
  {
    ModDistinct(a / 8, b / 8, n);
  }

  lemma AlignedOffset(p: nat, n: nat)
    requires n > 0 && p % 8 == 0
    ensures p % (8 * n) == 8 * CellOf(p, n) <= 8 * n - 8
  {
    var q, r := p / 8 / n, p / 8 % n;
    assert p == 8 * (n * q + r);
    MulAssociates(8, n, q);
    DivUnique(p, 8 * n, q, 8 * r);
  }

  lemma MulAssociates(a: int, b: int, c: int)
    ensures a * (b * c) == a * b * c
  {
  }

  /** The sample pointer that reserve returns, as an offset into the mapping. */
  function SampleOff(prod: nat, n: nat): nat
    requires n > 0
  {
    (prod + HDR_SZ) % (8 * n)
  }

  /** Where commit looks for the header of a sample. */
  function HdrOff(sample: nat, n: nat): int
    requires n > 0
  {
    (8 * n + sample - HDR_SZ) % (8 * n)
  }

  /** Commit finds the header that reserve wrote, also when the sample begins at the
      start of the ring; and the sample lies inside the double mapping. */
  lemma HeaderRecovered(prod: nat, size: nat, n: nat)
    requires n > 0 && prod % 8 == 0 && TotalSize(size) <= 8 * n
    ensures HdrOff(SampleOff(prod, n), n) == prod % (8 * n) == 8 * CellOf(prod, n)
    ensures SampleOff(prod, n) + size <= 2 * (8 * n)
  {
    var m := 8 * n;
    var q, r := prod / m, prod % m;
    AlignedOffset(prod, n);
    assert prod == m * q + r;
    if r + 8 == m {
      MulDistributes(m, q, -1);
      DivUnique(prod + 8, m, q + 1, 0);
      DivUnique(m - 8, m, 0, r);
    } else {
      DivUnique(prod + 8, m, q, r + 8);
      DivUnique(m + r, m, 1, r);
    }
  }

  /** Addresses taken relative to a masked position reach the same cells. */
  lemma OffsetWraps(p: nat, k: nat, n: nat)
    requires n > 0 && p % 8 == 0 && k % 8 == 0
    ensures CellOf(p % (8 * n) + k, n) == CellOf(p + k, n)
  {
    AlignedOffset(p, n);
    var q, r := p / 8 / n, CellOf(p, n);
    var x := r + k / 8;
    assert p / 8 == n * q + r;
    assert (p + k) / 8 == n * q + x;
    assert x == n * (x / n) + x % n;
    MulDistributes(n, q, -(x / n));
    DivUnique((p + k) / 8, n, q + x / n, x % n);
  }

  // ------------------------------------------------------------------
  // The state machine
  // ------------------------------------------------------------------

  datatype Option<T> = None | Some(value: T)

  datatype Cell = Hdr(len: nat) | Data(value: int)

  datatype Status = Busy | Submitted | Discarded

  /** A record that was reserved: `committing` holds the header word that a commit has
      computed and not yet exchanged, `sample` what the user had written when it did. */
  datatype Rec = Rec(start: nat, size: nat, status: Status, committing: Option<nat>, sample: seq<Cell>)

  datatype Item = Item(size: nat, sample: seq<Cell>)

  datatype Producer =
    | NotReserving
    | HaveCons(size: nat, cons: nat)
    | HaveBoth(size: nat, cons: nat, prod: nat)
    | HdrWritten(size: nat, prod: nat, total: nat)

  datatype Phase = NotConsuming | NeedProd | Scanning | HaveLen | Storing

  /** Locals of the consuming loop.  `base` and `goal` only say what the loop owes: the
      deliveries before the call, and a number of records that were all committed then. */
  datatype Consumer = Consumer(phase: Phase, cons: nat, prod: nat, got: bool, len: nat, cnt: nat, err: bool,
                               base: nat, goal: nat)

  /** `recs` and `delivered` are the history: all published records, all callbacks made;
      the consumer has passed the first `done` records. */
  datatype State = State(n: nat, mem: seq<Cell>, prodPos: nat, consPos: nat, producer: Producer, consumer: Consumer,
                         recs: seq<Rec>, delivered: seq<Item>, done: nat)

  datatype Action =
    | ReserveLoadCons(size: nat)
    | ReserveLoadProd
    | ReserveRefused
    | ReserveWriteHdr
    | ReservePublish
    | WriteSample(rec: nat, cell: nat, content: Cell)
    | CommitLoad(rec: nat, discard: bool)
    | CommitExchange(rec: nat)
    | ConsumeStart(goal: nat)
    | ConsumeLoadProd
    | ConsumeLoadLen
    | ConsumeBusy
    | ConsumeTake(err: bool)
    | ConsumeStore
    | ConsumeEndPass

  predicate Shape(s: State) { s.n > 0 && |s.mem| == s.n }

  /** Both size checks of reserve pass. */
  predicate Fits(n: nat, size: nat, cons: nat, prod: nat) {
    TotalSize(size) <= 8 * n && 8 * n - (prod - cons) >= TotalSize(size)
  }

  function HdrCell(start: nat, n: nat): (c: nat)
    requires n > 0
    ensures c < n
  {
    CellOf(HdrOff(SampleOff(start, n), n), n)
  }

  /** Cells from an offset into the mapping on. */
  function ReadCells(mem: seq<Cell>, off: nat, count: nat): (r: seq<Cell>)
    requires |mem| > 0
    ensures |r| == count
  {
    seq(count, j requires 0 <= j < count => mem[CellOf(off + 8 * j, |mem|)])
  }

  /** The record after its header word was exchanged for len. */
  function Committed(mem: seq<Cell>, r: Rec, len: nat): Rec
    requires |mem| > 0
  {
    r.(status := if IsDiscarded(len) then Discarded else Submitted,
       committing := None,
       sample := ReadCells(mem, SampleOff(r.start, |mem|), SampleCells(r.size)))
  }

  predicate Enabled(s: State, a: Action)
    requires Shape(s)
  {
    match a
    case ReserveLoadCons(size) => s.producer.NotReserving? && size < DISCARD_BIT
    case ReserveLoadProd => s.producer.HaveCons?
    case ReserveRefused => s.producer.HaveBoth? && !Fits(s.n, s.producer.size, s.producer.cons, s.producer.prod)
    case ReserveWriteHdr => s.producer.HaveBoth? && Fits(s.n, s.producer.size, s.producer.cons, s.producer.prod)
    case ReservePublish => s.producer.HdrWritten?
    case WriteSample(i, j, c) =>
      i < |s.recs| && s.recs[i].status.Busy? && s.recs[i].committing.None? && j < SampleCells(s.recs[i].size)
    case CommitLoad(i, discard) =>
      i < |s.recs| && s.recs[i].status.Busy? && s.recs[i].committing.None? && s.mem[HdrCell(s.recs[i].start, s.n)].Hdr?
    case CommitExchange(i) => i < |s.recs| && s.recs[i].committing.Some?
    case ConsumeStart(goal) =>
      s.consumer.phase.NotConsuming? && goal <= |s.recs| && forall i :: 0 <= i < goal ==> !s.recs[i].status.Busy?
    case ConsumeLoadProd => s.consumer.phase.NeedProd?
    case ConsumeLoadLen =>
      s.consumer.phase.Scanning? && s.consumer.cons < s.consumer.prod && s.mem[CellOf(s.consumer.cons, s.n)].Hdr?
    case ConsumeBusy => s.consumer.phase.HaveLen? && IsBusy(s.consumer.len)
    case ConsumeTake(err) =>
      s.consumer.phase.HaveLen? && !IsBusy(s.consumer.len) && (err ==> !IsDiscarded(s.consumer.len))
    case ConsumeStore => s.consumer.phase.Storing?
    case ConsumeEndPass => s.consumer.phase.Scanning? && s.consumer.prod <= s.consumer.cons
  }

  function Apply(s: State, a: Action): (r: State)
    requires Shape(s) && Enabled(s, a)
    ensures Shape(r) && r.n == s.n
  {
    match a
    case ReserveLoadCons(size) => s.(producer := HaveCons(size, s.consPos))
    case ReserveLoadProd => s.(producer := HaveBoth(s.producer.size, s.producer.cons, s.prodPos))
    case ReserveRefused => s.(producer := NotReserving)
    case ReserveWriteHdr =>
      var p := s.producer;
      s.(mem := s.mem[CellOf(p.prod, s.n) := Hdr(p.size + BUSY_BIT)],
         producer := HdrWritten(p.size, p.prod, TotalSize(p.size)))
    case ReservePublish =>
      var p := s.producer;
      s.(prodPos := p.prod + p.total,
         recs := s.recs + [Rec(p.prod, p.size, Busy, None, [])],
         producer := NotReserving)
    case WriteSample(i, j, c) =>
      s.(mem := s.mem[CellOf(SampleOff(s.recs[i].start, s.n) + 8 * j, s.n) := c])
    case CommitLoad(i, discard) =>
      var len := s.mem[HdrCell(s.recs[i].start, s.n)].len;
      s.(recs := s.recs[i := s.recs[i].(committing := Some(CommitLen(len, discard)))])
    case CommitExchange(i) =>
      var r := s.recs[i];
      var len := r.committing.value;
      s.(mem := s.mem[HdrCell(r.start, s.n) := Hdr(len)],
         recs := s.recs[i := Committed(s.mem, r, len)])
    case ConsumeStart(goal) =>
      s.(consumer := Consumer(NeedProd, s.consPos, 0, false, 0, 0, false, |s.delivered|, goal))
    case ConsumeLoadProd => s.(consumer := s.consumer.(phase := Scanning, prod := s.prodPos, got := false))
    case ConsumeLoadLen =>
      s.(consumer := s.consumer.(phase := HaveLen, len := s.mem[CellOf(s.consumer.cons, s.n)].len))
    case ConsumeBusy => s.(consumer := s.consumer.(phase := NotConsuming))
    case ConsumeTake(err) =>
      var c := s.consumer;
      var next := c.cons + RoundupLen(c.len);
      if IsDiscarded(c.len) then
        s.(consumer := c.(phase := Storing, got := true, cons := next, err := false), done := s.done + 1)
      else
        var item := Item(c.len, ReadCells(s.mem, c.cons % (8 * s.n) + HDR_SZ, SampleCells(c.len)));
        s.(consumer := c.(phase := Storing, got := true, cons := next, err := err,
                          cnt := if err then c.cnt else c.cnt + 1),
           delivered := s.delivered + [item],
           done := s.done + 1)
    case ConsumeStore =>
      var c := s.consumer;
      s.(consPos := c.cons, consumer := c.(phase := if c.err then NotConsuming else Scanning))
    case ConsumeEndPass =>
      s.(consumer := s.consumer.(phase := if s.consumer.got then NeedProd else NotConsuming))
  }

  // ------------------------------------------------------------------
  // The invariant
  // ------------------------------------------------------------------

  function Word(r: Rec): nat {
    match r.status
    case Busy => r.size + BUSY_BIT
    case Submitted => r.size
    case Discarded => r.size + DISCARD_BIT
  }

  /** Where record i begins; the end of the last record is the producer position. */
  function PosOf(recs: seq<Rec>, prod: nat, i: nat): nat {
    if i < |recs| then recs[i].start else prod
  }

  predicate RecOk(r: Rec) {
    && r.size < DISCARD_BIT && r.start % 8 == 0
    && (r.committing.Some? ==> r.status.Busy? && r.committing.value in {r.size, r.size + DISCARD_BIT})
  }

  predicate Adjacent(recs: seq<Rec>, prod: nat, i: nat)
    requires i < |recs|
  {
    recs[i].start + TotalSize(recs[i].size) == PosOf(recs, prod, i + 1)
  }

  /** Records lie back to back up to the producer position. */
  predicate Chain(recs: seq<Rec>, prod: nat) {
    && prod % 8 == 0
    && (forall i :: 0 <= i < |recs| ==> RecOk(recs[i]))
    && (forall i :: 0 <= i < |recs| ==> Adjacent(recs, prod, i))
  }

  /** The ring holds what a live record says. */
  predicate Stored(mem: seq<Cell>, r: Rec)
    requires |mem| > 0
  {
    && mem[CellOf(r.start, |mem|)] == Hdr(Word(r))
    && (r.status.Submitted? ==> r.sample == ReadCells(mem, r.start + HDR_SZ, SampleCells(r.size)))
  }

  predicate Live(mem: seq<Cell>, recs: seq<Rec>, first: nat)
    requires |mem| > 0
  {
    forall i :: first <= i < |recs| ==> Stored(mem, recs[i])
  }

  /** The callbacks due for the first k records. */
  function Due(recs: seq<Rec>, k: nat): seq<Item>
    requires k <= |recs|
  {
    if k == 0 then []
    else if recs[k - 1].status.Submitted? then Due(recs, k - 1) + [Item(recs[k - 1].size, recs[k - 1].sample)]
    else Due(recs, k - 1)
  }

  /** First record whose space the consumer has not given back. */
  function First(s: State): int {
    if s.consumer.phase.Storing? then s.done - 1 else s.done
  }

  predicate Passed(recs: seq<Rec>, k: nat) {
    k <= |recs| && forall i :: 0 <= i < k ==> !recs[i].status.Busy?
  }

  predicate ProducerOk(p: Producer, mem: seq<Cell>, prodPos: nat, consPos: nat)
    requires |mem| > 0
  {
    match p
    case NotReserving => true
    case HaveCons(size, cons) => size < DISCARD_BIT && cons <= consPos && prodPos - cons <= 8 * |mem|
    case HaveBoth(size, cons, prod) =>
      size < DISCARD_BIT && prod == prodPos && cons <= consPos && prodPos - cons <= 8 * |mem|
    case HdrWritten(size, prod, total) =>
      && size < DISCARD_BIT && prod == prodPos && total == TotalSize(size)
      && prodPos + total - consPos <= 8 * |mem|
      && mem[CellOf(prod, |mem|)] == Hdr(size + BUSY_BIT)
  }

  predicate ConsumerOk(c: Consumer, recs: seq<Rec>, prodPos: nat, consPos: nat, deliveries: nat, done: nat) {
    && Passed(recs, c.goal) && done <= |recs|
    && c.base + c.cnt + (if c.err then 1 else 0) == deliveries
    && match c.phase
       case NotConsuming => c.err || c.goal <= done
       case NeedProd => c.cons == consPos && !c.err
       case Scanning => c.cons == consPos && !c.err && PosOf(recs, prodPos, c.goal) <= c.prod <= prodPos
       case HaveLen =>
         && c.cons == consPos && !c.err && PosOf(recs, prodPos, c.goal) <= c.prod <= prodPos
         && done < |recs|
         && (if IsBusy(c.len) then c.goal <= done else !recs[done].status.Busy? && c.len == Word(recs[done]))
       case Storing =>
         && done > 0 && c.cons == PosOf(recs, prodPos, done)
         && PosOf(recs, prodPos, c.goal) <= c.prod <= prodPos
  }

  predicate Inv(s: State) {
    && Shape(s) && Chain(s.recs, s.prodPos) && Passed(s.recs, s.done)
    && First(s) >= 0 && s.consPos == PosOf(s.recs, s.prodPos, First(s))
    && s.prodPos - s.consPos <= 8 * s.n
    && ProducerOk(s.producer, s.mem, s.prodPos, s.consPos)
    && Live(s.mem, s.recs, First(s))
    && s.delivered == Due(s.recs, s.done)
    && ConsumerOk(s.consumer, s.recs, s.prodPos, s.consPos, |s.delivered|, s.done)
  }

  function Init(mem: seq<Cell>): State {
    State(|mem|, mem, 0, 0, NotReserving, Consumer(NotConsuming, 0, 0, false, 0, 0, false, 0, 0), [], [], 0)
  }

  lemma InitInv(mem: seq<Cell>)
    requires |mem| > 0
    ensures Inv(Init(mem))
  {
  }

  // ------------------------------------------------------------------
  // Where records lie
  // ------------------------------------------------------------------

  lemma {:induction false} ChainSorted(recs: seq<Rec>, prod: nat, i: nat, j: nat)
    requires Chain(recs, prod) && i <= j <= |recs|
    ensures PosOf(recs, prod, i) <= PosOf(recs, prod, j)
    ensures i < j ==> recs[i].start + TotalSize(recs[i].size) <= PosOf(recs, prod, j)
    ensures i < j ==> PosOf(recs, prod, i) < PosOf(recs, prod, j)
    ensures PosOf(recs, prod, i) % 8 == 0
    decreases j - i
  {
    hide TotalSize;
    if i < j {
      assert Adjacent(recs, prod, i);
      TotalPositive(recs[i].size);
      ChainSorted(recs, prod, i + 1, j);
    }
  }

  /** A store in the ring leaves a record alone if it is outside of it, and both lie in a
      window of one ring. */
  lemma StoreElsewhere(mem: seq<Cell>, w: nat, c: Cell, r: Rec, lo: nat)
    requires |mem| > 0 && Stored(mem, r) && r.size < DISCARD_BIT
    requires w % 8 == 0 && r.start % 8 == 0
    requires lo <= w < lo + 8 * |mem|
    requires lo <= r.start && r.start + TotalSize(r.size) <= lo + 8 * |mem|
    requires w < r.start || r.start + TotalSize(r.size) <= w
    ensures Stored(mem[CellOf(w, |mem|) := c], r)
  {
    hide TotalSize;
    hide SampleCells;
    hide CellOf;
    var mem' := mem[CellOf(w, |mem|) := c];
    HeaderWords(r.size);
    Apart(w, r.start, |mem|);
    forall j | 0 <= j < SampleCells(r.size)
      ensures mem'[CellOf(r.start + HDR_SZ + 8 * j, |mem|)] == mem[CellOf(r.start + HDR_SZ + 8 * j, |mem|)]
    {
      Apart(w, r.start + HDR_SZ + 8 * j, |mem|);
    }
  }

  lemma Apart(a: nat, b: nat, n: nat)
    requires n > 0 && a % 8 == 0 && b % 8 == 0
    requires a < b < a + 8 * n || b < a < b + 8 * n
    ensures CellOf(a, n) != CellOf(b, n)
  {
    if a < b { CellsDistinct(a, b, n); } else { CellsDistinct(b, a, n); }
  }

  /** A store into record k, or behind the last record, leaves the other live records alone. */
  lemma LiveAfterStore(mem: seq<Cell>, recs: seq<Rec>, first: nat, prod: nat, w: nat, c: Cell, k: nat)
    requires |mem| > 0 && Chain(recs, prod) && Live(mem, recs, first) && first <= k <= |recs|
    requires prod <= PosOf(recs, prod, first) + 8 * |mem|
    requires w % 8 == 0 && PosOf(recs, prod, k) <= w < PosOf(recs, prod, first) + 8 * |mem|
    requires k < |recs| ==> w < recs[k].start + TotalSize(recs[k].size)
    ensures forall i :: first <= i < |recs| && i != k ==> Stored(mem[CellOf(w, |mem|) := c], recs[i])
  {
    hide TotalSize;
    hide CellOf;
    hide Stored;
    var lo := PosOf(recs, prod, first);
    forall i | first <= i < |recs| && i != k ensures Stored(mem[CellOf(w, |mem|) := c], recs[i]) {
      ChainSorted(recs, prod, first, i);
      ChainSorted(recs, prod, i, |recs|);
      ChainSorted(recs, prod, first, k);
      if i < k {
        ChainSorted(recs, prod, i, k);
      } else {
        ChainSorted(recs, prod, k, i);
      }
      StoreElsewhere(mem, w, c, recs[i], lo);
    }
  }

  lemma {:induction false} DueStable(recs: seq<Rec>, recs': seq<Rec>, k: nat)
    requires k <= |recs| && k <= |recs'| && recs[..k] == recs'[..k]
    ensures Due(recs, k) == Due(recs', k)
  {
    if k > 0 {
      assert recs[k - 1] == recs[..k][k - 1] == recs'[..k][k - 1] == recs'[k - 1];
      assert recs[..k - 1] == recs[..k][..k - 1] == recs'[..k][..k - 1] == recs'[..k - 1];
      DueStable(recs, recs', k - 1);
    }
  }

  // ------------------------------------------------------------------
  // Every step keeps the invariant
  // ------------------------------------------------------------------

  predicate IsReserveLoad(a: Action) { a.ReserveLoadCons? || a.ReserveLoadProd? || a.ReserveRefused? }

  lemma ReserveLoadKeeps(s: State, a: Action)
    requires Inv(s) && IsReserveLoad(a) && Enabled(s, a)
    ensures Inv(Apply(s, a))
  {
    hide TotalSize;
    hide Chain;
    hide Live;
    hide Due;
    hide Passed;
    ChainSorted(s.recs, s.prodPos, First(s), |s.recs|);
  }

  lemma WriteHdrKeeps(s: State)
    requires Inv(s) && Enabled(s, ReserveWriteHdr)
    ensures Inv(Apply(s, ReserveWriteHdr))
  {
    hide TotalSize;
    hide Chain;
    hide Due;
    hide Passed;
    hide CellOf;
    hide Stored;
    hide ConsumerOk;
    TotalPositive(s.producer.size);
    Aligned(s.recs, s.prodPos);
    ConsumerInside(s);
    LiveAfterStore(s.mem, s.recs, First(s), s.prodPos, s.prodPos, Hdr(s.producer.size + BUSY_BIT), |s.recs|);
  }

  lemma Aligned(recs: seq<Rec>, prod: nat)
    requires Chain(recs, prod)
    ensures prod % 8 == 0
  {
  }

  lemma ConsumerInside(s: State)
    requires Inv(s)
    ensures First(s) <= s.done <= |s.recs|
  {
  }

  lemma ChainGrows(recs: seq<Rec>, prod: nat, r: Rec)
    requires Chain(recs, prod) && RecOk(r) && r.start == prod
    ensures Chain(recs + [r], prod + TotalSize(r.size))
    ensures forall i :: 0 <= i <= |recs| ==> PosOf(recs + [r], prod + TotalSize(r.size), i) == PosOf(recs, prod, i)
  {
    hide CommitLen;
    HeaderWords(r.size);
    hide TotalSize;
    var recs', prod' := recs + [r], prod + TotalSize(r.size);
    forall i | 0 <= i < |recs'| ensures Adjacent(recs', prod', i) {
      if i < |recs| {
        assert Adjacent(recs, prod, i);
      }
    }
  }

  lemma PassedStable(recs: seq<Rec>, recs': seq<Rec>, k: nat)
    requires Passed(recs, k) && |recs| <= |recs'|
    requires forall i :: 0 <= i < |recs| && !recs[i].status.Busy? ==> recs'[i] == recs[i]
    ensures Passed(recs', k) && Due(recs', k) == Due(recs, k)
  {
    hide Due;
    assert recs[..k] == recs'[..k];
    DueStable(recs, recs', k);
  }

  lemma PublishKeeps(s: State)
    requires Inv(s) && Enabled(s, ReservePublish)
    ensures Inv(Apply(s, ReservePublish))
  {
    hide TotalSize;
    hide Chain;
    hide Due;
    hide CellOf;
    hide Passed;
    hide PosOf;
    var r := Rec(s.producer.prod, s.producer.size, Busy, None, []);
    var s' := Apply(s, ReservePublish);
    Aligned(s.recs, s.prodPos);
    ChainGrows(s.recs, s.prodPos, r);
    PassedStable(s.recs, s'.recs, s.done);
    PassedStable(s.recs, s'.recs, s.consumer.goal);
    PassedWithin(s.recs, s.done);
    PassedWithin(s.recs, s.consumer.goal);
  }

  lemma PassedWithin(recs: seq<Rec>, k: nat)
    requires Passed(recs, k)
    ensures k <= |recs|
  {
  }

  // ------------------------------------------------------------------
  // Commits
  // ------------------------------------------------------------------

  /** Busy records are live. */
  lemma BusyIsLive(s: State, i: nat)
    requires Inv(s) && i < |s.recs| && s.recs[i].status.Busy?
    ensures Shape(s) && First(s) <= s.done <= i
    ensures RecOk(s.recs[i]) && Stored(s.mem, s.recs[i])
    ensures s.consPos <= s.recs[i].start && s.recs[i].start + TotalSize(s.recs[i].size) <= s.prodPos
    ensures TotalSize(s.recs[i].size) <= 8 * s.n
  {
    hide TotalSize;
    hide Due;
    hide Stored;
    ChainSorted(s.recs, s.prodPos, First(s), i);
    ChainSorted(s.recs, s.prodPos, i, |s.recs|);
  }

  lemma CommitHeader(s: State, i: nat)
    requires Inv(s) && i < |s.recs| && s.recs[i].status.Busy?
    ensures HdrCell(s.recs[i].start, s.n) == CellOf(s.recs[i].start, s.n)
  {
    hide TotalSize;
    hide Inv;
    BusyIsLive(s, i);
    HeaderRecovered(s.recs[i].start, s.recs[i].size, s.n);
    OffsetWraps(s.recs[i].start, 0, s.n);
  }

  /** Replacing a busy record with one in the same place. */
  lemma ChainReplaced(recs: seq<Rec>, prod: nat, i: nat, r: Rec)
    requires Chain(recs, prod) && i < |recs| && RecOk(r) && r.start == recs[i].start && r.size == recs[i].size
    ensures Chain(recs[i := r], prod)
    ensures forall k: nat :: PosOf(recs[i := r], prod, k) == PosOf(recs, prod, k)
  {
    hide TotalSize;
    var recs' := recs[i := r];
    forall k | 0 <= k < |recs| ensures Adjacent(recs', prod, k) {
      assert Adjacent(recs, prod, k);
    }
  }

  lemma CommitLoadKeeps(s: State, i: nat, discard: bool)
    requires Inv(s) && Enabled(s, CommitLoad(i, discard))
    ensures Inv(Apply(s, CommitLoad(i, discard)))
  {
    hide ReadCells;
    hide Adjacent;
    hide Committed;
    BusyIsLive(s, i);
    CommitHeader(s, i);
    var r := s.recs[i];
    var s' := Apply(s, CommitLoad(i, discard));
    HeaderWords(r.size);
    hide TotalSize;
    hide CommitLen;
    hide RoundupLen;
    hide IsBusy;
    hide IsDiscarded;
    hide HdrCell;
    hide CellOf;
    hide Chain;
    hide Due;
    hide Passed;
    hide PosOf;
    ChainReplaced(s.recs, s.prodPos, i, s'.recs[i]);
    PassedStable(s.recs, s'.recs, s.done);
    PassedStable(s.recs, s'.recs, s.consumer.goal);
  }

  /** The cells behind a position, read through the mapping. */
  lemma ReadWraps(mem: seq<Cell>, p: nat, k: nat, count: nat)
    requires |mem| > 0 && p % 8 == 0 && k % 8 == 0
    ensures ReadCells(mem, p % (8 * |mem|) + k, count) == ReadCells(mem, p + k, count)
  {
    hide CellOf;
    forall j | 0 <= j < count
      ensures CellOf(p % (8 * |mem|) + k + 8 * j, |mem|) == CellOf(p + k + 8 * j, |mem|)
    {
      OffsetWraps(p, k + 8 * j, |mem|);
    }
  }

  /** The store of a header does not touch the sample behind it. */
  lemma ReadBehind(mem: seq<Cell>, p: nat, c: Cell, count: nat)
    requires |mem| > 0 && p % 8 == 0 && count < |mem|
    ensures ReadCells(mem[CellOf(p, |mem|) := c], p + HDR_SZ, count) == ReadCells(mem, p + HDR_SZ, count)
  {
    hide CellOf;
    forall j | 0 <= j < count
      ensures CellOf(p + HDR_SZ + 8 * j, |mem|) != CellOf(p, |mem|)
    {
      Apart(p, p + HDR_SZ + 8 * j, |mem|);
    }
  }

  /** The producer's pending header lies behind the live records. */
  lemma PendingKept(s: State, w: nat, c: Cell)
    requires Inv(s) && w % 8 == 0 && s.consPos <= w < s.prodPos
    ensures ProducerOk(s.producer, s.mem[CellOf(w, s.n) := c], s.prodPos, s.consPos)
  {
    hide TotalSize;
    hide CellOf;
    hide Chain;
    hide Due;
    Aligned(s.recs, s.prodPos);
    if s.producer.HdrWritten? {
      TotalPositive(s.producer.size);
      Apart(w, s.prodPos, s.n);
    }
  }

  lemma CommittedStored(mem: seq<Cell>, r: Rec, len: nat)
    requires |mem| > 0 && RecOk(r) && TotalSize(r.size) <= 8 * |mem| && len in {r.size, r.size + DISCARD_BIT}
    ensures RecOk(Committed(mem, r, len)) && Word(Committed(mem, r, len)) == len
    ensures Stored(mem[CellOf(r.start, |mem|) := Hdr(len)], Committed(mem, r, len))
  {
    HeaderWords(r.size);
    hide TotalSize;
    hide RoundupLen;
    hide IsBusy;
    hide IsDiscarded;
    hide CellOf;
    hide SampleCells;
    ReadWraps(mem, r.start + HDR_SZ, 0, SampleCells(r.size));
    ReadBehind(mem, r.start, Hdr(len), SampleCells(r.size));
  }

  lemma ExchangeStores(s: State, i: nat)
    requires Inv(s) && Enabled(s, CommitExchange(i))
    ensures var s' := Apply(s, CommitExchange(i));
            var r := s.recs[i];
            && r.status.Busy? && RecOk(s'.recs[i]) && Stored(s'.mem, s'.recs[i])
            && s' == s.(mem := s.mem[CellOf(r.start, s.n) := Hdr(Word(s'.recs[i]))], recs := s.recs[i := s'.recs[i]])
            && !s'.recs[i].status.Busy? && s'.recs[i].start == r.start && s'.recs[i].size == r.size
  {
    var r := s.recs[i];
    assert RecOk(r);
    hide Inv;
    hide TotalSize;
    hide HdrCell;
    hide CellOf;
    hide SampleCells;
    hide SampleOff;
    hide IsDiscarded;
    hide Stored;
    BusyIsLive(s, i);
    CommitHeader(s, i);
    CommittedStored(s.mem, r, r.committing.value);
  }

  lemma ExchangeKeeps(s: State, i: nat)
    requires Inv(s) && Enabled(s, CommitExchange(i))
    ensures Inv(Apply(s, CommitExchange(i)))
  {
    ExchangeStores(s, i);
    BusyIsLive(s, i);
    var s' := Apply(s, CommitExchange(i));
    var r := s.recs[i];
    hide Apply;
    hide Enabled;
    hide TotalSize;
    hide IsBusy;
    hide CellOf;
    hide Chain;
    hide Due;
    hide Passed;
    hide PosOf;
    hide Stored;
    TotalPositive(r.size);
    PendingKept(s, r.start, Hdr(Word(s'.recs[i])));
    LiveAfterStore(s.mem, s.recs, First(s), s.prodPos, r.start, Hdr(Word(s'.recs[i])), i);
    ChainReplaced(s.recs, s.prodPos, i, s'.recs[i]);
    PassedStable(s.recs, s'.recs, s.done);
    PassedStable(s.recs, s'.recs, s.consumer.goal);
  }

  /** Position of cell j of a sample. */
  function SamplePos(r: Rec, j: nat): nat { r.start + HDR_SZ + 8 * j }

  lemma SamplePosInside(r: Rec, j: nat)
    requires RecOk(r) && j < SampleCells(r.size)
    ensures SamplePos(r, j) % 8 == 0 && r.start < SamplePos(r, j) < r.start + TotalSize(r.size)
  {
    HeaderWords(r.size);
    hide TotalSize;
    hide SampleCells;
  }

  lemma SampleCell(start: nat, j: nat, n: nat)
    requires n > 0 && start % 8 == 0
    ensures CellOf(SampleOff(start, n) + 8 * j, n) == CellOf(start + HDR_SZ + 8 * j, n)
  {
    hide CellOf;
    OffsetWraps(start + HDR_SZ, 8 * j, n);
  }

  lemma BusyAfterStore(mem: seq<Cell>, w: nat, c: Cell, r: Rec)
    requires |mem| > 0 && r.status.Busy? && r.start % 8 == 0 && w % 8 == 0
    requires Stored(mem, r) && r.start < w < r.start + 8 * |mem|
    ensures Stored(mem[CellOf(w, |mem|) := c], r)
  {
    hide CellOf;
    Apart(r.start, w, |mem|);
  }

  lemma WriteSampleKeeps(s: State, i: nat, j: nat, c: Cell)
    requires Inv(s) && Enabled(s, WriteSample(i, j, c))
    ensures Inv(Apply(s, WriteSample(i, j, c)))
  {
    hide TotalSize;
    hide SampleCells;
    hide CellOf;
    hide SampleOff;
    hide SamplePos;
    hide Chain;
    hide Due;
    hide Passed;
    hide ConsumerOk;
    hide ProducerOk;
    hide Stored;
    var r, w := s.recs[i], SamplePos(s.recs[i], j);
    BusyIsLive(s, i);
    SamplePosInside(r, j);
    SampleCell(r.start, j, s.n);
    assert w == r.start + HDR_SZ + 8 * j by { SamplePosIs(r, j); }
    var s' := s.(mem := s.mem[CellOf(w, s.n) := c]);
    assert Apply(s, WriteSample(i, j, c)) == s';
    PendingKept(s, w, c);
    LiveAfterStore(s.mem, s.recs, First(s), s.prodPos, w, c, i);
    BusyAfterStore(s.mem, w, c, r);
  }

  lemma SamplePosIs(r: Rec, j: nat)
    ensures SamplePos(r, j) == r.start + HDR_SZ + 8 * j
  {
  }

  // ------------------------------------------------------------------
  // The consumer
  // ------------------------------------------------------------------

  predicate IsConsumeLoad(a: Action) { a.ConsumeStart? || a.ConsumeLoadProd? || a.ConsumeBusy? }

  lemma ConsumeLoadKeeps(s: State, a: Action)
    requires Inv(s) && IsConsumeLoad(a) && Enabled(s, a)
    ensures Inv(Apply(s, a))
  {
    hide TotalSize;
    hide Chain;
    hide Due;
    hide IsBusy;
    hide Live;
    hide ProducerOk;
    ChainSorted(s.recs, s.prodPos, s.consumer.goal, |s.recs|);
  }

  /** The record the scanning consumer looks at. */
  lemma ScannedRecord(s: State)
    requires Inv(s)
    requires (s.consumer.phase.Scanning? && s.consumer.cons < s.consumer.prod) || s.consumer.phase.HaveLen?
    ensures s.done < |s.recs| && First(s) == s.done && s.consumer.cons == s.consPos == s.recs[s.done].start
    ensures RecOk(s.recs[s.done]) && Stored(s.mem, s.recs[s.done]) && Adjacent(s.recs, s.prodPos, s.done)
  {
    hide TotalSize;
    hide Due;
    hide IsBusy;
    hide Stored;
    hide ProducerOk;
  }

  lemma LoadLenKeeps(s: State)
    requires Inv(s) && Enabled(s, ConsumeLoadLen)
    ensures Inv(Apply(s, ConsumeLoadLen))
  {
    ScannedRecord(s);
    HeaderWords(s.recs[s.done].size);
    hide TotalSize;
    hide RoundupLen;
    hide IsBusy;
    hide IsDiscarded;
    hide CellOf;
    hide Chain;
    hide Due;
    hide Live;
    hide ProducerOk;
  }

  /** Leaving the scan without new data: everything committed at the start was passed. */
  lemma EndPassKeeps(s: State)
    requires Inv(s) && Enabled(s, ConsumeEndPass)
    ensures Inv(Apply(s, ConsumeEndPass))
  {
    hide TotalSize;
    hide Chain;
    hide Due;
    hide Live;
    hide ProducerOk;
    if s.done < s.consumer.goal {
      ChainSorted(s.recs, s.prodPos, s.done, s.consumer.goal);
    }
  }

  lemma StoreKeeps(s: State)
    requires Inv(s) && Enabled(s, ConsumeStore)
    ensures Inv(Apply(s, ConsumeStore))
  {
    hide TotalSize;
    hide Chain;
    hide Due;
    hide Stored;
    ChainSorted(s.recs, s.prodPos, s.done - 1, s.done);
    ChainSorted(s.recs, s.prodPos, s.done, |s.recs|);
  }

  /** What the callback sees is what was committed. */
  lemma TakenSample(mem: seq<Cell>, r: Rec)
    requires |mem| > 0 && RecOk(r) && Stored(mem, r) && r.status.Submitted?
    ensures ReadCells(mem, r.start % (8 * |mem|) + HDR_SZ, SampleCells(r.size)) == r.sample
  {
    hide SampleCells;
    hide CellOf;
    ReadWraps(mem, r.start, HDR_SZ, SampleCells(r.size));
  }

  /** What the consumer makes of the header word of a committed record. */
  lemma CommittedWord(r: Rec)
    requires RecOk(r) && !r.status.Busy?
    ensures RoundupLen(Word(r)) == TotalSize(r.size)
    ensures IsDiscarded(Word(r)) == r.status.Discarded?
  {
    HeaderWords(r.size);
  }

  lemma TakeKeeps(s: State, err: bool)
    requires Inv(s) && Enabled(s, ConsumeTake(err))
    ensures Inv(Apply(s, ConsumeTake(err)))
  {
    hide Stored;
    ScannedRecord(s);
    var r := s.recs[s.done];
    CommittedWord(r);
    hide TotalSize;
    hide RoundupLen;
    hide SampleCells;
    hide IsBusy;
    hide IsDiscarded;
    hide CellOf;
    hide Chain;
    hide ProducerOk;
    hide Live;
    hide ReadCells;
    if r.status.Submitted? {
      TakenSample(s.mem, r);
    }
  }

  /** Header words are looked for only where there are headers: no step is stuck. */
  lemma HeadersFound(s: State)
    requires Inv(s)
    ensures forall i :: 0 <= i < |s.recs| && s.recs[i].status.Busy? ==> s.mem[HdrCell(s.recs[i].start, s.n)].Hdr?
    ensures (s.consumer.phase.Scanning? && s.consumer.cons < s.consumer.prod) ==>
              s.mem[CellOf(s.consumer.cons, s.n)].Hdr?
  {
    forall i | 0 <= i < |s.recs| && s.recs[i].status.Busy? ensures s.mem[HdrCell(s.recs[i].start, s.n)].Hdr? {
      BusyIsLive(s, i);
      CommitHeader(s, i);
    }
    if s.consumer.phase.Scanning? && s.consumer.cons < s.consumer.prod {
      ScannedRecord(s);
    }
  }

  lemma StepKeeps(s: State, a: Action)
    requires Inv(s) && Enabled(s, a)
    ensures Inv(Apply(s, a))
  {
    hide Inv;
    hide Enabled;
    hide Apply;
    match a
    case ReserveLoadCons(size) => ReserveLoadKeeps(s, a);
    case ReserveLoadProd => ReserveLoadKeeps(s, a);
    case ReserveRefused => ReserveLoadKeeps(s, a);
    case ReserveWriteHdr => WriteHdrKeeps(s);
    case ReservePublish => PublishKeeps(s);
    case WriteSample(i, j, c) => WriteSampleKeeps(s, i, j, c);
    case CommitLoad(i, discard) => CommitLoadKeeps(s, i, discard);
    case CommitExchange(i) => ExchangeKeeps(s, i);
    case ConsumeStart(goal) => ConsumeLoadKeeps(s, a);
    case ConsumeLoadProd => ConsumeLoadKeeps(s, a);
    case ConsumeLoadLen => LoadLenKeeps(s);
    case ConsumeBusy => ConsumeLoadKeeps(s, a);
    case ConsumeTake(err) => TakeKeeps(s, err);
    case ConsumeStore => StoreKeeps(s);
    case ConsumeEndPass => EndPassKeeps(s);
  }

  // ------------------------------------------------------------------
  // Whole runs
  // ------------------------------------------------------------------

  /** The actions lead from s to t, one enabled step after another. */
  predicate Runs(s: State, actions: seq<Action>, t: State)
    decreases |actions|
  {
    if actions == [] then t == s
    else Shape(s) && Enabled(s, actions[0]) && Runs(Apply(s, actions[0]), actions[1..], t)
  }

  lemma {:induction false} RunKeeps(s: State, actions: seq<Action>, t: State)
    requires Inv(s) && Runs(s, actions, t)
    ensures Inv(t)
    decreases |actions|
  {
    if actions != [] {
      hide Inv;
      hide Enabled;
      hide Apply;
      assert Shape(s) by { InvShape(s); }
      StepKeeps(s, actions[0]);
      RunKeeps(Apply(s, actions[0]), actions[1..], t);
    }
  }

  lemma InvShape(s: State)
    requires Inv(s)
    ensures Shape(s)
  {
  }

  /** Cells of the ring that a record occupies. */
  predicate Occupies(r: Rec, n: nat, cell: nat)
    requires n > 0
  {
    exists k :: 0 <= k <= SampleCells(r.size) && cell == CellOf(r.start + 8 * k, n)
  }

  /** Two live records lie in one ring's length, one behind the other. */
  lemma LiveSpans(s: State, i: nat, j: nat)
    requires Inv(s) && First(s) <= i < j < |s.recs|
    ensures RecOk(s.recs[i]) && RecOk(s.recs[j])
    ensures s.recs[i].start + TotalSize(s.recs[i].size) <= s.recs[j].start
    ensures s.recs[j].start + TotalSize(s.recs[j].size) <= s.recs[i].start + 8 * s.n
  {
    hide TotalSize;
    hide CellOf;
    hide Live;
    hide Due;
    hide ProducerOk;
    hide ConsumerOk;
    ChainSorted(s.recs, s.prodPos, First(s), i);
    ChainSorted(s.recs, s.prodPos, i, j);
    ChainSorted(s.recs, s.prodPos, j, |s.recs|);
  }

  lemma OccupiesAt(r: Rec, n: nat, cell: nat) returns (p: nat)
    requires n > 0 && RecOk(r) && Occupies(r, n, cell)
    ensures p % 8 == 0 && r.start <= p < r.start + TotalSize(r.size) && cell == CellOf(p, n)
  {
    hide TotalSize;
    hide SampleCells;
    hide CellOf;
    var k: nat :| k <= SampleCells(r.size) && cell == CellOf(r.start + 8 * k, n);
    p := r.start + 8 * k;
    TotalCells(r.size);
  }

  /** No two live records share a cell of the ring. */
  lemma LiveDisjoint(s: State, i: nat, j: nat, cell: nat)
    requires Inv(s) && First(s) <= i < j < |s.recs|
    ensures !(Occupies(s.recs[i], s.n, cell) && Occupies(s.recs[j], s.n, cell))
  {
    InvShape(s);
    LiveSpans(s, i, j);
    hide Inv;
    hide TotalSize;
    hide CellOf;
    hide Occupies;
    if Occupies(s.recs[i], s.n, cell) && Occupies(s.recs[j], s.n, cell) {
      var p := OccupiesAt(s.recs[i], s.n, cell);
      var q := OccupiesAt(s.recs[j], s.n, cell);
      Apart(p, q, s.n);
    }
  }

  /** In every run from an empty ring: the callbacks made are exactly those due for the
      records passed, in the order of reservation, each once, with the size reserved and
      the bytes committed; no busy record was passed; the consumer position is a record
      boundary at most one ring behind the producer position. */
  lemma Delivery(mem: seq<Cell>, actions: seq<Action>, t: State)
    requires |mem| > 0 && Runs(Init(mem), actions, t)
    ensures Passed(t.recs, t.done) && t.delivered == Due(t.recs, t.done)
    ensures First(t) >= 0 && t.consPos == PosOf(t.recs, t.prodPos, First(t))
    ensures 0 <= t.prodPos - t.consPos <= 8 * |mem| && t.prodPos % 8 == t.consPos % 8 == 0
  {
    hide Enabled;
    hide Apply;
    InitInv(mem);
    RunKeeps(Init(mem), actions, t);
    RunSize(Init(mem), actions, t);
    ChainSorted(t.recs, t.prodPos, First(t), |t.recs|);
  }

  lemma {:induction false} RunSize(s: State, actions: seq<Action>, t: State)
    requires Runs(s, actions, t)
    ensures t.n == s.n
    decreases |actions|
  {
    if actions != [] {
      hide Enabled;
      RunSize(Apply(s, actions[0]), actions[1..], t);
    }
  }

  /** A consuming call that returns without error has passed every record of a prefix that
      was committed when it began, and returns the number of callbacks it made. */
  lemma ConsumeComplete(mem: seq<Cell>, actions: seq<Action>, t: State)
    requires |mem| > 0 && Runs(Init(mem), actions, t)
    requires t.consumer.phase.NotConsuming? && !t.consumer.err
    ensures t.consumer.goal <= t.done
    ensures t.consumer.cnt == |t.delivered| - t.consumer.base
  {
    hide Enabled;
    hide Apply;
    InitInv(mem);
    RunKeeps(Init(mem), actions, t);
  }

  /** History only grows: committed records and callbacks made never change. */
  lemma {:induction false} HistoryGrows(s: State, actions: seq<Action>, t: State)
    requires Inv(s) && Runs(s, actions, t)
    ensures s.delivered <= t.delivered && s.done <= t.done && |s.recs| <= |t.recs|
    ensures forall i :: 0 <= i < |s.recs| ==> t.recs[i].start == s.recs[i].start && t.recs[i].size == s.recs[i].size
    ensures forall i :: 0 <= i < |s.recs| && !s.recs[i].status.Busy? ==> t.recs[i] == s.recs[i]
    decreases |actions|
  {
    if actions != [] {
      InvShape(s);
      var u := Apply(s, actions[0]);
      StepGrows(s, actions[0]);
      StepKeeps(s, actions[0]);
      hide Inv;
      hide Enabled;
      hide Apply;
      HistoryGrows(u, actions[1..], t);
    }
  }

  lemma StepGrows(s: State, a: Action)
    requires Inv(s) && Enabled(s, a)
    ensures var u := Apply(s, a);
            && s.delivered <= u.delivered && s.done <= u.done && |s.recs| <= |u.recs|
            && (forall i :: 0 <= i < |s.recs| ==> u.recs[i].start == s.recs[i].start && u.recs[i].size == s.recs[i].size)
            && (forall i :: 0 <= i < |s.recs| && !s.recs[i].status.Busy? ==> u.recs[i] == s.recs[i])
  {
    hide TotalSize;
    hide CellOf;
    hide IsBusy;
    hide IsDiscarded;
    hide Live;
    hide ConsumerOk;
    hide ProducerOk;
    hide Due;
    if a.CommitExchange? {
      assert RecOk(s.recs[a.rec]);
    }
  }
}
