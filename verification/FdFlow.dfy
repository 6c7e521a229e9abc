/** What is known of the loader's registers and descriptors at a place in its code, and how
    code changes it: a flow analysis over structured code, proved sound for the machine. */
module FdFlow {
  import opened Ebpf

  datatype Option<T> = None | Some(value: T)

  /** A register holds this value, or the word of a slot, or the last result, or a number. */
  datatype Known = Is(v: Val) | SlotVal(k: nat) | Result | Number

  /** `used`: the slots in which an open descriptor may be; `seen`: those that ever were;
      `pend`: a register with a descriptor that no slot holds yet; `cmds`: the commands
      issued; `checked`: no command has failed; `neg`: the last result is an error;
      `outs`: words of the context that equal the word of a slot; `asked`: a call that
      reports a result was made; `home`: slots with the command whose result they hold;
      `strays`: a number may have been closed that is not known to be what it should be. */
  datatype Book = Book(known: map<nat, Known>, used: set<nat>, seen: set<nat>, pend: Option<nat>,
                       cmds: seq<int>, checked: bool, neg: bool, outs: map<int, nat>,
                       asked: bool, home: map<nat, nat>, strays: bool)

  // ------------------------------------------------------------------
  // Meaning
  // ------------------------------------------------------------------

  predicate Fact(s: State, r: nat, a: Known)
    requires Sane(s)
  {
    r < 11 &&
    match a
    case Is(v) => s.regs[r] == v
    case SlotVal(k) => k < NR_SLOTS && s.regs[r] == Num(s.slots[k])
    case Result => s.regs[r] == Num(s.last)
    case Number => s.regs[r].Num?
  }

  predicate InSlot(s: State, used: set<nat>, fd: int)
    requires Sane(s)
  {
    exists k :: k in used && k < NR_SLOTS && s.slots[k] == fd
  }

  predicate InReg(s: State, pend: Option<nat>, fd: int)
    requires Sane(s)
  {
    pend.Some? && pend.value < 11 && s.regs[pend.value] == Num(fd)
  }

  /** Every open descriptor is in a used slot or in the pending register. */
  predicate Held(s: State, used: set<nat>, pend: Option<nat>)
    requires Sane(s)
  {
    forall fd :: fd in s.open ==> 0 < fd < 0x8000_0000 && (InSlot(s, used, fd) || InReg(s, pend, fd))
  }

  predicate Facts(s: State, known: map<nat, Known>)
    requires Sane(s)
  {
    forall r :: r in known ==> Fact(s, r, known[r])
  }

  predicate Published(s: State, outs: map<int, nat>)
    requires Sane(s)
  {
    forall o :: o in outs ==> outs[o] < NR_SLOTS && o in s.out && s.out[o] == s.slots[outs[o]]
  }

  /** What commands answered: none failed, unless the state says so. */
  predicate History(s: State) {
    |s.results| == |s.cmds| && (!s.failed ==> forall i :: 0 <= i < |s.results| ==> s.results[i] >= 0)
  }

  /** Slots hold the results of their commands; n commands were issued before. */
  predicate Homes(s: State, home: map<nat, nat>, n: nat, cmds: nat)
    requires Sane(s)
  {
    forall k :: k in home ==> k < NR_SLOTS && home[k] < cmds && n + home[k] < |s.results| && s.slots[k] == s.results[n + home[k]]
  }

  /** Used slots hold different open descriptors, and stack slots that were never used
      hold zero. */
  predicate Live(s: State, home: map<nat, nat>, used: set<nat>, seen: set<nat>)
    requires Sane(s)
  {
    && (forall k :: k in home && k in used && k < NR_SLOTS ==> s.slots[k] in s.open)
    && (forall j, k :: j in home && j in used && k in home && k in used && j < NR_SLOTS && k < NR_SLOTS && j != k ==>
          s.slots[j] != s.slots[k])
    && (forall k :: 0 <= k < NR_STACK && k !in seen ==> s.slots[k] == 0)
  }

  /** A pending register holds the last result; if that is a descriptor it is open and in
      no slot. */
  predicate Pending(s: State, b: Book)
    requires Sane(s)
  {
    b.pend.Some? ==>
      && b.cmds != [] && s.results != [] && b.pend.value < 11
      && var fd := s.results[|s.results| - 1];
         && s.regs[b.pend.value] == Num(fd)
         && (fd >= 0 ==> fd < 0x8000_0000)
         && (fd >= 0 && !b.strays ==>
               fd in s.open && forall k :: k in b.home && k in b.used && k < NR_SLOTS ==> s.slots[k] != fd)
  }

  /** Where the results of commands are, of which n were issued before. */
  predicate Tracked(s: State, b: Book, n: nat)
    requires Sane(s)
  {
    History(s) && Homes(s, b.home, n, |b.cmds|) && (!b.strays ==> Live(s, b.home, b.used, b.seen)) && Pending(s, b)
  }

  /** The state is as the book says; commands that were issued before are in pre. */
  predicate Sat(s: State, b: Book, pre: seq<int>) {
    && Sane(s) && Facts(s, b.known) && Held(s, b.used, b.pend) && b.used <= b.seen
    && s.cmds == pre + b.cmds
    && (if b.checked then !s.failed else s.failed ==> s.last < 0)
    && (b.neg ==> s.last < 0)
    && Published(s, b.outs)
    && Tracked(s, b, |pre|)
  }

  /** At the clean-up label: the last result is an error and is in R7. */
  predicate Failed(s: State, seen: set<nat>, cmds: seq<int>) {
    && Sane(s) && s.regs[6] == Ctx(0) && s.regs[10] == Stack(0) && s.regs[7] == Num(s.last) && s.last < 0
    && Held(s, seen, None) && s.cmds <= cmds && History(s)
  }

  // ------------------------------------------------------------------
  // Flow
  // ------------------------------------------------------------------

  /** R6 and R10 are never given up. */
  predicate Fixed(b: Book) {
    6 in b.known && b.known[6] == Is(Ctx(0)) && 10 in b.known && b.known[10] == Is(Stack(0))
  }

  /** A register gets a new value. */
  function Put(b: Book, d: nat, a: Option<Known>): Option<Book> {
    if b.pend == Some(d) || d == 6 || d == 10 then None
    else if a.None? then Some(b.(known := b.known - {d}))
    else Some(b.(known := b.known[d := a.value]))
  }

  /** Results are collected in R7, and so are descriptors. */
  function AfterMov(b: Book, d: nat, r: nat): Option<Book> {
    var m := Put(b, d, if r in b.known then Some(b.known[r]) else None);
    if m.Some? && b.pend == Some(r) && d == 7 then Some(m.value.(pend := Some(7))) else m
  }

  function AfterAdd(b: Book, d: nat, imm: int): Option<Book> {
    Put(b, d, if d in b.known && b.known[d].Is? then Some(Is(Shifted(b.known[d].v, imm))) else None)
  }

  function AfterLoad(b: Book, size: nat, d: nat, r: nat, off: int): Option<Book> {
    if r in b.known && b.known[r].Is? && Readable(Shifted(b.known[r].v, off), size) then
      var a := Shifted(b.known[r].v, off);
      Put(b, d, Some(if size == 4 && SlotOf(a) >= 0 then SlotVal(SlotOf(a)) else Number))
    else None
  }

  function WithoutSlot(known: map<nat, Known>, k: nat): map<nat, Known> {
    map r | r in known && known[r] != SlotVal(k) :: known[r]
  }

  /** A free slot takes the pending descriptor. */
  function AfterSave(b: Book, k: nat, r: nat): Option<Book> {
    if k in b.used || b.pend != Some(r) || b.outs != map[] || b.cmds == [] || !b.checked then None
    else Some(b.(known := WithoutSlot(b.known, k), used := b.used + {k}, seen := b.seen + {k}, pend := None,
                 home := b.home[k := |b.cmds| - 1]))
  }

  function AfterStore(b: Book, size: nat, d: nat, r: nat, off: int): Option<Book> {
    if !(d in b.known && b.known[d].Is?) then None
    else
      var a := Shifted(b.known[d].v, off);
      if size == 4 && SlotOf(a) >= 0 then AfterSave(b, SlotOf(a), r)
      else if Scratch(a) then Some(b)
      else if a.Ctx? && size == 4 && r in b.known && b.known[r].SlotVal? then
        Some(b.(outs := b.outs[a.off := b.known[r].k]))
      else None
  }

  function AfterStoreImm(b: Book, d: nat, off: int): Option<Book> {
    if d in b.known && b.known[d].Is? && Scratch(Shifted(b.known[d].v, off)) then Some(b) else None
  }

  function High(known: map<nat, Known>): map<nat, Known> {
    map r | r in known && r >= 6 :: known[r]
  }

  function NoResults(known: map<nat, Known>): map<nat, Known> {
    map r | r in known && !known[r].Result? :: known[r]
  }

  predicate HasScratch(b: Book, r: nat) { r in b.known && b.known[r].Is? && Scratch(b.known[r].v) }

  predicate HasNum(b: Book, r: nat, n: int) { r in b.known && b.known[r] == Is(Num(n)) }

  predicate IsNumber(a: Known) { if a.Is? then a.v.Num? else true }

  /** A call that reports a result in R0. */
  function AfterResult(b: Book): Book {
    b.(known := NoResults(High(b.known))[0 := Result], neg := false, asked := true)
  }

  function AfterBpf(b: Book): Option<Book> {
    if 1 in b.known && b.known[1].Is? && b.known[1].v.Num? && HasScratch(b, 2) && b.checked && b.pend.None? then
      var c := b.known[1].v.n;
      Some(AfterResult(b).(cmds := b.cmds + [c], checked := false, pend := if OpensFd(c) then Some(0) else None))
    else None
  }

  /** Closing the word of slot k closes its descriptor, or nothing. */
  predicate Sure(b: Book, k: nat) { (k in b.home && k in b.used) || (k < NR_STACK && k !in b.seen) }

  /** After a close of a register, if it was positive. */
  function AfterClose(b: Book, a: Known): Book {
    if a.SlotVal? then b.(used := b.used - {a.k}, strays := b.strays || !Sure(b, a.k)) else b.(strays := true)
  }

  function AfterSysClose(b: Book): Option<Book> {
    if 1 in b.known && IsNumber(b.known[1]) then Some(AfterClose(b, b.known[1]).(known := High(b.known))) else None
  }

  function AfterCall(b: Book, f: Helper): Option<Book> {
    var quiet := b.(known := High(b.known));
    if b.pend.Some? && b.pend.value < 6 then None
    else
      match f
      case ProbeReadKernel => if HasScratch(b, 1) then Some(quiet) else None
      case CopyFromUser => if HasScratch(b, 1) then Some(quiet) else None
      case SysBpf => AfterBpf(b)
      case SysClose => AfterSysClose(b)
      case TracePrintk => Some(quiet)
      case FindByNameKind => if b.checked then Some(AfterResult(b)) else None
      case KallsymsLookup => if b.checked && HasScratch(b, 4) then Some(AfterResult(b)) else None
  }

  function AfterOp(b: Book, i: Plain): Option<Book> {
    match i
    case MovReg(d, r) => AfterMov(b, d, r)
    case MovImm(d, imm) => Put(b, d, Some(Is(Num(imm))))
    case Alu(op, d, imm) => if op.Add? then AfterAdd(b, d, imm) else Put(b, d, Some(Number))
    case Ldx(size, d, r, off) => AfterLoad(b, size, d, r, off)
    case Stx(size, d, r, off) => AfterStore(b, size, d, r, off)
    case St(size, d, off, imm) => AfterStoreImm(b, d, off)
    case Call(f) => AfterCall(b, f)
  }

  /** The result must be in R7 and not known to be an error, and nothing may be pending elsewhere. */
  function AfterCheck(b: Book): Option<Book> {
    if 7 in b.known && b.known[7].Result? && Fixed(b) && !b.neg && (b.pend.None? || b.pend.value == 7) then
      Some(b.(checked := true))
    else None
  }

  /** A slot whose word is not positive holds no open descriptor, as if it were closed. */
  function Refined(b: Book, op: CondOp, r: nat, imm: int): Book {
    if op.Jsle? && imm == 0 && r in b.known && IsNumber(b.known[r]) then AfterClose(b, b.known[r]) else b
  }

  function Common(x: map<nat, Known>, y: map<nat, Known>): map<nat, Known> {
    map r | r in x && r in y && x[r] == y[r] :: x[r]
  }

  function Join(x: Option<Book>, y: Option<Book>): Option<Book> {
    if x.Some? && y.Some? && x.value == y.value.(known := x.value.known) then
      Some(x.value.(known := Common(x.value.known, y.value.known)))
    else None
  }

  function Flow(c: Code, b: Book): Option<Book> {
    match c
    case Empty => Some(b)
    case Op(i) => AfterOp(b, i)
    case Wide(d, blob) => Put(b, d, Some(Is(Blob(blob))))
    case Then(x, y) =>
      var m := Flow(x, b);
      if m.Some? then Flow(y, m.value) else None
    case Skip(op, r, imm, body) => Join(Some(Refined(b, op, r, imm)), Flow(body, b))
    case Either(op, r, imm, els, thn) => Join(Flow(thn, b), Flow(els, b))
    case Diamond(op, r, imm, els, thn, tail) =>
      var m := Flow(els, b);
      Join(Flow(thn, b), if m.Some? then Flow(tail, m.value) else None)
    case Check => AfterCheck(b)
  }

  // ------------------------------------------------------------------
  // Soundness of single instructions
  // ------------------------------------------------------------------

  lemma HeldSame(s: State, s': State, used: set<nat>, pend: Option<nat>)
    requires Sane(s) && Sane(s') && Held(s, used, pend) && s'.slots == s.slots && s'.open <= s.open
    requires pend.Some? && pend.value < 11 ==> s'.regs[pend.value] == s.regs[pend.value]
    ensures Held(s', used, pend)
  {
    forall fd | fd in s'.open ensures 0 < fd < 0x8000_0000 && (InSlot(s', used, fd) || InReg(s', pend, fd)) {
      if InSlot(s, used, fd) {
        var k :| k in used && k < NR_SLOTS && s.slots[k] == fd;
        assert s'.slots[k] == fd;
      }
    }
  }

  /** Registers other than the pending one do not matter. */
  lemma TrackedSame(s: State, s': State, b: Book, b': Book, n: nat)
    requires Sane(s) && Sane(s') && Tracked(s, b, n) && b' == b.(known := b'.known, checked := b'.checked, neg := b'.neg, outs := b'.outs, asked := b'.asked)
    requires s' == s.(regs := s'.regs, out := s'.out, last := s'.last)
    requires b.pend.Some? && b.pend.value < 11 ==> s'.regs[b.pend.value] == s.regs[b.pend.value]
    ensures Tracked(s', b', n)
  {
  }

  lemma PutSound(s: State, b: Book, d: Reg, a: Option<Known>, v: Val, pre: seq<int>)
    requires Sat(s, b, pre) && Put(b, d, a).Some?
    requires a.Some? ==> Fact(Set(s, d, v), d, a.value)
    ensures Sat(Set(s, d, v), Put(b, d, a).value, pre)
  {
    PutFacts(s, b, d, a, v);
    hide Facts;
    hide Held;
    hide Tracked;
    HeldSame(s, Set(s, d, v), b.used, b.pend);
    TrackedSame(s, Set(s, d, v), b, Put(b, d, a).value, |pre|);
  }

  lemma PutFacts(s: State, b: Book, d: Reg, a: Option<Known>, v: Val)
    requires Sane(s) && Facts(s, b.known) && Put(b, d, a).Some? && (a.Some? ==> Fact(Set(s, d, v), d, a.value))
    ensures Facts(Set(s, d, v), Put(b, d, a).value.known)
  {
  }

  lemma MovSound(s: State, b: Book, d: Reg, r: Reg, pre: seq<int>)
    requires Sat(s, b, pre) && AfterMov(b, d, r).Some?
    ensures Sat(Set(s, d, s.regs[r]), AfterMov(b, d, r).value, pre)
  {
    var a := if r in b.known then Some(b.known[r]) else None;
    var s' := Set(s, d, s.regs[r]);
    if r in b.known {
      assert Fact(s, r, b.known[r]);
      assert Fact(s', d, b.known[r]);
    }
    PutSound(s, b, d, a, s.regs[r], pre);
    if b.pend == Some(r) && d == 7 {
      assert Held(s', b.used, Some(d)) by {
        forall fd | fd in s'.open ensures 0 < fd < 0x8000_0000 && (InSlot(s', b.used, fd) || InReg(s', Some(d), fd)) {
          if InSlot(s, b.used, fd) {
            var k :| k in b.used && k < NR_SLOTS && s.slots[k] == fd;
            assert s'.slots[k] == fd;
          }
        }
      }
      PendingMoves(s, s', b, r, d);
    }
  }

  lemma PendingMoves(s: State, s': State, b: Book, r: Reg, d: Reg)
    requires Sane(s) && Pending(s, b) && b.pend == Some(r) && s' == Set(s, d, s.regs[r])
    ensures Pending(s', b.(pend := Some(d)))
  {
  }

  lemma LoadSound(s: State, b: Book, size: nat, d: Reg, r: Reg, off: int, w: nat -> int, pre: seq<int>)
    requires Sat(s, b, pre) && AfterLoad(b, size, d, r, off).Some?
    ensures var e := Perform(Ldx(size, d, r, off), s, w);
            e.Done? && Sat(e.s, AfterLoad(b, size, d, r, off).value, pre)
  {
    assert Fact(s, r, b.known[r]);
    var a := Shifted(s.regs[r], off);
    var k := if size == 4 && SlotOf(a) >= 0 then SlotVal(SlotOf(a)) else Number;
    PutSound(s, b, d, Some(k), Load(s, size, a, w(0)), pre);
  }

  lemma SaveSound(s: State, b: Book, k: nat, r: Reg, x: int, pre: seq<int>)
    requires Sat(s, b, pre) && k < NR_SLOTS && AfterSave(b, k, r).Some?
    ensures Sat(s.(slots := s.slots[k := Low(s.regs[r], x)]), AfterSave(b, k, r).value, pre)
  {
    var s' := s.(slots := s.slots[k := Low(s.regs[r], x)]);
    var b' := AfterSave(b, k, r).value;
    SaveTracked(s, b, k, r, x, |pre|);
    hide Tracked;
    forall fd | fd in s'.open ensures 0 < fd < 0x8000_0000 && InSlot(s', b'.used, fd) {
      if InReg(s, b.pend, fd) {
        assert k in b'.used && s'.slots[k] == fd;
      } else {
        var j :| j in b.used && j < NR_SLOTS && s.slots[j] == fd;
        assert j in b'.used && s'.slots[j] == fd;
      }
    }
    SaveFacts(s, b.known, k, Low(s.regs[r], x));
    hide Facts;
  }

  lemma SaveFacts(s: State, known: map<nat, Known>, k: nat, word: int)
    requires Sane(s) && Facts(s, known) && k < NR_SLOTS && 0 <= word < 0x1_0000_0000
    ensures Facts(s.(slots := s.slots[k := word]), WithoutSlot(known, k))
  {
    var s' := s.(slots := s.slots[k := word]);
    forall q | q in WithoutSlot(known, k) ensures Fact(s', q, known[q]) {
      assert Fact(s, q, known[q]);
    }
  }

  /** The slot now holds the result of the last command. */
  lemma SaveTracked(s: State, b: Book, k: nat, r: Reg, x: int, n: nat)
    requires Sane(s) && Tracked(s, b, n) && !s.failed && |s.cmds| == n + |b.cmds|
    requires k < NR_SLOTS && AfterSave(b, k, r).Some?
    ensures Tracked(s.(slots := s.slots[k := Low(s.regs[r], x)]), AfterSave(b, k, r).value, n)
  {
    var s' := s.(slots := s.slots[k := Low(s.regs[r], x)]);
    var b' := AfterSave(b, k, r).value;
    var fd := s.results[|s.results| - 1];
    assert s'.slots[k] == fd;
    if !b'.strays {
      SaveLive(s, b, k, fd);
    }
  }

  lemma SaveLive(s: State, b: Book, k: nat, fd: int)
    requires Sane(s) && Live(s, b.home, b.used, b.seen) && k < NR_SLOTS && 0 <= fd < 0x8000_0000 && fd in s.open
    requires forall j :: j in b.home && j in b.used && j < NR_SLOTS ==> s.slots[j] != fd
    ensures b.cmds != [] ==> Live(s.(slots := s.slots[k := fd]), b.home[k := |b.cmds| - 1], b.used + {k}, b.seen + {k})
  {
  }

  lemma StoreSound(s: State, b: Book, size: nat, d: Reg, r: Reg, off: int, w: nat -> int, pre: seq<int>)
    requires Sat(s, b, pre) && AfterStore(b, size, d, r, off).Some?
    ensures var e := Perform(Stx(size, d, r, off), s, w);
            e.Done? && Sat(e.s, AfterStore(b, size, d, r, off).value, pre)
  {
    assert Fact(s, d, b.known[d]);
    var a := Shifted(s.regs[d], off);
    if size == 4 && SlotOf(a) >= 0 {
      SaveSound(s, b, SlotOf(a), r, w(0), pre);
    } else if !Scratch(a) {
      assert Fact(s, r, b.known[r]);
      PublishSound(s, b, a.off, b.known[r].k, r, w(0), pre);
    }
  }

  /** Slots hold words. */
  lemma PublishSound(s: State, b: Book, o: int, k: nat, r: Reg, x: int, pre: seq<int>)
    requires Sat(s, b, pre) && Fact(s, r, SlotVal(k))
    ensures Sat(s.(out := s.out[o := Low(s.regs[r], x)]), b.(outs := b.outs[o := k]), pre)
  {
    hide Tracked;
    TrackedSame(s, s.(out := s.out[o := Low(s.regs[r], x)]), b, b.(outs := b.outs[o := k]), |pre|);
  }

  lemma StoreImmSound(s: State, b: Book, size: nat, d: Reg, off: int, imm: int, w: nat -> int, pre: seq<int>)
    requires Sat(s, b, pre) && AfterStoreImm(b, d, off).Some?
    ensures var e := Perform(St(size, d, off, imm), s, w);
            e.Done? && Sat(e.s, AfterStoreImm(b, d, off).value, pre)
  {
    assert Fact(s, d, b.known[d]);
  }

  // ------------------------------------------------------------------
  // Soundness of calls
  // ------------------------------------------------------------------

  /** A call whose result is of no interest. */
  lemma QuietSound(s: State, b: Book, w: nat -> int, pre: seq<int>)
    requires Sat(s, b, pre) && (b.pend.Some? ==> b.pend.value >= 6)
    ensures Sat(Clobbered(s, w), b.(known := High(b.known)), pre)
  {
    var s' := Clobbered(s, w);
    assert forall r :: 6 <= r < 11 ==> s'.regs[r] == s.regs[r];
    forall r | r in High(b.known) ensures Fact(s', r, b.known[r]) {
      assert Fact(s, r, b.known[r]);
    }
    hide Held;
    hide Tracked;
    HeldSame(s, s', b.used, b.pend);
    TrackedSame(s, s', b, b.(known := High(b.known)), |pre|);
  }

  lemma CloseSound(s: State, b: Book, w: nat -> int, pre: seq<int>)
    requires Sat(s, b, pre) && AfterCall(b, SysClose).Some?
    ensures var e := Called(SysClose, s, w);
            e.Done? && Sat(e.s, AfterCall(b, SysClose).value, pre)
  {
    assert Fact(s, 1, b.known[1]);
    var s1, b1, a, n := Clobbered(s, w), b.(known := High(b.known)), b.known[1], s.regs[1].n;
    QuietSound(s, b, w, pre);
    hide Sat;
    ClosedSound(s1, b1, a, n, pre);
    assert Called(SysClose, s, w) == Done(s1.(open := s1.open - {n}));
    CloseOf(b);
    hide AfterSysClose;
  }

  lemma CloseOf(b: Book)
    requires AfterSysClose(b).Some?
    ensures AfterSysClose(b).value == AfterClose(b.(known := High(b.known)), b.known[1])
  {
    hide High;
  }

  /** A number is closed, of which it is known that it is a. */
  lemma ClosedSound(s: State, b: Book, a: Known, n: int, pre: seq<int>)
    requires Sat(s, b, pre) && (a.SlotVal? ==> a.k < NR_SLOTS && s.slots[a.k] == n)
    ensures Sat(s.(open := s.open - {n}), AfterClose(b, a), pre)
  {
    var s' := s.(open := s.open - {n});
    ClosedTracked(s, b, a, n, |pre|);
    hide Held;
    hide Tracked;
    HeldSame(s, s', b.used, b.pend);
    if a.SlotVal? {
      DropSlot(s', b.used, b.pend, a.k);
    }
  }

  lemma ClosedTracked(s: State, b: Book, a: Known, n: int, m: nat)
    requires Sane(s) && Tracked(s, b, m) && Held(s, b.used, b.pend)
    requires a.SlotVal? ==> a.k < NR_SLOTS && s.slots[a.k] == n
    ensures Tracked(s.(open := s.open - {n}), AfterClose(b, a), m)
  {
    var s', b' := s.(open := s.open - {n}), AfterClose(b, a);
    hide Homes;
    assert Homes(s', b.home, m, |b.cmds|) by {
      HomesSame(s, s', b.home, m, |b.cmds|);
    }
    if !b'.strays {
      assert n !in s.open || (a.k in b.home && a.k in b.used);
      hide Held;
    }
  }

  lemma HomesSame(s: State, s': State, home: map<nat, nat>, n: nat, cmds: nat)
    requires Sane(s) && Sane(s') && Homes(s, home, n, cmds) && s'.slots == s.slots && s'.results == s.results
    ensures Homes(s', home, n, cmds)
  {
  }

  /** A slot whose word is not open need not be looked at. */
  lemma DropSlot(s: State, used: set<nat>, pend: Option<nat>, k: nat)
    requires Sane(s) && Held(s, used, pend) && k < NR_SLOTS && s.slots[k] !in s.open
    ensures Held(s, used - {k}, pend)
  {
    forall fd | fd in s.open ensures InSlot(s, used - {k}, fd) || InReg(s, pend, fd) {
      if InSlot(s, used, fd) {
        var j :| j in used && j < NR_SLOTS && s.slots[j] == fd;
        assert j in used - {k};
      }
    }
  }

  lemma ResultFacts(s: State, b: Book, s': State)
    requires Sane(s) && Sane(s') && Facts(s, b.known)
    requires s'.slots == s.slots && s'.regs[0] == Num(s'.last)
    requires forall r :: 6 <= r < 11 ==> s'.regs[r] == s.regs[r]
    ensures Facts(s', AfterResult(b).known)
  {
    forall r | r in AfterResult(b).known ensures Fact(s', r, AfterResult(b).known[r]) {
      if r != 0 {
        assert Fact(s, r, b.known[r]);
      }
    }
  }

  lemma LookupSound(s: State, b: Book, w: nat -> int, pre: seq<int>)
    requires Sat(s, b, pre) && b.checked && (b.pend.Some? ==> b.pend.value >= 6)
    ensures Sat(Clobbered(s, w).(last := w(0)), AfterResult(b), pre)
  {
    var s' := Clobbered(s, w).(last := w(0));
    hide Held;
    hide Facts;
    hide Tracked;
    assert forall r :: 6 <= r < 11 ==> s'.regs[r] == s.regs[r];
    ResultFacts(s, b, s');
    HeldSame(s, s', b.used, b.pend);
    TrackedSame(s, s', b, AfterResult(b), |pre|);
  }

  lemma BpfSound(s: State, b: Book, w: nat -> int, pre: seq<int>)
    requires Sat(s, b, pre) && AfterBpf(b).Some?
    ensures var e := Called(SysBpf, s, w);
            !e.Wrong? && (e.Done? ==> Sat(e.s, AfterBpf(b).value, pre))
  {
    assert Fact(s, 1, b.known[1]) && Fact(s, 2, b.known[2]);
    hide Published;
    var e := Called(SysBpf, s, w);
    if e.Done? {
      var s' := e.s;
      PublishedSame(s, s', b.outs);
      assert forall r :: 6 <= r < 11 ==> s'.regs[r] == s.regs[r];
      hide Facts;
      hide Held;
      ResultFacts(s, b, s');
      HeldAfterBpf(s, b, s', s.regs[1].n, w(0));
      TrackedAfterBpf(s, b, s', s.regs[1].n, w(0), |pre|);
      hide Tracked;
    }
  }

  lemma PublishedSame(s: State, s': State, outs: map<int, nat>)
    requires Sane(s) && Sane(s') && Published(s, outs) && s'.slots == s.slots && s'.out == s.out
    ensures Published(s', outs)
  {
  }

  lemma HeldAfterBpf(s: State, b: Book, s': State, cmd: int, r: int)
    requires Sane(s) && Sane(s') && Held(s, b.used, None) && s'.slots == s.slots && s'.regs[0] == Num(r)
    requires s'.open == (if OpensFd(cmd) && r >= 0 then s.open + {r} else s.open)
    requires OpensFd(cmd) && r >= 0 ==> 0 < r < 0x8000_0000
    ensures Held(s', b.used, if OpensFd(cmd) then Some(0) else None)
  {
    forall fd | fd in s.open ensures InSlot(s', b.used, fd) {
      var k :| k in b.used && k < NR_SLOTS && s.slots[k] == fd;
      assert s'.slots[k] == fd;
    }
  }

  lemma TrackedAfterBpf(s: State, b: Book, s': State, cmd: int, r: int, n: nat)
    requires Sane(s) && Sane(s') && Tracked(s, b, n) && !s.failed && s'.slots == s.slots && s'.regs[0] == Num(r)
    requires s'.cmds == s.cmds + [cmd] && s'.results == s.results + [r] && s'.failed == (r < 0)
    requires s'.open == (if OpensFd(cmd) && r >= 0 then s.open + {r} else s.open)
    requires OpensFd(cmd) && r >= 0 ==> 0 < r < 0x8000_0000 && r !in s.open
    ensures Tracked(s', AfterResult(b).(cmds := b.cmds + [cmd], checked := false, pend := if OpensFd(cmd) then Some(0) else None), n)
  {
    var b' := AfterResult(b).(cmds := b.cmds + [cmd], checked := false, pend := if OpensFd(cmd) then Some(0) else None);
    assert History(s');
    assert Homes(s', b'.home, n, |b'.cmds|);
  }

  lemma CallSound(s: State, b: Book, f: Helper, w: nat -> int, pre: seq<int>)
    requires Sat(s, b, pre) && AfterCall(b, f).Some?
    ensures var e := Called(f, s, w);
            !e.Wrong? && (e.Done? ==> Sat(e.s, AfterCall(b, f).value, pre))
  {
    match f
    case SysBpf => BpfSound(s, b, w, pre);
    case SysClose => CloseSound(s, b, w, pre);
    case TracePrintk => QuietSound(s, b, w, pre);
    case FindByNameKind => LookupSound(s, b, w, pre);
    case KallsymsLookup =>
      assert Fact(s, 4, b.known[4]);
      LookupSound(s, b, w, pre);
    case ProbeReadKernel =>
      assert Fact(s, 1, b.known[1]);
      QuietSound(s, b, w, pre);
    case CopyFromUser =>
      assert Fact(s, 1, b.known[1]);
      QuietSound(s, b, w, pre);
  }

  // ------------------------------------------------------------------
  // Soundness of code
  // ------------------------------------------------------------------

  lemma OpSound(s: State, b: Book, i: Plain, w: nat -> int, pre: seq<int>)
    requires Sat(s, b, pre) && AfterOp(b, i).Some?
    ensures var e := Perform(i, s, w);
            !e.Wrong? && (e.Done? ==> Sat(e.s, AfterOp(b, i).value, pre))
  {
    hide Sat;
    SatSane(s, b, pre);
    match i
    case MovReg(d, r) => MovSound(s, b, d, r, pre);
    case MovImm(d, imm) => PutSound(s, b, d, Some(Is(Num(imm))), Num(imm), pre);
    case Alu(op, d, imm) => AluSound(s, b, op, d, imm, w, pre);
    case Ldx(size, d, r, off) => LoadSound(s, b, size, d, r, off, w, pre);
    case Stx(size, d, r, off) => StoreSound(s, b, size, d, r, off, w, pre);
    case St(size, d, off, imm) => StoreImmSound(s, b, size, d, off, imm, w, pre);
    case Call(f) => CallSound(s, b, f, w, pre);
  }

  lemma SatSane(s: State, b: Book, pre: seq<int>)
    requires Sat(s, b, pre)
    ensures Sane(s)
  {
  }

  lemma AluSound(s: State, b: Book, op: AluOp, d: Reg, imm: int, w: nat -> int, pre: seq<int>)
    requires Sat(s, b, pre) && AfterOp(b, Alu(op, d, imm)).Some?
    ensures var e := Perform(Alu(op, d, imm), s, w);
            e.Done? && Sat(e.s, AfterOp(b, Alu(op, d, imm)).value, pre)
  {
    if op.Add? {
      var known := d in b.known && b.known[d].Is?;
      if known {
        assert Fact(s, d, b.known[d]);
      }
      PutSound(s, b, d, if known then Some(Is(Shifted(b.known[d].v, imm))) else None, Shifted(s.regs[d], imm), pre);
    } else {
      PutSound(s, b, d, Some(Number), Num(w(0)), pre);
    }
  }

  lemma RefinedSound(s: State, b: Book, op: CondOp, r: Reg, imm: int, w: nat -> int, pre: seq<int>)
    requires Sat(s, b, pre) && Taken(op, s.regs[r], imm, w)
    ensures Sat(s, Refined(b, op, r, imm), pre)
  {
    if op.Jsle? && imm == 0 && r in b.known && IsNumber(b.known[r]) {
      assert Fact(s, r, b.known[r]);
      assert s.regs[r].n !in s.open;
      ClosedSound(s, b, b.known[r], s.regs[r].n, pre);
      assert s.(open := s.open - {s.regs[r].n}) == s;
    }
  }

  lemma JoinSound(s: State, x: Option<Book>, y: Option<Book>, pre: seq<int>)
    requires Join(x, y).Some? && (Sat(s, x.value, pre) || Sat(s, y.value, pre))
    ensures Sat(s, Join(x, y).value, pre)
  {
    var b := Join(x, y).value;
    assert Facts(s, b.known) by {
      forall r | r in b.known ensures Fact(s, r, b.known[r]) {
        if Sat(s, x.value, pre) {
          assert Fact(s, r, x.value.known[r]);
        } else {
          assert Fact(s, r, y.value.known[r]);
        }
      }
    }
  }

  lemma CheckSound(s: State, b: Book, w: nat -> int, pre: seq<int>)
    requires Sat(s, b, pre) && AfterCheck(b).Some?
    ensures Taken(Jslt, s.regs[7], 0, w) ==> Failed(s, b.seen, pre + b.cmds)
    ensures !Taken(Jslt, s.regs[7], 0, w) ==> Sat(s, AfterCheck(b).value, pre)
  {
    assert Fact(s, 7, b.known[7]) && Fact(s, 6, b.known[6]) && Fact(s, 10, b.known[10]);
    if Taken(Jslt, s.regs[7], 0, w) {
      forall fd | fd in s.open ensures 0 < fd < 0x8000_0000 && InSlot(s, b.seen, fd) {
        assert !InReg(s, b.pend, fd);
        var k :| k in b.used && k < NR_SLOTS && s.slots[k] == fd;
        assert k in b.seen;
      }
    }
  }

  predicate Grows(b: Book, b': Book) { b.seen <= b'.seen && b.cmds <= b'.cmds && (b.asked ==> b'.asked) }

  lemma FailedLater(s: State, b: Book, b': Book, pre: seq<int>)
    requires Failed(s, b.seen, pre + b.cmds) && Grows(b, b')
    ensures Failed(s, b'.seen, pre + b'.cmds)
  {
    forall fd | fd in s.open ensures InSlot(s, b'.seen, fd) {
      assert InSlot(s, b.seen, fd);
      var k :| k in b.seen && k < NR_SLOTS && s.slots[k] == fd;
      assert k in b'.seen;
    }
  }

  lemma CallGrows(b: Book, f: Helper)
    requires AfterCall(b, f).Some?
    ensures Grows(b, AfterCall(b, f).value)
    ensures b.neg && !b.checked ==> AfterCall(b, f).value.neg && !AfterCall(b, f).value.checked
  {
    hide AfterBpf;
    hide AfterSysClose;
    hide AfterResult;
    hide High;
    match f
    case SysBpf => BpfGrows(b);
    case SysClose => CloseGrows(b);
    case FindByNameKind => ResultGrows(b);
    case KallsymsLookup => ResultGrows(b);
    case _ =>
  }

  lemma ResultGrows(b: Book)
    ensures Grows(b, AfterResult(b)) && AfterResult(b).checked == b.checked
  {
  }

  lemma BpfGrows(b: Book)
    requires AfterBpf(b).Some?
    ensures Grows(b, AfterBpf(b).value) && b.checked
  {
    hide NoResults;
    hide High;
  }

  lemma CloseGrows(b: Book)
    requires AfterSysClose(b).Some?
    ensures var b' := AfterSysClose(b).value; Grows(b, b') && b'.neg == b.neg && b'.checked == b.checked
  {
    hide High;
    hide Sure;
  }

  lemma PutGrows(b: Book, d: nat, a: Option<Known>)
    requires Put(b, d, a).Some?
    ensures var b' := Put(b, d, a).value; Grows(b, b') && b'.neg == b.neg && b'.checked == b.checked
  {
  }

  lemma StoreGrows(b: Book, size: nat, d: nat, r: nat, off: int)
    requires AfterStore(b, size, d, r, off).Some?
    ensures var b' := AfterStore(b, size, d, r, off).value; Grows(b, b') && b'.neg == b.neg && b'.checked == b.checked
  {
    hide WithoutSlot;
    hide SlotOf;
    hide Scratch;
  }

  lemma OpGrows(b: Book, i: Plain)
    requires AfterOp(b, i).Some?
    ensures Grows(b, AfterOp(b, i).value)
    ensures b.neg && !b.checked ==> AfterOp(b, i).value.neg && !AfterOp(b, i).value.checked
  {
    hide AfterCall;
    hide AfterStore;
    if i.Call? {
      CallGrows(b, i.helper);
    } else if i.Stx? {
      StoreGrows(b, i.size, i.dst, i.src, i.off);
    } else {
      hide SlotOf;
      hide Scratch;
      hide Put;
      forall d: nat, a | Put(b, d, a).Some?
        ensures var b' := Put(b, d, a).value; Grows(b, b') && b'.neg == b.neg && b'.checked == b.checked
      {
        PutGrows(b, d, a);
      }
      hide Grows;
    }
  }

  lemma {:induction false} FlowGrows(c: Code, b: Book)
    requires Flow(c, b).Some?
    ensures Grows(b, Flow(c, b).value)
    decreases c
  {
    match c
    case Empty =>
    case Op(i) =>
      OpGrows(b, i);
      hide AfterOp;
    case Wide(d, blob) =>
    case Check =>
    case Then(x, y) =>
      FlowGrows(x, b);
      FlowGrows(y, Flow(x, b).value);
    case Skip(op, r, imm, body) => FlowGrows(body, b);
    case Either(op, r, imm, els, thn) => FlowGrows(thn, b);
    case Diamond(op, r, imm, els, thn, tail) => FlowGrows(thn, b);
  }

  /** What an outcome must be like if the flow gives b. */
  predicate Good(o: Outcome, b: Book, pre: seq<int>) {
    match o.kind
    case Next => Sat(o.s, b, pre)
    case Error => Failed(o.s, b.seen, pre + b.cmds)
    case Fault => false
    case NoRun => true
  }

  lemma GoodLater(o: Outcome, b: Book, b': Book, pre: seq<int>)
    requires Good(o, b, pre) && !o.kind.Next? && Grows(b, b')
    ensures Good(o, b', pre)
  {
    if o.kind.Error? {
      FailedLater(o.s, b, b', pre);
    }
  }

  lemma GoodJoin(o: Outcome, x: Option<Book>, y: Option<Book>, pre: seq<int>)
    requires Join(x, y).Some? && (Good(o, x.value, pre) || Good(o, y.value, pre))
    ensures Good(o, Join(x, y).value, pre)
  {
    if o.kind.Next? {
      JoinSound(o.s, x, y, pre);
    }
  }

  /** Code for which the flow analysis gives b' never goes wrong, leaves for the clean-up
      code only after an error, and otherwise ends as b' says. */
  lemma {:induction false} FlowSound(c: Code, b: Book, s: State, world: World, t: nat, pre: seq<int>)
    requires Sat(s, b, pre) && Flow(c, b).Some?
    ensures Good(Exec(c, s, world, t), Flow(c, b).value, pre)
    decreases c, 1
  {
    hide Sat;
    hide Good;
    SatSane(s, b, pre);
    match c
    case Empty => FlowLeaf(c, b, s, world, t, pre);
    case Op(i) => FlowLeaf(c, b, s, world, t, pre);
    case Wide(d, blob) => FlowLeaf(c, b, s, world, t, pre);
    case Check => FlowLeaf(c, b, s, world, t, pre);
    case Then(x, y) =>
      FlowSound(x, b, s, world, t, pre);
      var o, m := Exec(x, s, world, t), Flow(x, b).value;
      FlowGrows(y, m);
      if o.kind.Next? {
        GoodSat(o, m, pre);
        FlowSound(y, m, o.s, world, o.t, pre);
      } else {
        GoodLater(o, m, Flow(y, m).value, pre);
      }
    case Skip(op, r, imm, body) =>
      if Taken(op, s.regs[r], imm, world(t)) {
        RefinedSound(s, b, op, r, imm, world(t), pre);
        SatGood(s, Refined(b, op, r, imm), t + 1, pre);
        GoodJoin(Outcome(Next, s, t + 1), Some(Refined(b, op, r, imm)), Flow(body, b), pre);
      } else {
        FlowSound(body, b, s, world, t + 1, pre);
        GoodJoin(Exec(body, s, world, t + 1), Some(Refined(b, op, r, imm)), Flow(body, b), pre);
      }
    case Either(op, r, imm, els, thn) =>
      if Taken(op, s.regs[r], imm, world(t)) {
        FlowSound(thn, b, s, world, t + 1, pre);
        GoodJoin(Exec(thn, s, world, t + 1), Flow(thn, b), Flow(els, b), pre);
      } else {
        var o := Exec(els, s, world, t + 1);
        FlowSound(els, b, s, world, t + 1, pre);
        GoodJumped(o, Flow(els, b).value, pre);
        GoodJoin(Jumped(o), Flow(thn, b), Flow(els, b), pre);
      }
    case Diamond(op, r, imm, els, thn, tail) => FlowDiamond(op, r, imm, els, thn, tail, b, s, world, t, pre);
  }

  lemma {:induction false} FlowDiamond(op: CondOp, r: Reg, imm: int, els: Code, thn: Code, tail: Code,
                                       b: Book, s: State, world: World, t: nat, pre: seq<int>)
    requires Sat(s, b, pre) && Flow(Diamond(op, r, imm, els, thn, tail), b).Some?
    ensures Good(Exec(Diamond(op, r, imm, els, thn, tail), s, world, t),
                 Flow(Diamond(op, r, imm, els, thn, tail), b).value, pre)
    decreases Diamond(op, r, imm, els, thn, tail), 0
  {
    SatSane(s, b, pre);
    hide Sat;
    hide Good;
    hide Join;
    DiamondExec(op, r, imm, els, thn, tail, s, world, t);
    var m := Flow(els, b).value;
    JoinSome(Flow(thn, b), Flow(tail, m));
    if Taken(op, s.regs[r], imm, world(t)) {
      FlowSound(thn, b, s, world, t + 1, pre);
      GoodJumped(Exec(thn, s, world, t + 1), Flow(thn, b).value, pre);
      GoodJoin(Jumped(Exec(thn, s, world, t + 1)), Flow(thn, b), Flow(tail, m), pre);
    } else {
      var e := Jumped(Exec(els, s, world, t + 1));
      FlowSound(els, b, s, world, t + 1, pre);
      GoodJumped(Exec(els, s, world, t + 1), m, pre);
      FlowGrows(tail, m);
      if e.kind.Next? {
        GoodSat(e, m, pre);
        FlowSound(tail, m, e.s, world, e.t, pre);
        GoodJoin(Exec(tail, e.s, world, e.t), Flow(thn, b), Flow(tail, m), pre);
      } else {
        GoodLater(e, m, Flow(tail, m).value, pre);
        GoodJoin(e, Flow(thn, b), Flow(tail, m), pre);
      }
    }
  }

  lemma JoinSome(x: Option<Book>, y: Option<Book>)
    requires Join(x, y).Some?
    ensures x.Some? && y.Some?
  {
  }

  lemma FlowLeaf(c: Code, b: Book, s: State, world: World, t: nat, pre: seq<int>)
    requires c.Empty? || c.Op? || c.Wide? || c.Check?
    requires Sat(s, b, pre) && Flow(c, b).Some?
    ensures Good(Exec(c, s, world, t), Flow(c, b).value, pre)
  {
    if c.Op? {
      OpSound(s, b, c.i, world(t), pre);
    } else if c.Wide? {
      PutSound(s, b, c.dst, Some(Is(Blob(c.blob))), Blob(c.blob), pre);
    } else if c.Check? {
      CheckSound(s, b, world(t), pre);
    }
  }

  lemma GoodSat(o: Outcome, b: Book, pre: seq<int>)
    requires Good(o, b, pre) && o.kind.Next?
    ensures Sat(o.s, b, pre)
  {
  }

  lemma SatGood(s: State, b: Book, t: nat, pre: seq<int>)
    requires Sat(s, b, pre)
    ensures Good(Outcome(Next, s, t), b, pre)
  {
  }

  lemma GoodJumped(o: Outcome, b: Book, pre: seq<int>)
    requires Good(o, b, pre)
    ensures Good(Jumped(o), b, pre)
  {
  }

  /** Code that begins after an error does not leave for the clean-up code again. */
  lemma {:induction false} NoSecondError(c: Code, b: Book, s: State, world: World, t: nat)
    requires Sane(s) && b.neg && !b.checked && Flow(c, b).Some?
    ensures !Exec(c, s, world, t).kind.Error? && Flow(c, b).value.neg && !Flow(c, b).value.checked
    decreases c
  {
    match c
    case Empty =>
    case Op(i) =>
      OpGrows(b, i);
      hide Perform;
      hide AfterOp;
    case Wide(d, blob) =>
    case Check =>
    case Then(x, y) =>
      NoSecondError(x, b, s, world, t);
      var o := Exec(x, s, world, t);
      NoSecondError(y, Flow(x, b).value, o.s, world, o.t);
    case Skip(op, r, imm, body) => NoSecondError(body, b, s, world, t + 1);
    case Either(op, r, imm, els, thn) =>
      NoSecondError(els, b, s, world, t + 1);
      NoSecondError(thn, b, s, world, t + 1);
    case Diamond(op, r, imm, els, thn, tail) =>
      NoSecondError(els, b, s, world, t + 1);
      NoSecondError(thn, b, s, world, t + 1);
      var o := Jumped(Exec(els, s, world, t + 1));
      NoSecondError(tail, Flow(els, b).value, o.s, world, o.t);
  }
}
