/** The loader generator: load commands are turned into an eBPF program with hand-counted
    relative jumps and a block of clean-up code.  Beside the instructions, the generator
    keeps (as ghost state) the structured code that they are the compiled form of, and
    what the flow analysis knows at its end. */
module LoaderGen {
  import opened Ebpf
  import opened FdFlow

  const ERANGE: int := 34
  const ENOMEM: int := 12
  const E2BIG: int := 7
  const EDOM: int := 33
  const EFAULT: int := 14
  const ENOSPC: int := 28
  const ENOENT: int := 2
  const INT32_MAX: int := 0x7fff_ffff
  const INT16_MAX: int := 0x7fff

  const MAX_USED_PROGS: nat := 32
  const MAX_KFUNC_DESCS: nat := 256
  const MAX_FD_ARRAY_SZ: nat := 320
  const FD_ARRAY_BYTES: nat := 1280

  // Offsets in struct bpf_insn, struct bpf_loader_ctx, struct bpf_map_desc and struct loader_stack.
  const INSN_SZ: nat := 8
  const INSN_OFF: nat := 2
  const INSN_IMM: nat := 4
  const INSN_REGS: nat := 1
  const CTX_SZ: nat := 24
  const MAP_DESC_SZ: nat := 16
  const PROG_DESC_SZ: nat := 4
  const BTF_FD_OFF: int := -136
  const INNER_MAP_FD_OFF: int := -132
  const PROG_FD_OFF: int := -128

  // ------------------------------------------------------------------
  // Books of the generator
  // ------------------------------------------------------------------

  const MainBook: Book :=
    Book(map[6 := Is(Ctx(0)), 10 := Is(Stack(0))], {}, {}, None, [], true, false, map[], false, map[], false)

  predicate MayClose(k: nat, progs: nat, maps: nat) { k < 2 + progs || NR_STACK <= k < NR_STACK + maps }

  /** The slots that the clean-up code goes through. */
  function Closable(progs: nat, maps: nat): set<nat> {
    set k: nat | k < NR_SLOTS && MayClose(k, progs, maps)
  }

  function CleanBook(progs: nat, maps: nat): Book {
    Book(map[6 := Is(Ctx(0)), 7 := Result, 10 := Is(Stack(0))], Closable(progs, maps), Closable(progs, maps), None, [],
         false, true, map[], true, map[], true)
  }

  predicate Lasting(r: nat) { r in {6, 7, 8, 10} }

  /** What outlives the scratch use of the other registers. */
  function Core(b: Book): Book {
    b.(known := map r | r in b.known && Lasting(r) :: b.known[r])
  }

  predicate PendHigh(b: Book) { b.pend.None? || b.pend.value == 7 }

  /** Between commands: nothing pending, nothing unchecked. */
  predicate Idle(b: Book) { b.checked && !b.neg && b.pend.None? && b.outs == map[] }

  lemma IdleFacts(b: Book)
    ensures Idle(b) ==> b.checked && !b.neg && b.pend.None? && b.outs == map[]
  {
  }

  /** After a close of the descriptor in R1, if it is one. */
  function Closed(b: Book): Book {
    if 1 in b.known && IsNumber(b.known[1]) then AfterClose(b, b.known[1]) else b
  }

  /** After a close of the descriptor in slot k. */
  function ClosedSlot(b: Book, k: nat): Book { AfterClose(b, SlotVal(k)) }

  /** The same but for what strays. */
  predicate Strayed(b: Book, b': Book) { Core(b') == Core(b).(strays := b'.strays) && (b.strays ==> b'.strays) }

  lemma StrayedFacts(b: Book, b': Book)
    requires Strayed(b, b')
    ensures b' == b.(known := b'.known, strays := b'.strays)
    ensures forall r | Lasting(r) :: (r in b.known <==> r in b'.known) && (r in b.known ==> b.known[r] == b'.known[r])
  {
    CoreFacts(b.(strays := b'.strays), b');
  }

  lemma StrayedThen(a: Book, b: Book, c: Book)
    requires Strayed(a, b) && Strayed(b, c)
    ensures Strayed(a, c)
  {
  }

  lemma CoreStrayed(b: Book, b': Book)
    requires Core(b') == Core(b) || Core(b') == Core(b).(strays := true)
    ensures Strayed(b, b')
    ensures Core(b') == Core(b) ==> b'.strays == b.strays
  {
    assert Core(b).strays == b.strays && Core(b').strays == b'.strays;
  }

  lemma CloseCore(b: Book, b': Book)
    requires AfterCall(b, SysClose) == Some(b')
    ensures Core(b') == Core(Closed(b)) && PendHigh(b) == PendHigh(b')
  {
    CloseCalled(b);
    ClosedKeeps(b);
    hide AfterCall;
    hide Closed;
    hide Core;
    hide High;
    HighCore(Closed(b));
  }

  lemma CloseCalled(b: Book)
    requires AfterCall(b, SysClose).Some?
    ensures AfterCall(b, SysClose).value == Closed(b).(known := High(b.known))
  {
    hide AfterClose;
    hide High;
    hide AfterBpf;
    hide AfterResult;
  }

  lemma ClosedKeeps(b: Book)
    ensures Closed(b).known == b.known && Closed(b).pend == b.pend
  {
    hide Sure;
  }

  lemma RefinedIsClosed(b: Book)
    ensures Refined(b, Jsle, 1, 0) == Closed(b)
  {
  }

  lemma CoreClosed(b: Book, b': Book)
    requires Core(b) == Core(b') && 1 in b.known && 1 in b'.known && b.known[1] == b'.known[1]
    ensures Core(Closed(b)) == Core(Closed(b'))
  {
    assert Core(Closed(b)).known == Core(b).known == Core(b').known == Core(Closed(b')).known;
  }

  /** R1 has the word of slot k, or some other number. */
  lemma ClosedAs(b: Book, b': Book, k: nat)
    requires Core(b') == Core(b) && 1 in b'.known
    ensures b'.known[1] == SlotVal(k) ==> Core(Closed(b')) == ClosedSlot(Core(b), k)
    ensures b'.known[1] == Number ==> Core(Closed(b')) == Core(b).(strays := true)
  {
    CoreAfterClose(b', b'.known[1]);
    hide Core;
  }

  lemma CoreAfterClose(b: Book, a: Known)
    ensures Core(AfterClose(b, a)) == AfterClose(Core(b), a)
  {
    assert Core(AfterClose(b, a)).known == Core(b).known;
  }

  /** A command was issued, and its result is in R7, not checked yet. */
  predicate Issued(b: Book, b': Book, cmd: int) {
    && b' == b.(known := b'.known, cmds := b.cmds + [cmd], checked := false, neg := false,
                pend := if OpensFd(cmd) then Some(7) else None, asked := true)
    && 7 in b'.known && b'.known[7].Result?
  }

  /** Nothing is pending, and R8 points to an instruction of the program to be loaded. */
  predicate Ready(b: Book, insn: nat) { Idle(b) && 8 in b.known && b.known[8] == Is(Blob(insn)) }

  /** A lookup has left its result in R7. */
  predicate Looked(b: Book, b': Book) {
    && b' == b.(known := b'.known, asked := true)
    && 7 in b'.known && b'.known[7].Result?
    && (8 in b.known && b.known[8].Is? ==> 8 in b'.known && b'.known[8] == b.known[8])
  }

  /** Nothing but scratch registers has changed, though something may have been looked up. */
  predicate Passed(b: Book, b': Book) { b' == b.(known := b'.known, asked := b'.asked) }

  /** A command was issued and has not failed; a descriptor that it opened is in R7. */
  predicate Succeeded(b: Book, b': Book, cmd: int) {
    b' == b.(known := b'.known, cmds := b.cmds + [cmd], checked := true, neg := false,
             pend := if OpensFd(cmd) then Some(7) else None, asked := true)
  }

  /** The descriptor in R7 was put into a slot. */
  predicate Saved(b: Book, b': Book, k: nat) {
    && b.cmds != []
    && b' == b.(known := b'.known, used := b.used + {k}, seen := b.seen + {k}, pend := None, home := b.home[k := |b.cmds| - 1])
  }

  /** A command was issued between commands, and what it opened was put into a slot. */
  function Opened(b: Book, cmd: int, k: nat): Book {
    b.(cmds := b.cmds + [cmd], asked := true, used := b.used + {k}, seen := b.seen + {k}, home := b.home[k := |b.cmds|])
  }

  /** An instruction that changes nothing that lasts. */
  predicate Passing(b: Book, i: Plain) {
    match i
    case MovReg(d, r) => !Lasting(d)
    case MovImm(d, _) => !Lasting(d)
    case Alu(_, d, _) => !Lasting(d)
    case Ldx(_, d, _, _) => !Lasting(d)
    case Stx(size, d, _, off) => d in b.known && b.known[d].Is? && Scratch(Shifted(b.known[d].v, off))
    case St(_, _, _, _) => true
    case Call(f) => f in {TracePrintk, ProbeReadKernel, CopyFromUser}
  }

  lemma PutCore(b: Book, d: nat, a: Option<Known>)
    requires Put(b, d, a).Some?
    ensures !Lasting(d) ==> Core(Put(b, d, a).value) == Core(b)
    ensures Fixed(b) ==> Fixed(Put(b, d, a).value)
  {
    if !Lasting(d) {
      assert Core(Put(b, d, a).value).known == Core(b).known;
    }
  }

  lemma HighCore(b: Book)
    ensures Core(b.(known := High(b.known))) == Core(b)
    ensures Fixed(b) ==> Fixed(b.(known := High(b.known)))
  {
    assert Core(b.(known := High(b.known))).known == Core(b).known;
  }

  lemma PassingCore(b: Book, i: Plain)
    requires AfterOp(b, i).Some? && Passing(b, i)
    ensures Core(AfterOp(b, i).value) == Core(b)
  {
    hide Core;
    hide Put;
    hide High;
    match i
    case MovReg(d, r) => PutCore(b, d, if r in b.known then Some(b.known[r]) else None);
    case MovImm(d, imm) => PutCore(b, d, Some(Is(Num(imm))));
    case Alu(op, d, imm) =>
      if op.Add? {
        PutCore(b, d, if d in b.known && b.known[d].Is? then Some(Is(Shifted(b.known[d].v, imm))) else None);
      } else {
        PutCore(b, d, Some(Number));
      }
    case Ldx(size, d, r, off) =>
      var a := Shifted(b.known[r].v, off);
      PutCore(b, d, Some(if size == 4 && SlotOf(a) >= 0 then SlotVal(SlotOf(a)) else Number));
    case Stx(size, d, r, off) =>
    case St(size, d, off, imm) =>
    case Call(f) => HighCore(b);
  }

  lemma ResultFixed(b: Book)
    requires Fixed(b)
    ensures Fixed(AfterResult(b))
  {
  }

  lemma SaveFixed(b: Book, k: nat, r: nat)
    requires AfterSave(b, k, r).Some? && Fixed(b)
    ensures Fixed(AfterSave(b, k, r).value)
  {
  }

  lemma CallFixed(b: Book, f: Helper)
    requires AfterCall(b, f).Some? && Fixed(b)
    ensures Fixed(AfterCall(b, f).value)
  {
    HighCore(b);
    ResultFixed(b);
  }

  lemma AfterOpFixed(b: Book, i: Plain)
    requires AfterOp(b, i).Some? && Fixed(b)
    ensures Fixed(AfterOp(b, i).value)
  {
    hide Put;
    hide AfterCall;
    hide AfterSave;
    match i
    case MovReg(d, r) => PutCore(b, d, if r in b.known then Some(b.known[r]) else None);
    case MovImm(d, imm) => PutCore(b, d, Some(Is(Num(imm))));
    case Alu(op, d, imm) =>
      if op.Add? {
        PutCore(b, d, if d in b.known && b.known[d].Is? then Some(Is(Shifted(b.known[d].v, imm))) else None);
      } else {
        PutCore(b, d, Some(Number));
      }
    case Ldx(size, d, r, off) =>
      var a := Shifted(b.known[r].v, off);
      PutCore(b, d, Some(if size == 4 && SlotOf(a) >= 0 then SlotVal(SlotOf(a)) else Number));
    case Stx(size, d, r, off) =>
      var a := Shifted(b.known[d].v, off);
      if size == 4 && SlotOf(a) >= 0 {
        SaveFixed(b, SlotOf(a), r);
      }
    case St(size, d, off, imm) =>
    case Call(f) => CallFixed(b, f);
  }

  lemma CoreFacts(b: Book, b': Book)
    requires Core(b) == Core(b')
    ensures b' == b.(known := b'.known)
    ensures forall r | Lasting(r) :: (r in b.known <==> r in b'.known) && (r in b.known ==> b.known[r] == b'.known[r])
  {
    forall r | Lasting(r)
      ensures (r in b.known <==> r in b'.known) && (r in b.known ==> b.known[r] == b'.known[r])
    {
      assert r in Core(b).known <==> r in b.known;
      assert r in Core(b').known <==> r in b'.known;
    }
  }

  lemma JoinCore(x: Book, y: Book)
    requires Core(x) == Core(y)
    ensures Join(Some(x), Some(y)).Some? && Core(Join(Some(x), Some(y)).value) == Core(x)
  {
    CoreFacts(x, y);
    var b := x.(known := Common(x.known, y.known));
    assert Core(b).known == Core(x).known;
  }

  // ------------------------------------------------------------------
  // Layout of blocks
  // ------------------------------------------------------------------

  lemma CompileThen(a: Code, c: Code, pos: int, cleanup: int)
    ensures var x := Compile(a, pos, cleanup);
            Compile(Then(a, c), pos, cleanup) == x + Compile(c, pos + |x|, cleanup)
  {
  }

  lemma CompileSkip(op: CondOp, r: Reg, imm: int, body: Code, pos: int, cleanup: int)
    ensures var x := Compile(body, pos + 1, cleanup);
            Compile(Skip(op, r, imm, body), pos, cleanup) == [Jmp(op, r, imm, |x|)] + x
  {
  }

  lemma CompileEither(op: CondOp, r: Reg, imm: int, els: Code, thn: Code, pos: int, cleanup: int)
    ensures var x := Compile(els, pos + 1, cleanup);
            var y := Compile(thn, pos + 2 + |x|, cleanup);
            Compile(Either(op, r, imm, els, thn), pos, cleanup) == [Jmp(op, r, imm, |x| + 1)] + x + [Ja(|y|)] + y
  {
  }

  lemma CompileDiamond(op: CondOp, r: Reg, imm: int, els: Code, thn: Code, tail: Code, pos: int, cleanup: int)
    ensures var x := Compile(els, pos + 1, cleanup);
            var y := Compile(thn, pos + 2 + |x|, cleanup);
            var z := Compile(tail, pos + 3 + |x| + |y|, cleanup);
            Compile(Diamond(op, r, imm, els, thn, tail), pos, cleanup)
            == [Jmp(op, r, imm, |x| + 1)] + x + [Ja(|y| + 1)] + y + [Ja(|z|)] + z
  {
  }

  lemma AppendOne(base: seq<Insn>, a: Code, c: Code, code: seq<Insn>, part: seq<Insn>, cleanup: int)
    requires code == base + Compile(a, |base|, cleanup) && part == Compile(c, |code|, cleanup)
    ensures code + part == base + Compile(Then(a, c), |base|, cleanup)
  {
    CompileThen(a, c, |base|, cleanup);
    hide Compile;
  }

  /** A jump over a block, and the block, are a Skip if the jump counts right. */
  lemma AppendSkip(base: seq<Insn>, a: Code, code: seq<Insn>, op: CondOp, r: Reg, imm: int, n: int,
                   body: Code, code': seq<Insn>, cleanup: int)
    requires code == base + Compile(a, |base|, cleanup)
    requires var x := Compile(body, |code| + 1, cleanup);
             n == |x| && code' == code + [Jmp(op, r, imm, n)] + x
    ensures code' == base + Compile(Then(a, Skip(op, r, imm, body)), |base|, cleanup)
  {
    CompileSkip(op, r, imm, body, |code|, cleanup);
    hide Compile;
    var x := Compile(body, |code| + 1, cleanup);
    assert code' == code + ([Jmp(op, r, imm, n)] + x);
    var part := Compile(Skip(op, r, imm, body), |code|, cleanup);
    assert code' == code + part;
    AppendOne(base, a, Skip(op, r, imm, body), code, part, cleanup);
  }

  lemma AppendEither(base: seq<Insn>, a: Code, code: seq<Insn>, op: CondOp, r: Reg, imm: int, n: int, els: Code, m: int,
                     thn: Code, code': seq<Insn>, cleanup: int)
    requires code == base + Compile(a, |base|, cleanup)
    requires var x := Compile(els, |code| + 1, cleanup);
             var y := Compile(thn, |code| + 2 + |x|, cleanup);
             n == |x| + 1 && m == |y| && code' == code + [Jmp(op, r, imm, n)] + x + [Ja(m)] + y
    ensures code' == base + Compile(Then(a, Either(op, r, imm, els, thn)), |base|, cleanup)
  {
    CompileEither(op, r, imm, els, thn, |code|, cleanup);
    hide Compile;
    var x := Compile(els, |code| + 1, cleanup);
    var y := Compile(thn, |code| + 2 + |x|, cleanup);
    var part := Compile(Either(op, r, imm, els, thn), |code|, cleanup);
    assert code' == code + part;
    AppendOne(base, a, Either(op, r, imm, els, thn), code, part, cleanup);
  }

  lemma AppendDiamond(base: seq<Insn>, a: Code, code: seq<Insn>, op: CondOp, r: Reg, imm: int, n: int, els: Code, m: int,
                      thn: Code, l: int, tail: Code, code': seq<Insn>, cleanup: int)
    requires code == base + Compile(a, |base|, cleanup)
    requires var x := Compile(els, |code| + 1, cleanup);
             var y := Compile(thn, |code| + 2 + |x|, cleanup);
             var z := Compile(tail, |code| + 3 + |x| + |y|, cleanup);
             && n == |x| + 1 && m == |y| + 1 && l == |z|
             && code' == code + [Jmp(op, r, imm, n)] + x + [Ja(m)] + y + [Ja(l)] + z
    ensures code' == base + Compile(Then(a, Diamond(op, r, imm, els, thn, tail)), |base|, cleanup)
  {
    CompileDiamond(op, r, imm, els, thn, tail, |code|, cleanup);
    hide Compile;
    var x := Compile(els, |code| + 1, cleanup);
    var y := Compile(thn, |code| + 2 + |x|, cleanup);
    var z := Compile(tail, |code| + 3 + |x| + |y|, cleanup);
    var part := Compile(Diamond(op, r, imm, els, thn, tail), |code|, cleanup);
    assert code' == code + part;
    AppendOne(base, a, Diamond(op, r, imm, els, thn, tail), code, part, cleanup);
  }

  lemma FlowThen(a: Code, c: Code, b: Book, m: Book)
    requires Flow(a, b) == Some(m)
    ensures Flow(Then(a, c), b) == Flow(c, m)
  {
  }

  lemma FlowOp(i: Plain, b: Book)
    ensures Flow(Op(i), b) == AfterOp(b, i)
  {
  }

  lemma FlowWide(d: Reg, blob: int, b: Book)
    ensures Flow(Wide(d, blob), b) == Put(b, d, Some(Is(Blob(blob))))
  {
  }

  /** Closing a Skip: its two ways agree on what lasts. */
  lemma JoinSkip(a: Code, op: CondOp, r: Reg, imm: int, body: Code, start: Book, b: Book, b': Book)
    requires Flow(a, start) == Some(b) && Flow(body, b) == Some(b') && Core(Refined(b, op, r, imm)) == Core(b')
    requires Fixed(b')
    ensures var j := Join(Some(Refined(b, op, r, imm)), Some(b'));
            j.Some? && Flow(Then(a, Skip(op, r, imm, body)), start) == j && Core(j.value) == Core(b') && Fixed(j.value)
  {
    JoinCore(Refined(b, op, r, imm), b');
    CoreFacts(Refined(b, op, r, imm), b');
    FlowThen(a, Skip(op, r, imm, body), start, b);
    CoreFacts(b', Join(Some(Refined(b, op, r, imm)), Some(b')).value);
  }

  lemma JoinEither(a: Code, op: CondOp, r: Reg, imm: int, els: Code, thn: Code, start: Book, b: Book, e: Book, h: Book)
    requires Flow(a, start) == Some(b) && Flow(els, b) == Some(e) && Flow(thn, b) == Some(h) && Core(e) == Core(h)
    requires Fixed(h)
    ensures var j := Join(Some(h), Some(e));
            j.Some? && Flow(Then(a, Either(op, r, imm, els, thn)), start) == j && Core(j.value) == Core(h) && Fixed(j.value)
  {
    JoinCore(h, e);
    FlowThen(a, Either(op, r, imm, els, thn), start, b);
    CoreFacts(h, Join(Some(h), Some(e)).value);
  }

  lemma JoinDiamond(a: Code, op: CondOp, r: Reg, imm: int, els: Code, thn: Code, tail: Code,
                    start: Book, b: Book, e: Book, h: Book, l: Book)
    requires Flow(a, start) == Some(b) && Flow(els, b) == Some(e) && Flow(thn, b) == Some(h) && Flow(tail, e) == Some(l)
    requires h == l.(known := h.known) && Fixed(h) && Fixed(l)
    ensures var j := Join(Some(h), Some(l));
            && j.Some? && Flow(Then(a, Diamond(op, r, imm, els, thn, tail)), start) == j
            && j.value == h.(known := j.value.known) && Fixed(j.value)
  {
    FlowThen(a, Diamond(op, r, imm, els, thn, tail), start, b);
  }

  lemma EmptyBlock(code: seq<Insn>, cleanup: nat, b: Book)
    ensures code == code + Compile(Empty, |code|, cleanup) && Flow(Empty, b) == Some(b)
  {
  }

  function Roundup8(n: nat): nat { (n + 7) / 8 * 8 }

  datatype Relo = Relo(name: string, kind: int, insnIdx: nat, isWeak: bool, isTypeless: bool, isLd64: bool)

  datatype Ksym = Ksym(name: string, ref: nat, kind: int, off: int, typeless: bool, insn: nat, isLd64: bool)

  /** A 16-bit jump offset. */
  function S16(n: int): int { (n + 0x8000) % 0x1_0000 - 0x8000 }

  /** How the clean-up code closes word k of the stack frame; there is room for 34. */
  function CleanSlot(k: nat): seq<Insn> {
    [Ldx(4, 1, 10, S16(-STACK_SZ + 4 * k)), Jmp(Jsle, 1, 0, 1), Call(SysClose)]
  }

  function CleanSlots(n: nat): (c: seq<Insn>)
    ensures |c| == 3 * n
  {
    if n == 0 then [] else CleanSlots(n - 1) + CleanSlot(n - 1)
  }

  /** Programs that there is room for. */
  function Cap(progs: nat): nat { if progs <= MAX_USED_PROGS then progs else MAX_USED_PROGS }

  /** The size of the clean-up code. */
  function CleanSize(progs: nat, maps: nat, log: bool): nat {
    (2 + progs) * 3 + 2 + maps * (6 + (if log then 6 else 0))
  }

  lemma SizeInReach(progs: nat, maps: nat, log: bool)
    ensures maps * 6 <= maps * (6 + (if log then 6 else 0)) <= maps * 12
    ensures progs <= MAX_USED_PROGS && maps <= MAX_USED_MAPS ==> CleanSize(progs, maps, log) < 0x8000
  {
  }

  /** Slots that are still to be closed. */
  function Remaining(progs: nat, maps: nat, j: nat): set<nat> {
    set k | k in Closable(progs, maps) && k >= j
  }

  lemma RemainingNext(progs: nat, maps: nat, j: nat)
    ensures Remaining(progs, maps, j) - {j} == Remaining(progs, maps, j + 1)
  {
  }

  lemma RemainingEnds(progs: nat, maps: nat)
    requires progs <= MAX_USED_PROGS
    ensures Remaining(progs, maps, 0) == Closable(progs, maps)
    ensures Remaining(progs, maps, 2 + progs) == Remaining(progs, maps, NR_STACK)
    ensures Remaining(progs, maps, NR_STACK + maps) == {}
  {
  }

  lemma CleanAll(progs: nat, maps: nat)
    ensures Core(CleanBook(progs, maps).(used := Remaining(progs, maps, 0))) == Core(CleanBook(progs, maps))
  {
    assert Remaining(progs, maps, 0) == Closable(progs, maps);
  }

  /** Closing the next slot of the clean-up code. */
  lemma CleanClosed(progs: nat, maps: nat, j: nat)
    ensures ClosedSlot(Core(CleanBook(progs, maps).(used := Remaining(progs, maps, j))), j)
            == Core(CleanBook(progs, maps).(used := Remaining(progs, maps, j + 1)))
  {
    RemainingNext(progs, maps, j);
  }

  /** When the clean-up code has closed k words of the stack frame. */
  function CleanLeft(progs: nat, maps: nat, k: nat): Book {
    Core(CleanBook(progs, maps).(used := Remaining(progs, maps, if k <= NR_STACK then k else NR_STACK)))
  }

  /** Maps beyond the last slot are closed without being known. */
  lemma CleanBeyond(progs: nat, maps: nat, j: nat)
    ensures j >= NR_SLOTS ==> Core(CleanBook(progs, maps).(used := Remaining(progs, maps, j))).(strays := true)
                              == Core(CleanBook(progs, maps).(used := Remaining(progs, maps, j + 1)))
  {
    if j >= NR_SLOTS {
      RemainingNone(progs, maps, j);
      RemainingNone(progs, maps, j + 1);
    }
  }

  lemma S16Slot(k: nat)
    requires k < NR_STACK
    ensures S16(-STACK_SZ + 4 * k) == -STACK_SZ + 4 * k
  {
  }

  lemma RemainingNone(progs: nat, maps: nat, j: nat)
    requires j >= NR_SLOTS
    ensures Remaining(progs, maps, j) == {}
  {
  }

  /** Zeroes the stack frame and jumps over the clean-up code. */
  function Prologue(n: int): seq<Insn> {
    [MovReg(6, 1), MovReg(1, 10), Alu(Add, 1, -STACK_SZ), MovImm(2, STACK_SZ), MovImm(3, 0), Call(ProbeReadKernel), Ja(n)]
  }

  /** After the clean-up code: nothing is held, and R0 has the error. */
  predicate CleanEnd(b: Book) {
    b.used == {} && b.pend.None? && b.cmds == [] && b.neg && 0 in b.known && b.known[0].Result?
  }

  /** The head of a program: the first jump leads behind it, and the clean-up code closes
      every slot and returns what is in R7. */
  ghost predicate HeadOk(head: seq<Insn>, clean: Code, progs: nat, maps: nat) {
    var body := Compile(clean, 7, 7);
    var end := Flow(clean, CleanBook(progs, maps));
    && head == Prologue(|body| + 1) + body + [Exit]
    && end.Some? && CleanEnd(end.value)
  }

  /** What the head is for any numbers: the first jump is over its length, as far as that
      fits 16 bits, and words of the stack frame are closed for all declared programs. */
  predicate HeadShape(head: seq<Insn>, progs: nat, maps: nat) {
    && 7 + 3 * (2 + progs) + 2 <= |head| <= 7 + 3 * (2 + progs) + 2 + 12 * maps
    && Prologue(S16(|head| - 7)) + CleanSlots(2 + progs) <= head
  }

  predicate KsymOk(k: Ksym) { k.ref >= 1 && k.insn >= MAPS_SZ && (!k.isLd64 ==> k.off >= MAX_USED_MAPS) }

  /** Kernel functions with a descriptor in the array. */
  function Kfuncs(ksyms: seq<Ksym>): nat {
    if ksyms == [] then 0
    else
      var k := ksyms[|ksyms| - 1];
      Kfuncs(ksyms[..|ksyms| - 1]) + (if !k.isLd64 && k.off < MAX_FD_ARRAY_SZ then 1 else 0)
  }

  /** Kernel symbols know where their instruction is, and functions their descriptor slot. */
  predicate KsymsOk(ksyms: seq<Ksym>, nrFdArray: int) {
    nrFdArray == Kfuncs(ksyms) <= MAX_KFUNC_DESCS && forall i :: 0 <= i < |ksyms| ==> KsymOk(ksyms[i])
  }

  predicate SameSym(k: Ksym, r: Relo) { k.kind == r.kind && k.isLd64 == r.isLd64 && k.name == r.name }

  lemma KfuncsAppend(ksyms: seq<Ksym>, k: Ksym)
    ensures Kfuncs(ksyms + [k]) == Kfuncs(ksyms) + (if !k.isLd64 && k.off < MAX_FD_ARRAY_SZ then 1 else 0)
  {
    assert (ksyms + [k])[..|ksyms|] == ksyms;
  }

  lemma {:induction false} KfuncsUpdate(ksyms: seq<Ksym>, i: nat, k: Ksym)
    requires i < |ksyms| && k.isLd64 == ksyms[i].isLd64 && k.off == ksyms[i].off
    ensures Kfuncs(ksyms[i := k]) == Kfuncs(ksyms)
    decreases |ksyms|
  {
    var n := |ksyms| - 1;
    if i < n {
      KfuncsUpdate(ksyms[..n], i, k);
      assert ksyms[i := k][..n] == ksyms[..n][i := k];
    } else {
      assert ksyms[i := k][..n] == ksyms[..n];
    }
  }

  /** Which slots commands may have filled so far. */
  predicate SlotsOk(used: set<nat>, seen: set<nat>, nrProgs: nat, nrMaps: nat) {
    used <= seen && forall k :: k in seen ==> k < NR_SLOTS && MayClose(k, nrProgs, nrMaps)
  }

  /** The slots of further programs and maps are free. */
  lemma SlotsFacts(b: Book, progs: nat, maps: nat)
    requires progs <= MAX_USED_PROGS
    ensures SlotsOk(b.used, b.seen, progs, maps) ==> NR_STACK + maps !in b.used && (progs < MAX_USED_PROGS ==> 2 + progs !in b.used)
  {
  }

  lemma PrologueLength(n: int)
    ensures |Prologue(n)| == 7
  {
  }

  lemma CleanFixed(progs: nat, maps: nat)
    ensures Fixed(CleanBook(progs, maps))
  {
  }

  lemma HeadIsOk(base: seq<Insn>, code: seq<Insn>, clean: Code, progs: nat, maps: nat, b: Book)
    requires code == base + Compile(clean, |base|, 7) && Flow(clean, CleanBook(progs, maps)) == Some(b)
    requires 6 <= |code| < 0x8000 + 6 && base == Prologue(S16(|code| - 6))
    requires CleanEnd(b)
    ensures HeadOk(code + [Exit], clean, progs, maps)
  {
    hide Compile;
    hide Flow;
    hide Prologue;
    hide S16;
    hide CleanBook;
    hide HeadOk;
    S16Small(|code| - 6);
    PrologueLength(|code| - 6);
    var body := Compile(clean, 7, 7);
    assert code == base + body && |code| - 6 == |body| + 1;
    HeadOkIs(body, clean, progs, maps, b);
  }

  lemma HeadOkIs(body: seq<Insn>, clean: Code, progs: nat, maps: nat, b: Book)
    requires body == Compile(clean, 7, 7) && Flow(clean, CleanBook(progs, maps)) == Some(b)
    requires CleanEnd(b)
    ensures HeadOk(Prologue(|body| + 1) + body + [Exit], clean, progs, maps)
  {
    hide Compile;
    hide Flow;
    hide Prologue;
    hide CleanBook;
  }

  lemma S16Small(n: int)
    requires 0 <= n < 0x8000
    ensures S16(n) == n
  {
  }

  function MapOut(i: nat): int { CTX_SZ + MAP_DESC_SZ * i }

  function ProgOut(maps: nat, i: nat): int { CTX_SZ + MAP_DESC_SZ * maps + PROG_DESC_SZ * i }

  lemma OutsCore(b0: Book, b: Book, b': Book, o: int, k: nat)
    requires Core(b) == Core(b0).(outs := b.outs) && Core(b') == Core(b).(outs := b.outs[o := k]) && PendHigh(b)
    ensures b'.outs == b.outs[o := k] && Core(b') == Core(b0).(outs := b'.outs) && PendHigh(b')
  {
  }

  lemma OutsSame(b: Book)
    ensures Core(b) == Core(b).(outs := b.outs)
  {
  }

  /** Commands of one kind, by when they were issued. */
  predicate IssuedAs(cmds: seq<int>, at: seq<nat>, cmd: int) {
    && (forall i :: 0 <= i < |at| ==> at[i] < |cmds| && cmds[at[i]] == cmd)
    && (forall i, j :: 0 <= i < j < |at| ==> at[i] < at[j])
  }

  /** Slot k holds what command c opened. */
  predicate HeldAs(b: Book, k: nat, c: nat) { k in b.home && k in b.used && b.home[k] == c }

  /** Slots from first on hold what these commands opened, in order. */
  predicate HeldFrom(b: Book, first: nat, at: seq<nat>) {
    forall i :: 0 <= i < |at| ==> HeldAs(b, first + i, at[i])
  }

  /** What is known of the commands that have loaded programs and created maps. */
  predicate Booked(b: Book, progCmds: seq<nat>, mapCmds: seq<nat>) {
    && (forall k :: k in b.used ==> k in b.home) && (b.asked ==> b.cmds != []) && (0 in b.seen ==> 0 in b.used)
    && IssuedAs(b.cmds, progCmds, BPF_PROG_LOAD) && IssuedAs(b.cmds, mapCmds, BPF_MAP_CREATE)
    && HeldFrom(b, 2, progCmds[..Cap(|progCmds|)]) && HeldFrom(b, NR_STACK, mapCmds)
  }

  /** A further command. */
  lemma BookedMore(b: Book, b': Book, cmd: int, progCmds: seq<nat>, mapCmds: seq<nat>)
    requires Booked(b, progCmds, mapCmds)
    requires b'.cmds == b.cmds + [cmd] && b'.used == b.used && b'.seen == b.seen && b'.home == b.home
    ensures Booked(b', progCmds, mapCmds)
    ensures cmd == BPF_PROG_LOAD ==> IssuedAs(b'.cmds, progCmds + [|b.cmds|], BPF_PROG_LOAD)
    ensures cmd == BPF_MAP_CREATE ==> IssuedAs(b'.cmds, mapCmds + [|b.cmds|], BPF_MAP_CREATE)
  {
  }

  lemma BookedSaved(b: Book, b': Book, k: nat, progCmds: seq<nat>, mapCmds: seq<nat>)
    requires Booked(b, progCmds, mapCmds) && Saved(b, b', k)
    ensures k < 2 ==> Booked(b', progCmds, mapCmds)
    ensures k == 2 + |progCmds| && |progCmds| < MAX_USED_PROGS && IssuedAs(b.cmds, progCmds + [|b.cmds| - 1], BPF_PROG_LOAD)
            ==> Booked(b', progCmds + [|b.cmds| - 1], mapCmds)
    ensures k == NR_STACK + |mapCmds| && IssuedAs(b.cmds, mapCmds + [|b.cmds| - 1], BPF_MAP_CREATE)
            ==> Booked(b', progCmds, mapCmds + [|b.cmds| - 1])
  {
    if k == 2 + |progCmds| && |progCmds| < MAX_USED_PROGS {
      assert (progCmds + [|b.cmds| - 1])[..|progCmds| + 1] == progCmds[..|progCmds|] + [|b.cmds| - 1];
    }
  }

  /** A program for whose descriptor there is no room. */
  lemma BookedBeyond(b: Book, b': Book, progCmds: seq<nat>, mapCmds: seq<nat>)
    requires Booked(b, progCmds, mapCmds) && |progCmds| >= MAX_USED_PROGS && b.cmds != [] && b' == b.(pend := None)
    requires IssuedAs(b.cmds, progCmds + [|b.cmds| - 1], BPF_PROG_LOAD)
    ensures Booked(b', progCmds + [|b.cmds| - 1], mapCmds)
  {
    assert (progCmds + [|b.cmds| - 1])[..MAX_USED_PROGS] == progCmds[..MAX_USED_PROGS];
  }

  lemma BookedClosed(b: Book, b': Book, progCmds: seq<nat>, mapCmds: seq<nat>)
    requires Booked(b, progCmds, mapCmds) && b' == ClosedSlot(b, 1).(known := b'.known)
    ensures Booked(b', progCmds, mapCmds)
  {
  }

  /** A command that opens nothing, or what it opens goes to slot k. */
  lemma BookedCommand(b: Book, b': Book, cmd: int, progCmds: seq<nat>, mapCmds: seq<nat>)
    requires Booked(b, progCmds, mapCmds) && Succeeded(b.(strays := b'.strays), b', cmd)
    ensures Booked(b', progCmds, mapCmds) && |b'.cmds| == |b.cmds| + 1
    ensures cmd == BPF_PROG_LOAD ==> IssuedAs(b'.cmds, progCmds + [|b.cmds|], BPF_PROG_LOAD)
    ensures cmd == BPF_MAP_CREATE ==> IssuedAs(b'.cmds, mapCmds + [|b.cmds|], BPF_MAP_CREATE)
  {
    BookedMore(b, b', cmd, progCmds, mapCmds);
  }

  /** At the end of a program: nothing is pending or unchecked, zero is returned, and the
      descriptors of all programs and maps are in the context. */
  predicate FinalBook(b: Book, progCmds: seq<nat>, mapCmds: seq<nat>) {
    var progs, maps := |progCmds|, |mapCmds|;
    && progs <= MAX_USED_PROGS
    && b.checked && b.pend.None? && 0 in b.known && b.known[0] == Is(Num(0))
    && SlotsOk(b.used, b.seen, progs, maps)
    && 0 !in b.used && (b.asked ==> b.cmds != [])
    && IssuedAs(b.cmds, progCmds, BPF_PROG_LOAD) && IssuedAs(b.cmds, mapCmds, BPF_MAP_CREATE)
    && HeldFrom(b, 2, progCmds) && HeldFrom(b, NR_STACK, mapCmds)
    && (forall i :: 0 <= i < progs ==> ProgOut(maps, i) in b.outs && b.outs[ProgOut(maps, i)] == 2 + i)
    && (forall i :: 0 <= i < maps ==> MapOut(i) in b.outs && b.outs[MapOut(i)] == NR_STACK + i)
  }

  /** In front of the store of a program's descriptor for which the stack frame has no room. */
  predicate StuckBook(b: Book) {
    b.checked && b.pend == Some(7) && b.cmds != [] && Fixed(b)
  }

  const STORE_BEYOND: Insn := Stx(4, 10, 7, 0)

  /** A finished program: its head, the compiled script, and an exit; or, with more programs
      than there is room for, the script up to the store of the first of them. */
  ghost predicate Program(code: seq<Insn>, head: seq<Insn>, clean: Code, script: Code, b: Book,
                          progCmds: seq<nat>, mapCmds: seq<nat>, allProgs: nat)
  {
    var maps := |mapCmds|;
    && HeadShape(head, allProgs, maps) && |progCmds| <= allProgs && maps <= MAX_USED_MAPS && 8 * |code| <= INT32_MAX
    && (allProgs <= MAX_USED_PROGS ==> HeadOk(head, clean, allProgs, maps))
    && Flow(script, MainBook) == Some(b) && (b.cmds != [] ==> |head| <= 7 + INT16_MAX)
    && if |progCmds| <= MAX_USED_PROGS
       then code == head + Compile(script, |head|, 7) + [Exit] && FinalBook(b, progCmds, mapCmds)
       else head + Compile(script, |head|, 7) + [STORE_BEYOND] <= code && StuckBook(b)
  }

  /** The generator's ghost state at the beginning of a block. */
  datatype Mark = Mark(base: seq<Insn>, start: Book, script: Code, book: Book, code: seq<Insn>)

  predicate Marked(m: Mark, cleanup: nat) {
    m.code == m.base + Compile(m.script, |m.base|, cleanup) && Flow(m.script, m.start) == Some(m.book)
  }

  class Gen {
    var code: seq<Insn>
    var dataSz: nat
    var error: int
    var logLevel: int
    var nrProgs: nat
    var nrMaps: nat
    var cleanupAt: nat
    var nrFdArray: int
    var attachKind: int
    var attachLen: nat
    var relos: seq<Relo>
    var coreRelos: nat
    var ksyms: seq<Ksym>

    // The head of the program: the slots it closes on an error, and how.
    ghost var progs: nat
    ghost var maps: nat
    ghost var head: seq<Insn>
    ghost var clean: Code

    // The instructions behind `base` are the compiled form of `script`; the flow analysis
    // takes the book `start` to `book` through it.
    ghost var base: seq<Insn>
    ghost var start: Book
    ghost var script: Code
    ghost var book: Book

    // The commands that have loaded programs and created maps, and the script up to the
    // store of a descriptor for which there is no room.
    ghost var progCmds: seq<nat>
    ghost var mapCmds: seq<nat>
    ghost var stem: Code
    ghost var stemBook: Book

    /** Unless there was an error, the code is well laid out and its flow is known. */
    ghost predicate Flowing()
      reads `error, `code, `base, `script, `cleanupAt, `start, `book
    {
      error == 0 ==>
        && code == base + Compile(script, |base|, cleanupAt)
        && Flow(script, start) == Some(book)
        && Fixed(book) && 8 * |code| <= INT32_MAX
    }

    /** What holds while a command is being emitted. */
    ghost predicate Standing()
      reads this
    {
      nrMaps <= MAX_USED_MAPS &&
      (error == 0 ==> dataSz >= FD_ARRAY_BYTES && cleanupAt == 7 && HeadFine() && KsymsOk(ksyms, nrFdArray) && Settled())
    }

    ghost predicate HeadFine()
      reads `head, `clean, `progs, `maps
    {
      && HeadShape(head, progs, maps)
      && (progs <= MAX_USED_PROGS && maps <= MAX_USED_MAPS ==> HeadOk(head, clean, progs, maps))
    }

    /** All code behind the head is the script's, as long as there is room for programs. */
    ghost predicate Settled()
      reads `nrProgs, `base, `start, `head, `stem, `stemBook
    {
      if nrProgs <= MAX_USED_PROGS then base == head && start == MainBook else Stuck(base)
    }

    /** The code begins with a script after which the store of a descriptor goes wrong. */
    ghost predicate Stuck(begin: seq<Insn>)
      reads `head, `stem, `stemBook
    {
      && head + Compile(stem, |head|, 7) + [STORE_BEYOND] <= begin
      && Flow(stem, MainBook) == Some(stemBook) && StuckBook(stemBook) && |head| <= 7 + INT16_MAX
    }

    /** Between commands. */
    ghost predicate Valid()
      reads this
    {
      Flowing() && Standing() && (error == 0 ==> Resting())
    }

    ghost predicate Resting()
      reads this
    {
      && Idle(book) && SlotsOk(book.used, book.seen, Cap(nrProgs), nrMaps) && ksyms == []
      && |progCmds| == nrProgs && |mapCmds| == nrMaps && Booked(book, progCmds, mapCmds)
      && (book.cmds != [] ==> |head| <= 7 + INT16_MAX)
    }

    /** Before a command. */
    lemma Begun()
      requires Valid()
      ensures Flowing() && nrMaps <= MAX_USED_MAPS
      ensures error == 0 ==> dataSz >= FD_ARRAY_BYTES && cleanupAt == 7 && HeadFine() && KsymsOk(ksyms, nrFdArray) && Settled()
      ensures error == 0 ==>
                && Idle(book) && SlotsOk(book.used, book.seen, Cap(nrProgs), nrMaps) && ksyms == []
                && |progCmds| == nrProgs && |mapCmds| == nrMaps && Booked(book, progCmds, mapCmds)
                && (book.cmds != [] ==> |head| <= 7 + INT16_MAX)
    {
    }

    /** After a command. */
    lemma Ended()
      requires Flowing() && nrMaps <= MAX_USED_MAPS
      requires error == 0 ==> dataSz >= FD_ARRAY_BYTES && cleanupAt == 7 && HeadFine() && KsymsOk(ksyms, nrFdArray) && Settled()
      requires error == 0 ==>
                && Idle(book) && SlotsOk(book.used, book.seen, Cap(nrProgs), nrMaps) && ksyms == []
                && |progCmds| == nrProgs && |mapCmds| == nrMaps && Booked(book, progCmds, mapCmds)
                && |head| <= 7 + INT16_MAX
      ensures Valid()
    {
    }

    /** Between commands the head is the beginning of what was emitted. */
    lemma SettledLonger()
      ensures Settled() ==> |head| <= |base|
    {
      hide Flow;
      hide Compile;
    }

    // ----------------------------------------------------------------
    // Buffers
    // ----------------------------------------------------------------

    /** Appends one slot, unless there was an error or the buffer cannot grow. */
    method Emit(i: Insn)
      modifies `code, `error
      ensures error == 0 ==> old(error) == 0 && code == old(code) + [i] && 8 * |code| <= INT32_MAX
      ensures old(error) != 0 ==> error == old(error) && code == old(code)
    {
      if error != 0 {
        return;
      }
      if 8 * |code| + 8 > INT32_MAX {
        error := -ERANGE;
        return;
      }
      if * {
        error := -ENOMEM;
        return;
      }
      code := code + [i];
    }

    /** Reserves zero-padded data behind everything that is there. */
    method AddData(size: nat) returns (off: nat)
      requires size <= 0xffff_fff8 && Flowing()
      modifies `dataSz, `error
      ensures Flowing()
      ensures error == 0 ==> old(error) == 0 && off == old(dataSz) && dataSz == off + Roundup8(size)
      ensures old(error) != 0 ==> error == old(error) && dataSz == old(dataSz)
    {
      off := 0;
      if error != 0 {
        return;
      }
      var size8 := Roundup8(size);
      if size8 > INT32_MAX || dataSz + size8 > INT32_MAX {
        error := -ERANGE;
        return;
      }
      if * {
        error := -ENOMEM;
        return;
      }
      off := dataSz;
      dataSz := dataSz + size8;
    }

    // ----------------------------------------------------------------
    // Single instructions
    // ----------------------------------------------------------------

    method EmitOp(i: Plain)
      requires Flowing() && (error == 0 ==> AfterOp(book, i).Some?)
      modifies `code, `error, `script, `book
      ensures Flowing() && (error == 0 ==> old(error) == 0)
      ensures error == 0 ==> code == old(code) + [i] && Some(book) == AfterOp(old(book), i)
      ensures error == 0 && Passing(old(book), i) ==> Core(book) == Core(old(book))
    {
      hide AfterOp;
      hide Core;
      hide Passing;
      Emit(i);
      if error == 0 {
        AppendOne(base, script, Op(i), old(code), [i], cleanupAt);
        FlowThen(script, Op(i), start, book);
        FlowOp(i, book);
        AfterOpFixed(book, i);
        if Passing(book, i) {
          PassingCore(book, i);
        }
        script, book := Then(script, Op(i)), AfterOp(book, i).value;
      }
    }

    method EmitWide(d: Reg, blob: int)
      requires Flowing() && (error == 0 ==> Put(book, d, Some(Is(Blob(blob)))).Some?)
      modifies `code, `error, `script, `book
      ensures Flowing() && (error == 0 ==> old(error) == 0)
      ensures error == 0 ==> |code| == |old(code)| + 2 && Some(book) == Put(old(book), d, Some(Is(Blob(blob))))
      ensures error == 0 && !Lasting(d) ==> Core(book) == Core(old(book))
    {
      hide Put;
      hide Core;
      Emit(LdImm64(d, blob));
      Emit(Hi);
      if error == 0 {
        AppendOne(base, script, Wide(d, blob), old(code), [LdImm64(d, blob), Hi], cleanupAt);
        FlowThen(script, Wide(d, blob), start, book);
        FlowWide(d, blob, book);
        PutCore(book, d, Some(Is(Blob(blob))));
        script, book := Then(script, Wide(d, blob)), Put(book, d, Some(Is(Blob(blob)))).value;
      }
    }

    /** Leaves for the clean-up code if R7 is negative, if that is within the reach of a jump. */
    method EmitCheckErr()
      requires Flowing() && (error == 0 ==> AfterCheck(book).Some?)
      modifies `code, `error, `script, `book
      ensures Flowing() && (error == 0 ==> old(error) == 0)
      ensures error == 0 ==> |code| == |old(code)| + 1 && Some(book) == AfterCheck(old(book))
      ensures error == 0 ==> |base| <= cleanupAt + INT16_MAX
    {
      var off := -(|code| - cleanupAt) - 1;
      if -0x8000 <= off <= INT16_MAX {
        Emit(Jmp(Jslt, 7, 0, off));
        if error == 0 {
          AppendOne(base, script, Check, old(code), [Jmp(Jslt, 7, 0, off)], cleanupAt);
          FlowThen(script, Check, start, book);
          script, book := Then(script, Check), AfterCheck(book).value;
        }
      } else {
        error := -ERANGE;
      }
    }

    /** A store to blob memory that is not tracked. */
    method EmitStore(i: Plain)
      requires i.Stx? || i.St?
      requires Flowing()
      requires error == 0 ==> i.dst in book.known && book.known[i.dst].Is? && Scratch(Shifted(book.known[i.dst].v, i.off))
      modifies `code, `error, `script, `book
      ensures Flowing() && (error == 0 ==> old(error) == 0)
      ensures error == 0 ==> |code| == |old(code)| + 1 && book == old(book)
    {
      hide Flowing;
      EmitOp(i);
    }

    /** A load into a register that does not last. */
    method EmitLoad(size: nat, d: Reg, r: Reg, off: int)
      requires Flowing() && !Lasting(d)
      requires error == 0 ==> r in book.known && book.known[r].Is? && Readable(Shifted(book.known[r].v, off), size) && book.pend != Some(d)
      modifies `code, `error, `script, `book
      ensures Flowing() && (error == 0 ==> old(error) == 0)
      ensures error == 0 ==> code == old(code) + [Ldx(size, d, r, off)] && Core(book) == Core(old(book))
      ensures error == 0 ==> var a := Shifted(old(book).known[r].v, off);
                             var k := if size == 4 && SlotOf(a) >= 0 then SlotVal(SlotOf(a)) else Number;
                             book == old(book).(known := old(book).known[d := k])
    {
      hide Flowing;
      hide Core;
      EmitOp(Ldx(size, d, r, off));
    }

    // ----------------------------------------------------------------
    // Blocks that are jumped over
    // ----------------------------------------------------------------

    /** Emits a conditional jump over n slots. */
    method OpenSkip(op: CondOp, r: Reg, imm: int, n: int) returns (ghost m: Mark)
      requires Flowing()
      modifies `code, `error, `base, `start, `script
      ensures Flowing() && (error == 0 ==> old(error) == 0)
      ensures error == 0 ==> Marked(m, cleanupAt) && m.base == old(base) && m.start == old(start) && m.book == book == start
      ensures error == 0 ==> base == m.code + [Jmp(op, r, imm, n)] == code && m.code == old(code)
    {
      hide Compile;
      hide Flow;
      hide Fixed;
      m := Mark(base, start, script, book, code);
      Emit(Jmp(op, r, imm, n));
      base, start, script := code, book, Empty;
      if error == 0 {
        EmptyBlock(code, cleanupAt, book);
      }
    }

    /** The jump over the block counted right, and both ways agree on what lasts. */
    ghost method CloseSkip(m: Mark, op: CondOp, r: Reg, imm: int, n: int)
      requires Flowing()
      requires error == 0 ==>
                 && Marked(m, cleanupAt) && base == m.code + [Jmp(op, r, imm, n)] && start == m.book
                 && n == |code| - |base| && Core(Refined(m.book, op, r, imm)) == Core(book)
      modifies `base, `start, `script, `book
      ensures Flowing()
      ensures error == 0 ==> base == m.base && start == m.start && Core(book) == Core(old(book))
      ensures error == 0 ==> book == old(book).(known := book.known)
    {
      hide Compile;
      hide Flow;
      hide Core;
      hide Fixed;
      if error == 0 {
        var body := script;
        AppendSkip(m.base, m.script, m.code, op, r, imm, n, body, code, cleanupAt);
        JoinSkip(m.script, op, r, imm, body, m.start, m.book, book);
        script, book := Then(m.script, Skip(op, r, imm, body)), Join(Some(Refined(m.book, op, r, imm)), Some(book)).value;
        base, start := m.base, m.start;
      }
    }

    /** Ends a way with a jump over n slots; the next one begins as b says. */
    method OpenElse(ghost b: Book, n: int) returns (ghost e: Mark)
      requires Flowing() && (error == 0 ==> Fixed(b))
      modifies `code, `error, `base, `start, `script, `book
      ensures Flowing() && (error == 0 ==> old(error) == 0)
      ensures error == 0 ==> Marked(e, cleanupAt) && e.base == old(base) && e.start == old(start) && e.book == old(book)
      ensures error == 0 ==> base == e.code + [Ja(n)] == code && start == book == b && e.code == old(code)
    {
      hide Compile;
      hide Flow;
      hide Fixed;
      e := Mark(base, start, script, book, code);
      Emit(Ja(n));
      base, start, script, book := code, b, Empty, b;
      if error == 0 {
        EmptyBlock(code, cleanupAt, book);
      }
    }

    /** Both jumps counted right, and both ways agree on what lasts. */
    ghost method CloseEither(m: Mark, e: Mark, op: CondOp, r: Reg, imm: int, n: int, n': int)
      requires Flowing()
      requires error == 0 ==>
                 && Marked(m, cleanupAt) && Marked(e, cleanupAt)
                 && e.base == m.code + [Jmp(op, r, imm, n)] && base == e.code + [Ja(n')]
                 && start == e.start == m.book
                 && n == |e.code| - |e.base| + 1 && n' == |code| - |base| && Core(e.book) == Core(book)
      modifies `base, `start, `script, `book
      ensures Flowing()
      ensures error == 0 ==> base == m.base && start == m.start && Core(book) == Core(old(book))
      ensures error == 0 ==> book == old(book).(known := book.known)
    {
      hide Compile;
      hide Flow;
      hide Core;
      hide Fixed;
      if error == 0 {
        var thn := script;
        AppendEither(m.base, m.script, m.code, op, r, imm, n, e.script, n', thn, code, cleanupAt);
        JoinEither(m.script, op, r, imm, e.script, thn, m.start, m.book, e.book, book);
        script, book := Then(m.script, Either(op, r, imm, e.script, thn)), Join(Some(book), Some(e.book)).value;
        base, start := m.base, m.start;
      }
    }

    /** All three jumps counted right. */
    ghost method CloseDiamond(m: Mark, e: Mark, h: Mark, op: CondOp, r: Reg, imm: int, n: int, n': int, n'': int)
      requires Flowing()
      requires error == 0 ==>
                 && Marked(m, cleanupAt) && Marked(e, cleanupAt) && Marked(h, cleanupAt)
                 && e.base == m.code + [Jmp(op, r, imm, n)] && h.base == e.code + [Ja(n')] && base == h.code + [Ja(n'')]
                 && h.start == e.start == m.book && start == e.book
                 && n == |e.code| - |e.base| + 1 && n' == |h.code| - |h.base| + 1 && n'' == |code| - |base|
                 && h.book == book.(known := h.book.known) && Fixed(h.book)
      modifies `base, `start, `script, `book
      ensures Flowing()
      ensures error == 0 ==> base == m.base && start == m.start && book == old(book).(known := book.known)
      ensures error == 0 && 8 in old(book).known && 8 in h.book.known && old(book).known[8] == h.book.known[8] ==>
                8 in book.known && book.known[8] == old(book).known[8]
    {
      hide Compile;
      hide Flow;
      hide Fixed;
      if error == 0 {
        var tail := script;
        AppendDiamond(m.base, m.script, m.code, op, r, imm, n, e.script, n', h.script, n'', tail, code, cleanupAt);
        JoinDiamond(m.script, op, r, imm, e.script, h.script, tail, m.start, m.book, e.book, h.book, book);
        script, book := Then(m.script, Diamond(op, r, imm, e.script, h.script, tail)), Join(Some(h.book), Some(book)).value;
        base, start := m.base, m.start;
      }
    }

    // ----------------------------------------------------------------
    // Moving words
    // ----------------------------------------------------------------

    /** Puts the address of some data of the blob into another word of it. */
    method EmitRelStore(off: int, data: int)
      requires Flowing() && (error == 0 ==> off >= MAPS_SZ && PendHigh(book))
      modifies `code, `error, `script, `book
      ensures Flowing() && (error == 0 ==> old(error) == 0)
      ensures error == 0 ==> |code| == |old(code)| + 5 && Core(book) == Core(old(book))
      ensures error == 0 ==> PendHigh(book)
    {
      hide Core;
      hide Flowing;
      EmitWide(0, data);
      EmitWide(1, off);
      EmitStore(Stx(8, 1, 0, 0));
    }

    method MoveBlob2Blob(off: int, size: nat, blobOff: int)
      requires Flowing() && (error == 0 ==> off >= MAPS_SZ && PendHigh(book))
      modifies `code, `error, `script, `book
      ensures Flowing() && (error == 0 ==> old(error) == 0)
      ensures error == 0 ==> |code| == |old(code)| + 6 && Core(book) == Core(old(book))
      ensures error == 0 ==> PendHigh(book)
    {
      hide Core;
      hide Flowing;
      EmitWide(2, blobOff);
      EmitLoad(size, 0, 2, 0);
      EmitWide(1, off);
      EmitStore(Stx(size, 1, 0, 0));
    }

    method MoveStack2Blob(off: int, size: nat, stackOff: int)
      requires Readable(Stack(stackOff), size) && Flowing() && (error == 0 ==> off >= MAPS_SZ && PendHigh(book))
      modifies `code, `error, `script, `book
      ensures Flowing() && (error == 0 ==> old(error) == 0)
      ensures error == 0 ==> |code| == |old(code)| + 4 && Core(book) == Core(old(book))
      ensures error == 0 ==> PendHigh(book)
    {
      IsFixed();
      hide Core;
      hide Flowing;
      EmitLoad(size, 0, 10, stackOff);
      EmitWide(1, off);
      EmitStore(Stx(size, 1, 0, 0));
    }

    lemma IsFixed()
      requires Flowing()
      ensures error == 0 ==> Fixed(book)
    {
    }

    /** R0 goes to the blob. */
    method EmitBlobStore(off: int, size: nat)
      requires Flowing() && (error == 0 ==> off >= MAPS_SZ && PendHigh(book))
      modifies `code, `error, `script, `book
      ensures Flowing() && (error == 0 ==> old(error) == 0)
      ensures error == 0 ==> |code| == |old(code)| + 3 && Core(book) == Core(old(book)) && PendHigh(book) && Fixed(book)
    {
      hide Core;
      hide Flowing;
      EmitWide(1, off);
      EmitStore(Stx(size, 1, 0, 0));
      IsFixed();
    }

    /** The context word is not taken over if it is zero and a value is asked for. */
    method MoveCtx2Blob(off: int, size: nat, ctxOff: int, checkNonZero: bool)
      requires Flowing() && (error == 0 ==> off >= MAPS_SZ && PendHigh(book))
      modifies `code, `error, `script, `book, `base, `start
      ensures Flowing() && (error == 0 ==> old(error) == 0 && base == old(base) && start == old(start))
      ensures error == 0 ==> |code| == |old(code)| + (if checkNonZero then 5 else 4) && Core(book) == Core(old(book))
      ensures error == 0 ==> PendHigh(book)
    {
      IsFixed();
      hide Core;
      hide Flowing;
      hide Marked;
      EmitLoad(size, 0, 6, ctxOff);
      if checkNonZero {
        ghost var m := OpenSkip(Jeq, 0, 0, 3);
        EmitBlobStore(off, size);
        CloseSkip(m, Jeq, 0, 0, 3);
      } else {
        EmitBlobStore(off, size);
      }
    }

    /** The word of a slot goes to the context. */
    method MoveStack2Ctx(ctxOff: int, stackOff: int)
      requires SlotOf(Stack(stackOff)) >= 0 && Flowing() && (error == 0 ==> PendHigh(book))
      modifies `code, `error, `script, `book
      ensures Flowing() && (error == 0 ==> old(error) == 0)
      ensures error == 0 ==> Core(book) == Core(old(book)).(outs := old(book).outs[ctxOff := SlotOf(Stack(stackOff))])
    {
      IsFixed();
      hide Core;
      hide Flowing;
      EmitLoad(4, 0, 10, stackOff);
      EmitOut(ctxOff, SlotOf(Stack(stackOff)));
    }

    method MoveBlob2Ctx(ctxOff: int, blobOff: int)
      requires SlotOf(Blob(blobOff)) >= 0 && Flowing() && (error == 0 ==> PendHigh(book))
      modifies `code, `error, `script, `book
      ensures Flowing() && (error == 0 ==> old(error) == 0)
      ensures error == 0 ==> Core(book) == Core(old(book)).(outs := old(book).outs[ctxOff := SlotOf(Blob(blobOff))])
    {
      hide Core;
      hide Flowing;
      EmitWide(1, blobOff);
      EmitLoad(4, 0, 1, 0);
      EmitOut(ctxOff, SlotOf(Blob(blobOff)));
    }

    method EmitOut(ctxOff: int, k: nat)
      requires Flowing() && (error == 0 ==> 0 in book.known && book.known[0] == SlotVal(k))
      modifies `code, `error, `script, `book
      ensures Flowing() && (error == 0 ==> old(error) == 0)
      ensures error == 0 ==> Core(book) == Core(old(book)).(outs := old(book).outs[ctxOff := k])
    {
      IsFixed();
      hide Flowing;
      EmitOp(Stx(4, 6, 0, ctxOff));
    }

    // ----------------------------------------------------------------
    // Calls
    // ----------------------------------------------------------------

    /** Passes an argument in one of the registers R1 to R5. */
    method EmitArg(i: Plain)
      requires (i.MovReg? || i.MovImm?) && i.dst < 6
      requires Flowing() && (error == 0 ==> PendHigh(book))
      modifies `code, `error, `script, `book
      ensures Flowing() && (error == 0 ==> old(error) == 0 && PendHigh(book))
      ensures error == 0 ==> |code| == |old(code)| + 1 && Core(book) == Core(old(book))
      ensures error == 0 && i.MovImm? ==> book == old(book).(known := old(book).known[i.dst := Is(Num(i.imm))])
    {
      hide Flowing;
      hide Core;
      EmitOp(i);
    }

    method EmitPrint(addr: int, len: nat, reg1: int, reg2: int)
      requires reg1 < 11 && reg2 < 11
      requires Flowing() && (error == 0 ==> PendHigh(book))
      modifies `code, `error, `script, `book
      ensures Flowing() && (error == 0 ==> old(error) == 0)
      ensures error == 0 ==> Core(book) == Core(old(book))
      ensures error == 0 ==> |code| == |old(code)| + 4 + (if reg1 >= 0 then 1 else 0) + (if reg2 >= 0 then 1 else 0)
      ensures error == 0 ==> PendHigh(book)
    {
      hide Core;
      hide Flowing;
      hide High;
      EmitWide(1, addr);
      EmitArg(MovImm(2, len));
      if reg1 >= 0 {
        EmitArg(MovReg(3, reg1));
      }
      if reg2 >= 0 {
        EmitArg(MovReg(4, reg2));
      }
      EmitOp(Call(TracePrintk));
    }

    /** Prints up to two registers if the loader is to log what it does. */
    method EmitDebug(len: nat, reg1: int, reg2: int)
      requires len <= 0xffff_fff8 && reg1 < 11 && reg2 < 11
      requires Flowing() && (error == 0 ==> PendHigh(book))
      modifies `code, `error, `script, `book, `dataSz
      ensures Flowing() && (error == 0 ==> old(error) == 0 && dataSz >= old(dataSz))
      ensures error == 0 ==> Core(book) == Core(old(book))
      ensures error == 0 ==> |code| == |old(code)| + (if logLevel == 0 then 0 else
                                                     4 + (if reg1 >= 0 then 1 else 0) + (if reg2 >= 0 then 1 else 0))
      ensures error == 0 ==> PendHigh(book)
    {
      hide Core;
      hide Compile;
      hide Flow;
      if logLevel == 0 {
        return;
      }
      var addr := AddData(len);
      EmitPrint(addr, len, reg1, reg2);
    }

    /** Issues a command; its result is remembered in R7. */
    method EmitSysBpf(cmd: int, attr: int, attrSize: int)
      requires Flowing() && (error == 0 ==> attr >= MAPS_SZ && book.checked && book.pend.None?)
      modifies `code, `error, `script, `book
      ensures Flowing() && (error == 0 ==> old(error) == 0)
      ensures error == 0 ==> Issued(old(book), book, cmd)
    {
      hide Flowing;
      hide Core;
      EmitArg(MovImm(1, cmd));
      EmitWide(2, attr);
      EmitArg(MovImm(3, attrSize));
      EmitBpf(old(book), cmd);
    }

    method EmitBpf(ghost b: Book, cmd: int)
      requires Flowing() && (error == 0 ==> AfterBpf(book).Some? && HasNum(book, 1, cmd) && Core(b) == Core(book))
      modifies `code, `error, `script, `book
      ensures Flowing() && (error == 0 ==> old(error) == 0)
      ensures error == 0 ==> Issued(b, book, cmd)
    {
      hide Flowing;
      ghost var b0 := book;
      EmitOp(Call(SysBpf));
      EmitOp(MovReg(7, 0));
      if error == 0 {
        CoreFacts(b, b0);
        assert AfterBpf(b0).Some?;
      }
    }

    /** if (R1 > 0) close(R1) */
    method EmitClose()
      requires Flowing() && (error == 0 ==> 1 in book.known && IsNumber(book.known[1]) && PendHigh(book))
      modifies `code, `error, `script, `book, `base, `start, `dataSz
      ensures Flowing()
      ensures error == 0 ==> old(error) == 0 && base == old(base) && start == old(start) && dataSz >= old(dataSz)
      ensures error == 0 ==> Core(book) == Core(Closed(old(book)))
      ensures error == 0 ==> |code| == |old(code)| + (if logLevel == 0 then 3 else 9)
    {
      hide Core;
      hide Flowing;
      hide Marked;
      hide Closed;
      var n := 2 + (if logLevel == 0 then 0 else 6);
      ghost var m := OpenSkip(Jsle, 1, 0, n);
      EmitLoggedClose();
      if error == 0 {
        RefinedIsClosed(old(book));
      }
      CloseSkip(m, Jsle, 1, 0, n);
    }

    /** Closes the descriptor in R1 and logs it. */
    method EmitLoggedClose()
      requires Flowing() && (error == 0 ==> 1 in book.known && IsNumber(book.known[1]) && PendHigh(book))
      modifies `code, `error, `script, `book, `dataSz
      ensures Flowing() && (error == 0 ==> old(error) == 0 && dataSz >= old(dataSz))
      ensures error == 0 ==> Core(book) == Core(Closed(old(book)))
      ensures error == 0 ==> |code| == |old(code)| + (if logLevel == 0 then 2 else 8)
    {
      hide Core;
      hide Flowing;
      hide Closed;
      EmitOp(MovReg(9, 1));
      if error == 0 {
        CoreClosed(old(book), book);
      }
      EmitCloseCall();
      EmitDebug(15, 9, 0);
    }

    method EmitCloseCall()
      requires Flowing() && (error == 0 ==> 1 in book.known && IsNumber(book.known[1]) && PendHigh(book))
      modifies `code, `error, `script, `book
      ensures Flowing() && (error == 0 ==> old(error) == 0)
      ensures error == 0 ==> code == old(code) + [Call(SysClose)] && Core(book) == Core(Closed(old(book))) && PendHigh(book)
    {
      hide Core;
      hide Flowing;
      hide Closed;
      EmitOp(Call(SysClose));
      if error == 0 {
        CloseCore(old(book), book);
      }
    }

    method EmitCloseStack(stackOff: int)
      requires SlotOf(Stack(stackOff)) >= 0 && Flowing() && (error == 0 ==> PendHigh(book))
      modifies `code, `error, `script, `book, `base, `start, `dataSz
      ensures Flowing()
      ensures error == 0 ==> old(error) == 0 && base == old(base) && start == old(start) && dataSz >= old(dataSz)
      ensures error == 0 ==> Core(book) == ClosedSlot(Core(old(book)), SlotOf(Stack(stackOff)))
    {
      IsFixed();
      hide Flowing;
      hide Core;
      hide Closed;
      EmitLoad(4, 1, 10, stackOff);
      if error == 0 {
        ClosedAs(old(book), book, SlotOf(Stack(stackOff)));
      }
      EmitClose();
    }

    method EmitCloseBlob(blobOff: int)
      requires Flowing() && (error == 0 ==> PendHigh(book))
      modifies `code, `error, `script, `book, `base, `start, `dataSz
      ensures Flowing()
      ensures error == 0 ==> old(error) == 0 && base == old(base) && start == old(start) && dataSz >= old(dataSz)
      ensures error == 0 ==> var k := SlotOf(Blob(blobOff));
                             Core(book) == if k >= 0 then ClosedSlot(Core(old(book)), k) else Core(old(book)).(strays := true)
      ensures error == 0 ==> |code| == |old(code)| + (if logLevel == 0 then 6 else 12)
    {
      hide Flowing;
      hide Core;
      hide Closed;
      EmitWide(0, blobOff);
      EmitLoad(4, 1, 0, 0);
      ghost var k := SlotOf(Blob(blobOff));
      if error == 0 {
        ClosedAs(old(book), book, if k >= 0 then k else 0);
      }
      EmitClose();
    }

    // ----------------------------------------------------------------
    // The head of the program
    // ----------------------------------------------------------------

    /** Closes one word of the stack frame. */
    method EmitCleanSlot(k: nat)
      requires k < NR_STACK
      requires Flowing() && (error == 0 ==> PendHigh(book))
      modifies `code, `error, `script, `book, `base, `start
      ensures Flowing() && (error == 0 ==> old(error) == 0 && base == old(base) && start == old(start))
      ensures error == 0 ==> code == old(code) + CleanSlot(k)
      ensures error == 0 ==> Core(book) == ClosedSlot(Core(old(book)), k)
    {
      IsFixed();
      hide Flowing;
      hide Core;
      hide Closed;
      S16Slot(k);
      hide S16;
      EmitLoad(4, 1, 10, -STACK_SZ + 4 * k);
      if error == 0 {
        ClosedAs(old(book), book, k);
      }
      EmitCloseIf();
    }

    /** Closes the descriptor in R1 if it is positive. */
    method EmitCloseIf()
      requires Flowing() && (error == 0 ==> 1 in book.known && IsNumber(book.known[1]) && PendHigh(book))
      modifies `code, `error, `script, `book, `base, `start
      ensures Flowing() && (error == 0 ==> old(error) == 0 && base == old(base) && start == old(start))
      ensures error == 0 ==> code == old(code) + [Jmp(Jsle, 1, 0, 1), Call(SysClose)] && Core(book) == Core(Closed(old(book)))
    {
      hide Flowing;
      hide Marked;
      hide Core;
      hide Closed;
      ghost var m := OpenSkip(Jsle, 1, 0, 1);
      EmitCloseCall();
      if error == 0 {
        RefinedIsClosed(m.book);
      }
      CloseSkip(m, Jsle, 1, 0, 1);
    }

    /** Beyond the stack frame the same instructions are emitted, of which nothing is known. */
    method EmitRawSlot(k: nat)
      requires Flowing()
      modifies `code, `error, `script, `base, `start
      ensures Flowing()
      ensures error == 0 ==> old(error) == 0 && code == old(code) + CleanSlot(k)
    {
      hide Flow;
      hide Compile;
      hide S16;
      Emit(Ldx(4, 1, 10, S16(-STACK_SZ + 4 * k)));
      Emit(Jmp(Jsle, 1, 0, 1));
      Emit(Call(SysClose));
      base, start, script := code, book, Empty;
      EmptyBlock(code, cleanupAt, book);
    }

    method EmitCleanStack(nrProgs: nat)
      requires Flowing()
      requires error == 0 ==> Core(book) == Core(CleanBook(Cap(nrProgs), maps))
      modifies `code, `error, `script, `book, `base, `start
      ensures Flowing() && (error == 0 ==> old(error) == 0)
      ensures error == 0 && nrProgs <= MAX_USED_PROGS ==> base == old(base) && start == old(start)
      ensures error == 0 ==> code == old(code) + CleanSlots(2 + nrProgs)
      ensures error == 0 ==> Core(book) == Core(CleanBook(Cap(nrProgs), maps).(used := Remaining(Cap(nrProgs), maps, NR_STACK)))
    {
      hide Flowing;
      hide Core;
      hide CleanBook;
      hide Remaining;
      hide CleanSlot;
      var size := 8 + 4 * nrProgs;
      var i := 0;
      ghost var k := 0;
      ghost var c := Cap(nrProgs);
      RemainingEnds(c, maps);
      CleanAll(c, maps);
      while i < size
        invariant i == 4 * k && k <= 2 + nrProgs
        invariant Flowing() && (error == 0 ==> old(error) == 0)
        invariant error == 0 && k <= NR_STACK ==> base == old(base) && start == old(start)
        invariant error == 0 ==> code == old(code) + CleanSlots(k)
        invariant error == 0 ==> Core(book) == CleanLeft(c, maps, k)
      {
        EmitCleanWord(i / 4, c);
        i, k := i + 4, k + 1;
      }
    }

    /** Closes a word of the stack frame, or what would be a word if there were more. */
    method EmitCleanWord(k: nat, ghost c: nat)
      requires Flowing() && (error == 0 ==> Core(book) == CleanLeft(c, maps, k))
      modifies `code, `error, `script, `book, `base, `start
      ensures Flowing() && (error == 0 ==> old(error) == 0)
      ensures error == 0 && k < NR_STACK ==> base == old(base) && start == old(start)
      ensures error == 0 ==> code == old(code) + CleanSlot(k) && Core(book) == CleanLeft(c, maps, k + 1)
    {
      hide Flowing;
      hide Core;
      hide CleanBook;
      hide Remaining;
      hide CleanSlot;
      CleanPend(c, maps, if k <= NR_STACK then k else NR_STACK);
      if k < NR_STACK {
        EmitCleanSlot(k);
        CleanClosed(c, maps, k);
      } else {
        EmitRawSlot(k);
      }
    }

    lemma CleanPend(progs: nat, maps: nat, j: nat)
      ensures error == 0 && Core(book) == Core(CleanBook(progs, maps).(used := Remaining(progs, maps, j))) ==> PendHigh(book)
    {
      assert Core(book).pend == book.pend;
    }

    method EmitCleanMaps(nrMaps: nat, ghost c: nat)
      requires c <= MAX_USED_PROGS && nrMaps == maps && Flowing()
      requires error == 0 ==> Core(book) == Core(CleanBook(c, maps).(used := Remaining(c, maps, NR_STACK)))
      modifies `code, `error, `script, `book, `base, `start, `dataSz
      ensures Flowing()
      ensures error == 0 ==> old(error) == 0 && base == old(base) && start == old(start) && dataSz >= old(dataSz)
      ensures error == 0 ==> |code| == |old(code)| + nrMaps * (6 + (if logLevel == 0 then 0 else 6))
      ensures error == 0 ==> Core(book) == Core(CleanBook(c, maps).(used := {}))
    {
      hide Core;
      hide Remaining;
      hide CleanBook;
      RemainingEnds(c, maps);
      var per := 6 + (if logLevel == 0 then 0 else 6);
      for i := 0 to nrMaps
        invariant Flowing()
        invariant error == 0 ==> old(error) == 0 && base == old(base) && start == old(start) && dataSz >= old(dataSz)
        invariant error == 0 ==> |code| == |old(code)| + i * per
        invariant error == 0 ==> Core(book) == Core(CleanBook(c, maps).(used := Remaining(c, maps, NR_STACK + i)))
      {
        hide Flowing;
        CleanMap(i, maps, c);
        assert (i + 1) * per == i * per + per;
      }
    }

    method CleanMap(i: nat, ghost nrMaps: nat, ghost c: nat)
      requires Flowing() && i < nrMaps
      requires error == 0 ==> Core(book) == Core(CleanBook(c, nrMaps).(used := Remaining(c, nrMaps, NR_STACK + i)))
      modifies `code, `error, `script, `book, `base, `start, `dataSz
      ensures Flowing()
      ensures error == 0 ==> old(error) == 0 && base == old(base) && start == old(start) && dataSz >= old(dataSz)
      ensures error == 0 ==> |code| == |old(code)| + 6 + (if logLevel == 0 then 0 else 6)
      ensures error == 0 ==> Core(book) == Core(CleanBook(c, nrMaps).(used := Remaining(c, nrMaps, NR_STACK + i + 1)))
    {
      hide Flowing;
      hide Core;
      hide CleanBook;
      hide Remaining;
      CleanPend(c, nrMaps, NR_STACK + i);
      EmitCloseBlob(4 * i);
      CleanClosed(c, nrMaps, NR_STACK + i);
      CleanBeyond(c, nrMaps, NR_STACK + i);
    }

    /** Starts a program for so many programs and maps. */
    constructor (logLevel: int, nrProgs: nat, nrMaps: nat)
      ensures Valid() && this.nrProgs == 0 && this.nrMaps == 0 && this.progs == nrProgs && this.maps == nrMaps
      ensures relos == [] && ksyms == [] && coreRelos == 0 && this.logLevel == logLevel && attachKind == 0 && attachLen == 0
      ensures error == 0 ==> book == MainBook && |head| == 7 + CleanSize(nrProgs, nrMaps, logLevel != 0)
    {
      code, dataSz, error, this.logLevel, this.nrProgs, this.nrMaps, cleanupAt := [], 0, 0, logLevel, 0, 0, 0;
      nrFdArray, attachKind, attachLen, relos, coreRelos, ksyms := 0, 0, 0, [], 0, [];
      progs, maps, head, clean := nrProgs, nrMaps, [], Empty;
      base, start, script, book := [], MainBook, Empty, MainBook;
      progCmds, mapCmds, stem, stemBook := [], [], Empty, MainBook;
      new;
      hide Valid;
      hide CleanSize;
      EmptyBlock([], 0, MainBook);
      EmitHead(nrProgs, nrMaps);
    }

    method EmitHead(nrProgs: nat, nrMaps: nat)
      requires Flowing()
      requires nrProgs == progs && nrMaps == maps && code == [] && error == 0 && dataSz == 0
      requires this.nrProgs == 0 && this.nrMaps == 0 && ksyms == [] && nrFdArray == 0 && progCmds == [] && mapCmds == []
      modifies `code, `error, `dataSz, `cleanupAt, `base, `start, `script, `book, `head, `clean
      ensures Valid()
      ensures error == 0 ==> book == MainBook && |head| == 7 + CleanSize(nrProgs, nrMaps, logLevel != 0)
    {
      hide Flowing;
      hide Valid;
      hide S16;
      hide Core;
      hide CleanBook;
      hide Prologue;
      hide Remaining;
      hide CleanSlots;
      hide Marked;
      var fdArray := AddData(MAX_FD_ARRAY_SZ * 4);
      EmitPrologue(nrProgs, nrMaps);
      cleanupAt := |code|;
      PrologueLength(S16(CleanSize(nrProgs, nrMaps, logLevel != 0)));
      SizeInReach(nrProgs, nrMaps, logLevel != 0);
      EmitCleanup(nrProgs, nrMaps);
    }

    /** The clean-up code, behind the prologue. */
    method EmitCleanup(nrProgs: nat, nrMaps: nat)
      requires nrProgs == progs && nrMaps == maps
      requires this.nrProgs == 0 && this.nrMaps == 0 && ksyms == [] && nrFdArray == 0 && progCmds == [] && mapCmds == []
      requires error == 0 ==> dataSz >= FD_ARRAY_BYTES && cleanupAt == 7 == |code| && 8 * |code| <= INT32_MAX
      requires error == 0 ==> code == Prologue(S16(CleanSize(nrProgs, nrMaps, logLevel != 0)))
      modifies `code, `error, `dataSz, `base, `start, `script, `book, `head, `clean
      ensures Valid() && (error == 0 ==> old(error) == 0)
      ensures error == 0 ==> book == MainBook && |head| == 7 + CleanSize(nrProgs, nrMaps, logLevel != 0)
    {
      hide Flowing;
      hide Valid;
      hide S16;
      hide Core;
      hide CleanBook;
      hide Prologue;
      hide Remaining;
      hide CleanSlots;
      hide CleanSize;
      ghost var p := code;
      StartClean(Cap(nrProgs));
      EmitCleanStack(nrProgs);
      EmitCleanRest(nrMaps, p);
    }

    /** The clean-up code behind the words of the stack frame. */
    method EmitCleanRest(nrMaps: nat, ghost p: seq<Insn>)
      requires Flowing() && nrMaps == maps
      requires nrProgs == 0 && this.nrMaps == 0 && ksyms == [] && nrFdArray == 0 && progCmds == [] && mapCmds == []
      requires error == 0 ==> Core(book) == Core(CleanBook(Cap(progs), maps).(used := Remaining(Cap(progs), maps, NR_STACK)))
      requires error == 0 ==>
                 && dataSz >= FD_ARRAY_BYTES && cleanupAt == 7 && |p| == 7
                 && p == Prologue(S16(CleanSize(progs, maps, logLevel != 0))) && code == p + CleanSlots(2 + progs)
                 && (progs <= MAX_USED_PROGS ==> base == p && start == CleanBook(progs, maps))
      modifies `code, `error, `dataSz, `base, `start, `script, `book, `head, `clean
      ensures Valid() && (error == 0 ==> old(error) == 0)
      ensures error == 0 ==> book == MainBook && |head| == 7 + CleanSize(progs, maps, logLevel != 0)
    {
      hide Flowing;
      hide Valid;
      hide S16;
      hide Core;
      hide CleanBook;
      hide Prologue;
      hide Remaining;
      hide CleanSlots;
      hide Marked;
      ghost var m := OpenPart();
      EmitCleanMaps(nrMaps, Cap(progs));
      CleanR7(Cap(progs));
      EmitResult();
      if error == 0 {
        IsPrefix();
      }
      ClosePart(m);
      EmitExit(p);
    }

    lemma IsPrefix()
      requires Flowing()
      ensures error == 0 ==> base <= code
    {
      hide Flow;
    }

    /** The code so far is set aside as the first part of a block. */
    ghost method OpenPart() returns (m: Mark)
      requires Flowing()
      modifies `base, `start, `script
      ensures Flowing() && m == Mark(old(base), old(start), old(script), book, code)
      ensures error == 0 ==> Marked(m, cleanupAt) && base == code && start == book
    {
      hide Flow;
      hide Compile;
      m := Mark(base, start, script, book, code);
      base, start, script := code, book, Empty;
      EmptyBlock(code, cleanupAt, book);
    }

    ghost method ClosePart(m: Mark)
      requires Flowing() && (error == 0 ==> Marked(m, cleanupAt) && base == m.code && start == m.book)
      modifies `base, `start, `script
      ensures Flowing() && (error == 0 ==> base == m.base && start == m.start)
    {
      if error == 0 {
        AppendOne(m.base, m.script, script, m.code, Compile(script, |m.code|, cleanupAt), cleanupAt);
        FlowThen(m.script, script, m.start, m.book);
        hide Flow;
        hide Compile;
        base, start, script := m.base, m.start, Then(m.script, script);
      }
    }

    ghost method StartClean(c: nat)
      requires error == 0 ==> 8 * |code| <= INT32_MAX
      modifies `base, `start, `script, `book
      ensures Flowing() && base == code && start == book == CleanBook(c, maps)
    {
      hide Compile;
      hide Flow;
      base, start, script, book := code, CleanBook(c, maps), Empty, CleanBook(c, maps);
      EmptyBlock(code, cleanupAt, book);
      CleanFixed(c, maps);
    }

    method EmitPrologue(nrProgs: nat, nrMaps: nat)
      requires error == 0 ==> code == []
      modifies `code, `error
      ensures error == 0 ==> old(error) == 0 && 8 * |code| <= INT32_MAX
      ensures error == 0 ==> code == Prologue(S16(CleanSize(nrProgs, nrMaps, logLevel != 0)))
    {
      Emit(MovReg(6, 1));
      Emit(MovReg(1, 10));
      Emit(Alu(Add, 1, -STACK_SZ));
      Emit(MovImm(2, STACK_SZ));
      Emit(MovImm(3, 0));
      Emit(Call(ProbeReadKernel));
      var size := 8 + 4 * nrProgs;
      Emit(Ja(S16(size / 4 * 3 + 2 + nrMaps * (6 + (if logLevel == 0 then 0 else 6)))));
    }

    /** R7 contains the error, which is in R0 by now; the clean-up code returns it. */
    method EmitExit(ghost p: seq<Insn>)
      requires Flowing() && nrProgs == 0 && nrMaps == 0 && ksyms == [] && nrFdArray == 0 && progCmds == [] && mapCmds == []
      requires error == 0 ==>
                 && dataSz >= FD_ARRAY_BYTES && cleanupAt == 7 && CleanEnd(book)
                 && |code| == 6 + CleanSize(progs, maps, logLevel != 0) && p == Prologue(S16(|code| - 6))
                 && p + CleanSlots(2 + progs) <= code
                 && (progs <= MAX_USED_PROGS ==> base == p && start == CleanBook(progs, maps))
      modifies `code, `error, `base, `start, `script, `book, `head, `clean
      ensures Valid() && (error == 0 ==> old(error) == 0)
      ensures error == 0 ==> book == MainBook && |head| == 7 + CleanSize(progs, maps, logLevel != 0)
    {
      hide Flow;
      hide Compile;
      hide HeadOk;
      hide Prologue;
      hide S16;
      hide CleanBook;
      hide CleanSlots;
      hide Fixed;
      hide Booked;
      hide CleanEnd;
      hide Valid;
      ghost var code0 := code;
      SizeInReach(progs, maps, logLevel != 0);
      Emit(Exit);
      if error == 0 && progs <= MAX_USED_PROGS && maps <= MAX_USED_MAPS {
        HeadIsOk(base, code0, script, progs, maps, book);
      }
      SetHead();
      NothingBooked();
      if error == 0 {
        HeadIsShape(p, code0);
        HeadIsValid();
      } else {
        FailedIsValid();
      }
    }

    /** The code so far is the head, and what follows is a new script. */
    ghost method SetHead()
      requires error == 0 ==> 8 * |code| <= INT32_MAX
      modifies `base, `start, `script, `book, `head, `clean
      ensures Flowing() && clean == old(script) && head == base == code && start == book == MainBook
    {
      hide Flow;
      hide Compile;
      clean, head := script, code;
      base, start, script, book := code, MainBook, Empty, MainBook;
      EmptyBlock(code, cleanupAt, MainBook);
    }

    lemma HeadIsShape(p: seq<Insn>, code0: seq<Insn>)
      requires |code0| == 6 + CleanSize(progs, maps, logLevel != 0) && p == Prologue(S16(|code0| - 6))
      requires p + CleanSlots(2 + progs) <= code0 && head == code0 + [Exit]
      ensures HeadShape(head, progs, maps) && |head| == 7 + CleanSize(progs, maps, logLevel != 0)
    {
      hide Prologue;
      hide S16;
      hide CleanSlots;
      SizeInReach(progs, maps, logLevel != 0);
    }

    lemma HeadIsValid()
      requires Flowing() && error == 0 && nrProgs == 0 && nrMaps == 0 && ksyms == [] && nrFdArray == 0 && progCmds == []
      requires mapCmds == [] && dataSz >= FD_ARRAY_BYTES && cleanupAt == 7 && HeadShape(head, progs, maps)
      requires progs <= MAX_USED_PROGS && maps <= MAX_USED_MAPS ==> HeadOk(head, clean, progs, maps)
      requires base == head && start == book == MainBook && Booked(MainBook, [], [])
      ensures Valid()
    {
      hide Flowing;
      hide HeadOk;
      hide KsymsOk;
      NoKsyms();
      hide HeadShape;
      hide Booked;
    }

    lemma NothingBooked()
      ensures Booked(MainBook, [], [])
    {
    }

    method EmitResult()
      requires Flowing() && (error == 0 ==> 7 in book.known && book.known[7].Result? && book.pend.None?)
      modifies `code, `error, `script, `book
      ensures Flowing() && (error == 0 ==> old(error) == 0)
      ensures error == 0 ==> |code| == |old(code)| + 1 && book == old(book).(known := old(book).known[0 := Result])
    {
      hide Flowing;
      EmitOp(MovReg(0, 7));
    }

    lemma CleanR7(c: nat)
      requires error == 0 ==> Core(book) == Core(CleanBook(c, maps).(used := {}))
      ensures error == 0 ==> book == CleanBook(c, maps).(used := {}, known := book.known)
      ensures error == 0 ==> 7 in book.known && book.known[7].Result? && book.pend.None?
      ensures error == 0 ==> book.used == {} && book.neg && book.cmds == []
    {
      if error == 0 {
        CoreFacts(CleanBook(c, maps).(used := {}), book);
      }
    }

    // ----------------------------------------------------------------
    // Commands
    // ----------------------------------------------------------------

    /** Issues a command, logs its result and checks it. */
    method EmitCommand(cmd: int, attr: int, attrSize: int, len: nat)
      requires len <= 0xffff_fff8
      requires Flowing() && (error == 0 ==> attr >= MAPS_SZ && book.checked && book.pend.None?)
      modifies `code, `error, `script, `book, `dataSz
      ensures Flowing() && (error == 0 ==> old(error) == 0 && dataSz >= old(dataSz))
      ensures error == 0 ==> Succeeded(old(book), book, cmd) && |base| <= cleanupAt + INT16_MAX
    {
      hide Flowing;
      hide Core;
      EmitSysBpf(cmd, attr, attrSize);
      ghost var b := book;
      EmitDebug(len, 7, -1);
      if error == 0 {
        CoreFacts(b, book);
      }
      IsFixed();
      EmitCheckErr();
    }

    method EmitSaveStack(stackOff: int)
      requires SlotOf(Stack(stackOff)) >= 0 && Flowing()
      requires error == 0 ==> book.pend == Some(7) && SlotOf(Stack(stackOff)) !in book.used && book.outs == map[]
      requires error == 0 ==> book.checked && book.cmds != []
      modifies `code, `error, `script, `book
      ensures Flowing() && (error == 0 ==> old(error) == 0)
      ensures error == 0 ==> Saved(old(book), book, SlotOf(Stack(stackOff)))
    {
      IsFixed();
      hide Flowing;
      EmitOp(Stx(4, 10, 7, stackOff));
    }

    method EmitSaveMap(idx: nat)
      requires idx < MAX_USED_MAPS && Flowing()
      requires error == 0 ==> book.pend == Some(7) && NR_STACK + idx !in book.used && book.outs == map[]
      requires error == 0 ==> book.checked && book.cmds != []
      modifies `code, `error, `script, `book
      ensures Flowing() && (error == 0 ==> old(error) == 0)
      ensures error == 0 ==> Saved(old(book), book, NR_STACK + idx)
    {
      hide Flowing;
      EmitWide(1, 4 * idx);
      EmitOp(Stx(4, 1, 7, 0));
    }

    /** Copies the logging parameters of the context into an attribute. */
    method MoveLog(level: int, size: int, buf: int)
      requires Flowing() && (error == 0 ==> level >= MAPS_SZ && size >= MAPS_SZ && buf >= MAPS_SZ && PendHigh(book))
      modifies `code, `error, `script, `book, `base, `start
      ensures Flowing() && (error == 0 ==> old(error) == 0 && base == old(base) && start == old(start))
      ensures error == 0 ==> Core(book) == Core(old(book))
      ensures error == 0 ==> PendHigh(book)
    {
      hide Flowing;
      MoveCtx2Blob(level, 4, 8, false);
      MoveCtx2Blob(size, 4, 12, false);
      MoveCtx2Blob(buf, 8, 16, false);
    }

    /** BPF_BTF_LOAD; the descriptor goes to its place in the stack frame. */
    method LoadBtf(rawSize: nat, len: nat)
      requires rawSize <= 0xffff_fff8 && len <= 0xffff_fff8
      requires Valid() && (error == 0 ==> 0 !in book.used)
      modifies `code, `error, `script, `book, `base, `start, `dataSz
      ensures Valid() && (error == 0 ==> old(error) == 0)
      ensures error == 0 ==> book.cmds == old(book).cmds + [BPF_BTF_LOAD] && book.used == old(book).used + {0}
      ensures error == 0 ==> book.strays == old(book).strays
    {
      hide Valid;
      hide Flowing;
      hide HeadFine;
      hide KsymsOk;
      hide Booked;
      hide Stuck;
      hide Core;
      hide SlotsOk;
      hide Idle;
      Begun();
      IdleFacts(book);
      SlotsFacts(book, Cap(nrProgs), nrMaps);
      SettledLonger();
      EmitBtf(rawSize, len);
      if error == 0 {
        BtfBooked(old(book), book, progCmds, mapCmds, Cap(nrProgs));
      }
      Ended();
    }

    method EmitBtf(rawSize: nat, len: nat)
      requires rawSize <= 0xffff_fff8 && len <= 0xffff_fff8
      requires Flowing() && (error == 0 ==> dataSz >= FD_ARRAY_BYTES && Idle(book) && 0 !in book.used)
      modifies `code, `error, `script, `book, `base, `start, `dataSz
      ensures Flowing()
      ensures error == 0 ==> old(error) == 0 && base == old(base) && start == old(start) && dataSz >= old(dataSz)
      ensures error == 0 ==> book == Opened(old(book), BPF_BTF_LOAD, 0).(known := book.known) && |base| <= cleanupAt + INT16_MAX
    {
      hide Flowing;
      var attr := PrepareBtf(rawSize);
      EmitCommand(BPF_BTF_LOAD, attr, 28, len);
      EmitSaveStack(BTF_FD_OFF);
    }

    static lemma BtfBooked(b: Book, b': Book, progCmds: seq<nat>, mapCmds: seq<nat>, progs: nat)
      requires Booked(b, progCmds, mapCmds) && Idle(b) && SlotsOk(b.used, b.seen, progs, |mapCmds|)
      requires b' == Opened(b, BPF_BTF_LOAD, 0).(known := b'.known)
      ensures Booked(b', progCmds, mapCmds) && Idle(b') && SlotsOk(b'.used, b'.seen, progs, |mapCmds|)
    {
      var b1 := b.(cmds := b.cmds + [BPF_BTF_LOAD], asked := true, pend := Some(7));
      hide Booked;
      BookedCommand(b, b1, BPF_BTF_LOAD, progCmds, mapCmds);
      BookedSaved(b1, b', 0, progCmds, mapCmds);
    }

    method PrepareBtf(rawSize: nat) returns (attr: nat)
      requires rawSize <= 0xffff_fff8
      requires Flowing() && (error == 0 ==> dataSz >= FD_ARRAY_BYTES && PendHigh(book))
      modifies `code, `error, `script, `book, `base, `start, `dataSz
      ensures Flowing()
      ensures error == 0 ==> old(error) == 0 && base == old(base) && start == old(start) && dataSz >= old(dataSz)
      ensures error == 0 ==> attr >= MAPS_SZ && book == old(book).(known := book.known)
    {
      hide Flowing;
      hide Core;
      var btfData := AddData(rawSize);
      attr := AddData(28);
      MoveLog(attr + 24, attr + 20, attr + 8);
      EmitRelStore(attr, btfData);
      if error == 0 {
        CoreFacts(old(book), book);
      }
    }

    /** BPF_MAP_CREATE; the descriptor of an inner map (a negative index) goes to the stack
        frame, others to the next slot of the descriptor array.  A map of maps closes the
        descriptor of its inner map. */
    method MapCreate(mapIdx: int, hasValueType: bool, ofMaps: bool, len: nat)
      requires len <= 0xffff_fff8
      requires Valid() && (error == 0 && mapIdx < 0 ==> 1 !in book.used)
      modifies `code, `error, `script, `book, `base, `start, `dataSz, `nrMaps, `mapCmds
      ensures Valid() && (error == 0 ==> old(error) == 0)
      ensures error == 0 ==> book.cmds == old(book).cmds + [BPF_MAP_CREATE]
      ensures error == 0 ==> if mapIdx < 0 then nrMaps == old(nrMaps) else mapIdx == old(nrMaps) && nrMaps == mapIdx + 1
      ensures error == 0 ==> mapCmds == if mapIdx < 0 then old(mapCmds) else old(mapCmds) + [|old(book).cmds|]
      ensures error == 0 ==> var used := old(book).used + {if mapIdx < 0 then 1 else NR_STACK + mapIdx};
                             book.used == if ofMaps then used - {1} else used
      ensures error == 0 && (!ofMaps || 1 in old(book).used || mapIdx < 0) ==> book.strays == old(book).strays
    {
      hide *;
      EmitMap(mapIdx, hasValueType, ofMaps, len);
      CountMap(old(book), mapIdx, ofMaps);
    }

    /** The map is created, but not noted yet; there was the book b. */
    ghost predicate Unnoted(b: Book, mapIdx: int, ofMaps: bool)
      reads this
    {
      Flowing() && nrMaps <= MAX_USED_MAPS &&
      (error == 0 ==>
         && dataSz >= FD_ARRAY_BYTES && cleanupAt == 7 && HeadFine() && KsymsOk(ksyms, nrFdArray) && ksyms == [] && Settled()
         && Idle(b) && SlotsOk(b.used, b.seen, Cap(nrProgs), |mapCmds|) && MapMade(b, book, mapIdx, ofMaps)
         && nrMaps == (if mapIdx < 0 then |mapCmds| else mapIdx + 1) && (mapIdx >= 0 ==> mapIdx == |mapCmds|)
         && |progCmds| == nrProgs && Booked(b, progCmds, mapCmds) && |head| <= 7 + INT16_MAX)
    }

    method EmitMap(mapIdx: int, hasValueType: bool, ofMaps: bool, len: nat)
      requires len <= 0xffff_fff8 && Valid() && (error == 0 && mapIdx < 0 ==> 1 !in book.used)
      modifies `code, `error, `script, `book, `base, `start, `dataSz, `nrMaps
      ensures Unnoted(old(book), mapIdx, ofMaps) && (error == 0 ==> old(error) == 0 && old(nrMaps) == |mapCmds|)
    {
      hide Valid;
      hide Flowing;
      hide KsymsOk;
      hide Stuck;
      hide HeadFine;
      hide Booked;
      hide SlotsOk;
      hide Core;
      Begun();
      SettledLonger();
      SlotsFacts(book, Cap(nrProgs), nrMaps);
      MakeMap(mapIdx, hasValueType, ofMaps, len);
    }

    method MakeMap(mapIdx: int, hasValueType: bool, ofMaps: bool, len: nat)
      requires len <= 0xffff_fff8 && Flowing() && nrMaps <= MAX_USED_MAPS
      requires error == 0 ==> dataSz >= FD_ARRAY_BYTES && Idle(book)
      requires error == 0 ==> (if mapIdx < 0 then 1 else NR_STACK + nrMaps) !in book.used
      modifies `code, `error, `script, `book, `base, `start, `dataSz, `nrMaps
      ensures Flowing() && nrMaps <= MAX_USED_MAPS
      ensures error == 0 ==> old(error) == 0 && base == old(base) && start == old(start) && dataSz >= old(dataSz)
      ensures error == 0 ==> if mapIdx < 0 then nrMaps == old(nrMaps) else mapIdx == old(nrMaps) && nrMaps == mapIdx + 1
      ensures error == 0 ==> MapMade(old(book), book, mapIdx, ofMaps) && |base| <= cleanupAt + INT16_MAX
    {
      hide Flowing;
      hide Core;
      var attr := PrepareMap(mapIdx, hasValueType, ofMaps);
      EmitCommand(BPF_MAP_CREATE, attr, 72, len);
      SaveMapFd(mapIdx);
      if ofMaps {
        CloseInner();
      }
    }

    ghost method CountMap(b: Book, mapIdx: int, ofMaps: bool)
      requires Unnoted(b, mapIdx, ofMaps)
      modifies `mapCmds
      ensures Valid() && (error == 0 ==> book.cmds == b.cmds + [BPF_MAP_CREATE])
      ensures error == 0 ==> mapCmds == if mapIdx < 0 then old(mapCmds) else old(mapCmds) + [|b.cmds|]
      ensures error == 0 ==> if mapIdx < 0 then nrMaps == |old(mapCmds)| else mapIdx == |old(mapCmds)| && nrMaps == mapIdx + 1
      ensures error == 0 ==> var used := b.used + {if mapIdx < 0 then 1 else NR_STACK + mapIdx};
                             book.used == if ofMaps then used - {1} else used
      ensures error == 0 && (!ofMaps || 1 in b.used || mapIdx < 0) ==> book.strays == b.strays
    {
      hide Valid;
      hide Flowing;
      hide KsymsOk;
      hide Stuck;
      hide HeadFine;
      hide Booked;
      hide SlotsOk;
      hide Gen.MapMade;
      hide Idle;
      if error == 0 {
        MapBooked(b, book, mapIdx, ofMaps, progCmds, mapCmds, Cap(nrProgs));
        mapCmds := if mapIdx < 0 then mapCmds else mapCmds + [|b.cmds|];
      }
      Ended();
    }

    /** A map was created, its descriptor saved, and that of its inner map closed. */
    static predicate MapMade(b: Book, b': Book, mapIdx: int, ofMaps: bool) {
      var saved := Opened(b, BPF_MAP_CREATE, if mapIdx < 0 then 1 else NR_STACK + mapIdx);
      b' == (if ofMaps then ClosedSlot(saved, 1) else saved).(known := b'.known)
    }

    static lemma MapBooked(b: Book, b': Book, mapIdx: int, ofMaps: bool, progCmds: seq<nat>, mapCmds: seq<nat>, progs: nat)
      requires Booked(b, progCmds, mapCmds) && Idle(b) && SlotsOk(b.used, b.seen, progs, |mapCmds|)
      requires MapMade(b, b', mapIdx, ofMaps)
      requires mapIdx >= 0 ==> mapIdx == |mapCmds| < MAX_USED_MAPS
      ensures var mapCmds' := if mapIdx < 0 then mapCmds else mapCmds + [|b.cmds|];
              Booked(b', progCmds, mapCmds') && Idle(b') && SlotsOk(b'.used, b'.seen, progs, |mapCmds'|)
      ensures b'.cmds == b.cmds + [BPF_MAP_CREATE]
      ensures var used := b.used + {if mapIdx < 0 then 1 else NR_STACK + mapIdx}; b'.used == if ofMaps then used - {1} else used
      ensures !ofMaps || 1 in b.used || mapIdx < 0 ==> b'.strays == b.strays
    {
      var mapCmds' := if mapIdx < 0 then mapCmds else mapCmds + [|b.cmds|];
      var k := if mapIdx < 0 then 1 else NR_STACK + mapIdx;
      var b1 := b.(cmds := b.cmds + [BPF_MAP_CREATE], asked := true, pend := Some(7));
      var saved := Opened(b, BPF_MAP_CREATE, k).(known := b'.known);
      assert 1 in b.used ==> 1 in b.home;
      hide Booked;
      BookedCommand(b, b1, BPF_MAP_CREATE, progCmds, mapCmds);
      BookedSaved(b1, saved, k, progCmds, mapCmds);
      if ofMaps {
        BookedClosed(saved, b', progCmds, mapCmds');
      }
    }

    method SaveMapFd(mapIdx: int)
      requires Flowing() && nrMaps <= MAX_USED_MAPS
      requires error == 0 ==> book.pend == Some(7) && book.outs == map[] && book.checked && book.cmds != []
      requires error == 0 ==> (if mapIdx < 0 then 1 else NR_STACK + nrMaps) !in book.used
      modifies `code, `error, `script, `book, `nrMaps
      ensures Flowing() && nrMaps <= MAX_USED_MAPS && (error == 0 ==> old(error) == 0)
      ensures error == 0 ==> if mapIdx < 0 then nrMaps == old(nrMaps) else mapIdx == old(nrMaps) && nrMaps == mapIdx + 1
      ensures error == 0 ==> Saved(old(book), book, if mapIdx < 0 then 1 else NR_STACK + mapIdx)
    {
      hide Flowing;
      if mapIdx < 0 {
        EmitSaveStack(INNER_MAP_FD_OFF);
      } else if mapIdx != nrMaps {
        error := -EDOM;
        HasFailed();
      } else {
        var idx := AddMapFd();
        EmitSaveMap(idx);
      }
    }

    lemma FailedIsValid()
      requires error != 0 && nrMaps <= MAX_USED_MAPS
      ensures Valid()
    {
    }

    lemma HasFailed()
      requires error != 0
      ensures Flowing()
    {
    }

    method AddMapFd() returns (idx: nat)
      requires Flowing() && nrMaps <= MAX_USED_MAPS
      modifies `nrMaps, `error
      ensures Flowing() && idx < MAX_USED_MAPS && nrMaps <= MAX_USED_MAPS
      ensures error == 0 ==> old(error) == 0 && idx == old(nrMaps) && nrMaps == idx + 1
    {
      if nrMaps == MAX_USED_MAPS {
        error := -E2BIG;
        return 0;
      }
      idx := nrMaps;
      nrMaps := nrMaps + 1;
    }

    method CloseInner()
      requires Flowing() && (error == 0 ==> PendHigh(book))
      modifies `code, `error, `script, `book, `base, `start, `dataSz
      ensures Flowing()
      ensures error == 0 ==> old(error) == 0 && base == old(base) && start == old(start) && dataSz >= old(dataSz)
      ensures error == 0 ==> book == ClosedSlot(old(book), 1).(known := book.known)
    {
      hide Flowing;
      EmitCloseStack(INNER_MAP_FD_OFF);
    }

    method PrepareMap(mapIdx: int, hasValueType: bool, ofMaps: bool) returns (attr: nat)
      requires Flowing() && (error == 0 ==> dataSz >= FD_ARRAY_BYTES && PendHigh(book))
      modifies `code, `error, `script, `book, `base, `start, `dataSz
      ensures Flowing()
      ensures error == 0 ==> old(error) == 0 && base == old(base) && start == old(start) && dataSz >= old(dataSz)
      ensures error == 0 ==> attr >= MAPS_SZ && book == old(book).(known := book.known)
    {
      hide Flowing;
      hide Core;
      attr := AddData(72);
      if hasValueType {
        MoveStack2Blob(attr + 48, 4, BTF_FD_OFF);
      }
      if ofMaps {
        MoveStack2Blob(attr + 20, 4, INNER_MAP_FD_OFF);
      }
      if mapIdx >= 0 {
        MoveCtx2Blob(attr + 12, 4, CTX_SZ + MAP_DESC_SZ * mapIdx + 4, true);
      }
      if error == 0 {
        CoreFacts(old(book), book);
      }
    }

    /** Fills the initial value in from the context, from kernel or user memory. */
    method CopyInitialValue(mapIdx: nat, value: int, valueSize: nat)
      requires Flowing() && (error == 0 ==> value >= MAPS_SZ && PendHigh(book))
      modifies `code, `error, `script, `book, `base, `start
      ensures Flowing() && (error == 0 ==> old(error) == 0 && base == old(base) && start == old(start))
      ensures error == 0 ==> Core(book) == Core(old(book)) && PendHigh(book)
    {
      IsFixed();
      hide Flowing;
      hide Marked;
      hide Core;
      EmitLoad(8, 3, 6, CTX_SZ + MAP_DESC_SZ * mapIdx + 8);
      ghost var m := OpenSkip(Jeq, 3, 0, 8);
      EmitCopyValue(value, valueSize);
      CloseSkip(m, Jeq, 3, 0, 8);
    }

    method EmitCopyValue(value: int, valueSize: nat)
      requires Flowing() && (error == 0 ==> value >= MAPS_SZ && PendHigh(book))
      modifies `code, `error, `script, `book, `base, `start
      ensures Flowing() && (error == 0 ==> old(error) == 0 && base == old(base) && start == old(start))
      ensures error == 0 ==> |code| == |old(code)| + 8 && Core(book) == Core(old(book)) && PendHigh(book)
    {
      hide Flowing;
      hide Core;
      EmitWide(1, value);
      EmitArg(MovImm(2, valueSize));
      IsFixed();
      EmitLoad(4, 0, 6, 4);
      EmitCopy();
    }

    method EmitCopy()
      requires Flowing() && (error == 0 ==> HasScratch(book, 1) && PendHigh(book))
      modifies `code, `error, `script, `book, `base, `start
      ensures Flowing() && (error == 0 ==> old(error) == 0 && base == old(base) && start == old(start))
      ensures error == 0 ==> |code| == |old(code)| + 4 && Core(book) == Core(old(book)) && PendHigh(book)
    {
      IsFixed();
      hide Flowing;
      hide Marked;
      hide Core;
      ghost var m := OpenSkip(Jset, 0, 1, 2);
      EmitOp(Call(CopyFromUser));
      ghost var e := OpenElse(m.book, 1);
      EmitOp(Call(ProbeReadKernel));
      CloseEither(m, e, Jset, 0, 1, 2, 1);
    }

    /** BPF_MAP_UPDATE_ELEM for key zero. */
    method MapUpdateElem(mapIdx: nat, valueSize: nat, len: nat)
      requires valueSize <= 0xffff_fff8 && len <= 0xffff_fff8 && Valid()
      modifies `code, `error, `script, `book, `base, `start, `dataSz
      ensures Valid() && (error == 0 ==> old(error) == 0)
      ensures error == 0 ==> book.cmds == old(book).cmds + [BPF_MAP_UPDATE_ELEM] && book.used == old(book).used
      ensures error == 0 ==> book.strays == old(book).strays
    {
      hide Valid;
      hide Flowing;
      hide HeadFine;
      hide KsymsOk;
      hide Booked;
      hide Stuck;
      Begun();
      SettledLonger();
      var attr := PrepareElem(mapIdx, valueSize);
      EmitCommand(BPF_MAP_UPDATE_ELEM, attr, 32, len);
      if error == 0 {
        BookedCommand(old(book), book, BPF_MAP_UPDATE_ELEM, progCmds, mapCmds);
      }
      Ended();
    }

    method PrepareUpdate(mapIdx: nat, key: int, value: int) returns (attr: nat)
      requires Flowing() && (error == 0 ==> dataSz >= FD_ARRAY_BYTES && PendHigh(book))
      modifies `code, `error, `script, `book, `base, `start, `dataSz
      ensures Flowing()
      ensures error == 0 ==> old(error) == 0 && base == old(base) && start == old(start) && dataSz >= old(dataSz)
      ensures error == 0 ==> attr >= MAPS_SZ && book == old(book).(known := book.known)
    {
      hide Flowing;
      hide Core;
      attr := AddData(32);
      MoveBlob2Blob(attr, 4, 4 * mapIdx);
      EmitRelStore(attr + 8, key);
      EmitRelStore(attr + 16, value);
      if error == 0 {
        CoreFacts(old(book), book);
      }
    }

    /** BPF_MAP_UPDATE_ELEM that puts one map into another. */
    method PopulateOuterMap(outerIdx: nat, innerIdx: nat, len: nat)
      requires len <= 0xffff_fff8 && Valid()
      modifies `code, `error, `script, `book, `base, `start, `dataSz
      ensures Valid() && (error == 0 ==> old(error) == 0)
      ensures error == 0 ==> book.cmds == old(book).cmds + [BPF_MAP_UPDATE_ELEM] && book.used == old(book).used
      ensures error == 0 ==> book.strays == old(book).strays
    {
      hide Valid;
      hide Flowing;
      hide HeadFine;
      hide KsymsOk;
      hide Booked;
      hide Stuck;
      Begun();
      SettledLonger();
      var attr := PrepareOuter(outerIdx, innerIdx);
      EmitCommand(BPF_MAP_UPDATE_ELEM, attr, 32, len);
      if error == 0 {
        BookedCommand(old(book), book, BPF_MAP_UPDATE_ELEM, progCmds, mapCmds);
      }
      Ended();
    }

    method MapFreeze(mapIdx: nat, len: nat)
      requires len <= 0xffff_fff8 && Valid()
      modifies `code, `error, `script, `book, `base, `start, `dataSz
      ensures Valid() && (error == 0 ==> old(error) == 0)
      ensures error == 0 ==> book.cmds == old(book).cmds + [BPF_MAP_FREEZE] && book.used == old(book).used
      ensures error == 0 ==> book.strays == old(book).strays
    {
      hide Valid;
      hide Flowing;
      hide HeadFine;
      hide KsymsOk;
      hide Booked;
      hide Stuck;
      Begun();
      SettledLonger();
      var attr := PrepareFreeze(mapIdx);
      EmitCommand(BPF_MAP_FREEZE, attr, 4, len);
      if error == 0 {
        BookedCommand(old(book), book, BPF_MAP_FREEZE, progCmds, mapCmds);
      }
      Ended();
    }

    method PrepareElem(mapIdx: nat, valueSize: nat) returns (attr: nat)
      requires valueSize <= 0xffff_fff8
      requires Flowing() && (error == 0 ==> dataSz >= FD_ARRAY_BYTES && PendHigh(book))
      modifies `code, `error, `script, `book, `base, `start, `dataSz
      ensures Flowing()
      ensures error == 0 ==> old(error) == 0 && base == old(base) && start == old(start) && dataSz >= old(dataSz)
      ensures error == 0 ==> attr >= MAPS_SZ && book == old(book).(known := book.known)
    {
      hide Flowing;
      hide Core;
      var value := AddData(valueSize);
      var key := AddData(4);
      CopyInitialValue(mapIdx, value, valueSize);
      if error == 0 {
        CoreFacts(old(book), book);
      }
      attr := PrepareUpdate(mapIdx, key, value);
    }

    method PrepareOuter(outerIdx: nat, innerIdx: nat) returns (attr: nat)
      requires Flowing() && (error == 0 ==> dataSz >= FD_ARRAY_BYTES && PendHigh(book))
      modifies `code, `error, `script, `book, `base, `start, `dataSz
      ensures Flowing()
      ensures error == 0 ==> old(error) == 0 && base == old(base) && start == old(start) && dataSz >= old(dataSz)
      ensures error == 0 ==> attr >= MAPS_SZ && book == old(book).(known := book.known)
    {
      hide Flowing;
      var key := AddData(4);
      attr := PrepareUpdate(outerIdx, key, 4 * innerIdx);
    }

    method PrepareFreeze(mapIdx: nat) returns (attr: nat)
      requires Flowing() && (error == 0 ==> dataSz >= FD_ARRAY_BYTES && PendHigh(book))
      modifies `code, `error, `script, `book, `base, `start, `dataSz
      ensures Flowing()
      ensures error == 0 ==> old(error) == 0 && base == old(base) && start == old(start) && dataSz >= old(dataSz)
      ensures error == 0 ==> attr >= MAPS_SZ && book == old(book).(known := book.known)
    {
      hide Flowing;
      hide Core;
      attr := AddData(4);
      MoveBlob2Blob(attr, 4, 4 * mapIdx);
      if error == 0 {
        CoreFacts(old(book), book);
      }
    }

    // ----------------------------------------------------------------
    // Lookups
    // ----------------------------------------------------------------

    method EmitFind(nameLen: nat, kind: int, len: nat)
      requires nameLen <= 0xffff_fff8 && len <= 0xffff_fff8
      requires Flowing() && (error == 0 ==> Idle(book))
      modifies `code, `error, `script, `book, `dataSz
      ensures Flowing() && (error == 0 ==> old(error) == 0 && dataSz >= old(dataSz))
      ensures error == 0 ==> Looked(old(book), book)
    {
      hide Flowing;
      hide Core;
      var name := AddData(nameLen);
      EmitWide(1, name);
      EmitArg(MovImm(2, nameLen));
      EmitArg(MovImm(3, kind));
      EmitArg(MovImm(4, 0));
      if error == 0 {
        CoreFacts(old(book), book);
      }
      EmitLookup(FindByNameKind);
      ghost var b := book;
      EmitDebug(len, 7, -1);
      if error == 0 {
        CoreFacts(b, book);
      }
    }

    method EmitLookup(f: Helper)
      requires f in {FindByNameKind, KallsymsLookup}
      requires Flowing() && (error == 0 ==> Idle(book) && (f.KallsymsLookup? ==> HasScratch(book, 4)))
      modifies `code, `error, `script, `book
      ensures Flowing() && (error == 0 ==> old(error) == 0)
      ensures error == 0 ==> Looked(old(book), book)
    {
      hide Flowing;
      EmitOp(Call(f));
      EmitOp(MovReg(7, 0));
    }

    /** Looks up an address; it is loaded to R9 from where the lookup leaves it. */
    method EmitKallsyms(nameLen: nat, len: nat)
      requires nameLen <= 0xffff_fff8 && len <= 0xffff_fff8
      requires Flowing() && (error == 0 ==> Idle(book) && dataSz >= FD_ARRAY_BYTES)
      modifies `code, `error, `script, `book, `dataSz
      ensures Flowing() && (error == 0 ==> old(error) == 0 && dataSz >= old(dataSz))
      ensures error == 0 ==> Looked(old(book), book)
    {
      hide Flowing;
      hide Core;
      var name := AddData(nameLen);
      var res := AddData(8);
      EmitWide(1, name);
      EmitArg(MovImm(2, nameLen));
      EmitArg(MovImm(3, 0));
      EmitWide(4, res);
      if error == 0 {
        CoreFacts(old(book), book);
      }
      EmitKallsymsCall();
      ghost var b := book;
      EmitDebug(len, 7, -1);
      if error == 0 {
        CoreFacts(b, book);
      }
    }

    method EmitKallsymsCall()
      requires Flowing() && (error == 0 ==> Idle(book) && HasScratch(book, 4))
      modifies `code, `error, `script, `book
      ensures Flowing() && (error == 0 ==> old(error) == 0)
      ensures error == 0 ==> Looked(old(book), book)
    {
      hide Flowing;
      hide Core;
      hide Passing;
      EmitOp(MovReg(7, 4));
      EmitLookupName();
      EmitOp(Ldx(8, 9, 7, 0));
      EmitOp(MovReg(7, 0));
    }

    method EmitLookupName()
      requires Flowing() && (error == 0 ==> Idle(book) && HasScratch(book, 4) && HasScratch(book, 7))
      modifies `code, `error, `script, `book
      ensures Flowing() && (error == 0 ==> old(error) == 0)
      ensures error == 0 ==> book == old(book).(known := book.known, asked := true) && 0 in book.known && book.known[0].Result?
      ensures error == 0 ==> HasScratch(book, 7) && book.known[7] == old(book).known[7]
      ensures error == 0 && 8 in old(book).known && old(book).known[8].Is? ==>
                8 in book.known && book.known[8] == old(book).known[8]
    {
      hide Flowing;
      hide Core;
      hide Passing;
      EmitOp(Call(KallsymsLookup));
    }

    method CheckLooked()
      requires Flowing() && (error == 0 ==> Idle(book) && 7 in book.known && book.known[7].Result?)
      modifies `code, `error, `script, `book
      ensures Flowing() && (error == 0 ==> old(error) == 0)
      ensures error == 0 ==> |code| == |old(code)| + 1 && book == old(book)
    {
      IsFixed();
      hide Flowing;
      EmitCheckErr();
    }

    // ----------------------------------------------------------------
    // Relocations
    // ----------------------------------------------------------------

    /** The entry of a symbol: one more reference to it if it is known, or a new one. */
    method GetKsym(relo: Relo) returns (i: nat)
      requires Flowing() && (error == 0 ==> forall j :: 0 <= j < |ksyms| ==> ksyms[j].ref >= 1)
      modifies `ksyms, `error
      ensures Flowing() && (error == 0 ==> old(error) == 0 && i < |ksyms| && SameSym(ksyms[i], relo))
      ensures error == 0 && ksyms[i].ref == 1 ==>
                && i == |old(ksyms)| && ksyms == old(ksyms) + [Ksym(relo.name, 1, relo.kind, 0, false, 0, relo.isLd64)]
                && forall j :: 0 <= j < i ==> !SameSym(ksyms[j], relo)
      ensures error == 0 && ksyms[i].ref != 1 ==>
                i < |old(ksyms)| && ksyms == old(ksyms)[i := old(ksyms)[i].(ref := old(ksyms)[i].ref + 1)]
    {
      hide Flow;
      hide Compile;
      i := 0;
      while i < |ksyms|
        invariant i <= |ksyms|
        invariant forall j :: 0 <= j < i ==> !SameSym(ksyms[j], relo)
      {
        if SameSym(ksyms[i], relo) {
          ksyms := ksyms[i := ksyms[i].(ref := ksyms[i].ref + 1)];
          return;
        }
        i := i + 1;
      }
      if * {
        error := -ENOMEM;
        return;
      }
      ksyms := ksyms + [Ksym(relo.name, 1, relo.kind, 0, false, 0, relo.isLd64)];
    }

    /** A slot for the module of a kernel function: in the array while there is room, else
        anywhere in the data. */
    method AddKfuncFd() returns (idx: int)
      requires Flowing() && (error == 0 ==> 0 <= nrFdArray <= MAX_KFUNC_DESCS && dataSz >= FD_ARRAY_BYTES)
      modifies `nrFdArray, `dataSz, `error
      ensures Flowing() && (error == 0 ==> old(error) == 0 && dataSz >= old(dataSz) && idx >= MAX_USED_MAPS)
      ensures error == 0 ==> nrFdArray == old(nrFdArray) + (if idx < MAX_FD_ARRAY_SZ then 1 else 0) <= MAX_KFUNC_DESCS
    {
      hide Flow;
      hide Compile;
      if nrFdArray == MAX_KFUNC_DESCS {
        var cur := AddData(4);
        return cur / 4;
      }
      idx := MAX_USED_MAPS + nrFdArray;
      nrFdArray := nrFdArray + 1;
    }

    /** Stores the id of a kernel function and the slot of its module, or zeroes. */
    method EmitKfuncStore(idx: int, insn: nat)
      requires Flowing() && (error == 0 ==> Ready(book, insn) && insn >= MAPS_SZ && idx >= MAX_USED_MAPS)
      modifies `code, `error, `script, `book, `base, `start
      ensures Flowing() && (error == 0 ==> old(error) == 0 && base == old(base) && start == old(start))
      ensures error == 0 ==> Ready(book, insn) && book == old(book).(known := book.known)
    {
      IsFixed();
      hide Flowing;
      hide Marked;
      hide Core;
      ghost var m := OpenSkip(Jsge, 7, 0, 3);
      EmitStore(St(4, 8, INSN_IMM, 0));
      EmitStore(St(2, 8, INSN_OFF, 0));
      ghost var e := OpenElse(m.book, 10);
      EmitFunc(idx, insn);
      CloseEither(m, e, Jsge, 7, 0, 3, 10);
      if error == 0 {
        CoreFacts(old(book), book);
      }
    }

    /** The descriptor of a module goes to the slot, none for the kernel itself. */
    method EmitFunc(idx: int, insn: nat)
      requires Flowing() && (error == 0 ==> Ready(book, insn) && insn >= MAPS_SZ && idx >= MAX_USED_MAPS)
      modifies `code, `error, `script, `book, `base, `start
      ensures Flowing() && (error == 0 ==> old(error) == 0 && base == old(base) && start == old(start))
      ensures error == 0 ==> Core(book) == Core(old(book)) && |code| == |old(code)| + 10
    {
      IsFixed();
      hide Flowing;
      hide Core;
      EmitStore(Stx(4, 8, 7, INSN_IMM));
      EmitOp(MovReg(9, 7));
      EmitOp(Alu(Rsh, 9, 32));
      EmitModuleFd(idx, insn);
    }

    method EmitModuleFd(idx: int, insn: nat)
      requires Flowing() && (error == 0 ==> Ready(book, insn) && insn >= MAPS_SZ && idx >= MAX_USED_MAPS)
      modifies `code, `error, `script, `book, `base, `start
      ensures Flowing() && (error == 0 ==> old(error) == 0 && base == old(base) && start == old(start))
      ensures error == 0 ==> Core(book) == Core(old(book)) && |code| == |old(code)| + 7
    {
      IsFixed();
      hide Flowing;
      hide Marked;
      hide Core;
      ghost var m := OpenSkip(Jne, 9, 0, 2);
      EmitStore(St(2, 8, INSN_OFF, 0));
      ghost var e := OpenElse(m.book, 4);
      EmitWide(0, 4 * idx);
      EmitStore(Stx(4, 0, 9, 0));
      EmitStore(St(2, 8, INSN_OFF, idx));
      CloseEither(m, e, Jne, 9, 0, 2, 4);
    }

    /** Copies the words of an instruction that was relocated before. */
    method CopyInsn(insn: nat, from: nat, off1: nat, size1: nat, off2: nat, size2: nat)
      requires Flowing() && (error == 0 ==> Ready(book, insn) && insn >= MAPS_SZ)
      modifies `code, `error, `script, `book
      ensures Flowing() && (error == 0 ==> old(error) == 0 && base == old(base) && start == old(start))
      ensures error == 0 ==> Ready(book, insn) && book == old(book).(known := book.known)
    {
      hide Flowing;
      hide Core;
      MoveBlob2Blob(insn + off1, size1, from + off1);
      MoveBlob2Blob(insn + off2, size2, from + off2);
      if error == 0 {
        CoreFacts(old(book), book);
      }
    }

    /** Finds a symbol by name; only a weak one may be missing. */
    method EmitFindSym(relo: Relo, insn: nat, len: nat)
      requires |relo.name| < 0xffff_fff8 && len <= 0xffff_fff8
      requires Flowing() && (error == 0 ==> Ready(book, insn))
      modifies `code, `error, `script, `book, `dataSz
      ensures Flowing() && (error == 0 ==> old(error) == 0 && dataSz >= old(dataSz))
      ensures error == 0 ==> Ready(book, insn) && Passed(old(book), book)
    {
      hide Flowing;
      EmitFind(|relo.name| + 1, relo.kind, len);
      if !relo.isWeak {
        CheckLooked();
      }
    }

    /** Relocates a call of a kernel function. */
    method RelocateKfunc(relo: Relo, insn: nat, len: nat)
      requires !relo.isLd64 && |relo.name| < 0xffff_fff8 && len <= 0xffff_fff8 && Flowing()
      requires error == 0 ==> Ready(book, insn) && insn >= MAPS_SZ && dataSz >= FD_ARRAY_BYTES && KsymsOk(ksyms, nrFdArray)
      modifies `code, `error, `script, `book, `base, `start, `dataSz, `ksyms, `nrFdArray
      ensures Flowing()
      ensures error == 0 ==> old(error) == 0 && base == old(base) && start == old(start) && dataSz >= old(dataSz)
      ensures error == 0 ==> Passed(old(book), book) && KsymsOk(ksyms, nrFdArray)
    {
      hide Flowing;
      hide Core;
      ghost var syms, nr := ksyms, nrFdArray;
      var i := GetKsym(relo);
      if error != 0 {
        return;
      }
      if ksyms[i].ref > 1 {
        CopyInsn(insn, ksyms[i].insn, INSN_IMM, 4, INSN_OFF, 2);
        KfuncsUpdate(syms, i, ksyms[i]);
      } else {
        NewKfunc(i, relo, insn, len);
        if error != 0 {
          return;
        }
        KfuncsAppend(syms, ksyms[i]);
      }
      LogKfunc(insn, ksyms[i].off, len);
    }

    /** The first reference to a function: it is looked up, and gets a descriptor slot. */
    method NewKfunc(i: nat, relo: Relo, insn: nat, len: nat)
      requires |relo.name| < 0xffff_fff8 && len <= 0xffff_fff8 && i < |ksyms| && Flowing()
      requires error == 0 ==> Ready(book, insn) && insn >= MAPS_SZ && dataSz >= FD_ARRAY_BYTES && 0 <= nrFdArray <= MAX_KFUNC_DESCS
      modifies `code, `error, `script, `book, `base, `start, `dataSz, `ksyms, `nrFdArray
      ensures Flowing()
      ensures error == 0 ==> old(error) == 0 && base == old(base) && start == old(start) && dataSz >= old(dataSz)
      ensures error == 0 ==> Ready(book, insn) && Passed(old(book), book)
      ensures error == 0 ==> i < |ksyms| && ksyms == old(ksyms)[i := old(ksyms)[i].(insn := insn, off := ksyms[i].off)]
      ensures error == 0 ==>
                && ksyms[i].off >= MAX_USED_MAPS
                && nrFdArray == old(nrFdArray) + (if ksyms[i].off < MAX_FD_ARRAY_SZ then 1 else 0) <= MAX_KFUNC_DESCS
    {
      hide Flowing;
      hide Core;
      ksyms := ksyms[i := ksyms[i].(insn := insn)];
      EmitFindSym(relo, insn, len);
      var idx := AddKfuncFd();
      if idx > INT16_MAX {
        error := -E2BIG;
        HasFailed();
        return;
      }
      ksyms := ksyms[i := ksyms[i].(off := idx)];
      EmitKfuncStore(idx, insn);
    }

    method LogKfunc(insn: nat, idx: int, len: nat)
      requires len <= 0xffff_fff8 && Flowing()
      requires error == 0 ==> Ready(book, insn) && insn >= MAPS_SZ
      modifies `code, `error, `script, `book, `dataSz
      ensures Flowing() && (error == 0 ==> old(error) == 0 && dataSz >= old(dataSz))
      ensures error == 0 ==> book == old(book).(known := book.known)
    {
      hide Flowing;
      hide Core;
      hide Passing;
      if logLevel == 0 {
        return;
      }
      EmitField(7, 4, INSN_IMM, insn);
      EmitField(9, 2, INSN_OFF, insn);
      LogRegs(len, 7, 9);
      EmitWide(0, 4 * idx);
      EmitOp(Ldx(4, 9, 0, 0));
      LogRegs(len, 9, -1);
    }

    method LogKsym(insn: nat, len: nat)
      requires len <= 0xffff_fff8 && Flowing()
      requires error == 0 ==> Ready(book, insn) && insn >= MAPS_SZ
      modifies `code, `error, `script, `book, `dataSz
      ensures Flowing() && (error == 0 ==> old(error) == 0 && dataSz >= old(dataSz))
      ensures error == 0 ==> book == old(book).(known := book.known)
    {
      hide Flowing;
      hide Core;
      hide Passing;
      if logLevel == 0 {
        return;
      }
      EmitField(7, 4, INSN_IMM, insn);
      EmitField(9, 4, INSN_SZ + INSN_IMM, insn);
      LogRegs(len, 7, 9);
      EmitField(9, 1, INSN_REGS, insn);
      LogRegs(len, 9, -1);
    }

    /** A field of the instruction that R8 points to. */
    method EmitField(d: Reg, size: nat, off: nat, insn: nat)
      requires Flowing() && (d == 7 || d == 9)
      requires error == 0 ==> Ready(book, insn) && insn >= MAPS_SZ
      modifies `code, `error, `script, `book
      ensures Flowing() && (error == 0 ==> old(error) == 0)
      ensures error == 0 ==> Ready(book, insn) && book == old(book).(known := book.known)
    {
      hide Flowing;
      hide Core;
      hide Passing;
      hide SlotOf;
      EmitOp(Ldx(size, d, 8, off));
    }

    method LogRegs(len: nat, reg1: int, reg2: int)
      requires len <= 0xffff_fff8 && reg1 < 11 && reg2 < 11 && Flowing() && (error == 0 ==> PendHigh(book))
      modifies `code, `error, `script, `book, `dataSz
      ensures Flowing() && (error == 0 ==> old(error) == 0 && dataSz >= old(dataSz))
      ensures error == 0 ==> book == old(book).(known := book.known)
      ensures error == 0 ==> (8 in old(book).known <==> 8 in book.known) && (8 in book.known ==> book.known[8] == old(book).known[8])
    {
      hide Flowing;
      hide Core;
      EmitDebug(len, reg1, reg2);
      if error == 0 {
        CoreFacts(old(book), book);
      }
    }

    /** Goes to the clean-up code for any error but a missing symbol. */
    method CheckFound(insn: nat)
      requires Flowing() && (error == 0 ==> Ready(book, insn) && 7 in book.known && book.known[7].Result?)
      modifies `code, `error, `script, `book, `base, `start
      ensures Flowing() && (error == 0 ==> old(error) == 0 && base == old(base) && start == old(start))
      ensures error == 0 ==> Ready(book, insn) && book == old(book).(known := book.known)
    {
      IsFixed();
      hide Flowing;
      hide Marked;
      hide Core;
      ghost var m := OpenSkip(Jeq, 7, -ENOENT, 1);
      CheckLooked();
      CloseSkip(m, Jeq, 7, -ENOENT, 1);
      if error == 0 {
        CoreFacts(old(book), book);
      }
    }

    /** The two halves of the address in R9 go to the two slots of the instruction. */
    method EmitAddrStore(insn: nat)
      requires Flowing() && (error == 0 ==> Ready(book, insn) && insn >= MAPS_SZ)
      modifies `code, `error, `script, `book
      ensures Flowing() && (error == 0 ==> old(error) == 0)
      ensures error == 0 ==> Ready(book, insn) && book == old(book).(known := book.known)
    {
      hide Flowing;
      EmitStore(Stx(4, 8, 9, INSN_IMM));
      EmitOp(Alu(Rsh, 9, 32));
      EmitStore(Stx(4, 8, 9, INSN_SZ + INSN_IMM));
    }

    /** Relocates a reference to a symbol without a type. */
    method RelocateTypeless(relo: Relo, insn: nat, len: nat)
      requires relo.isLd64 && |relo.name| < 0xffff_fff8 && len <= 0xffff_fff8 && Flowing()
      requires error == 0 ==> Ready(book, insn) && insn >= MAPS_SZ && dataSz >= FD_ARRAY_BYTES && KsymsOk(ksyms, nrFdArray)
      modifies `code, `error, `script, `book, `base, `start, `dataSz, `ksyms, `nrFdArray
      ensures Flowing()
      ensures error == 0 ==> old(error) == 0 && base == old(base) && start == old(start) && dataSz >= old(dataSz)
      ensures error == 0 ==> Passed(old(book), book) && KsymsOk(ksyms, nrFdArray)
    {
      hide Flowing;
      hide Core;
      ghost var syms := ksyms;
      var i := GetKsym(relo);
      if error != 0 {
        return;
      }
      if ksyms[i].ref > 1 {
        CopyInsn(insn, ksyms[i].insn, INSN_IMM, 4, INSN_SZ + INSN_IMM, 4);
        KfuncsUpdate(syms, i, ksyms[i]);
      } else {
        ksyms := ksyms[i := ksyms[i].(insn := insn, typeless := true)];
        KfuncsAppend(syms, ksyms[i]);
        EmitKallsyms(|relo.name| + 1, len);
        CheckFound(insn);
        EmitAddrStore(insn);
      }
      LogKsym(insn, len);
    }

    /** The instruction no longer names an object of the kernel. */
    method EmitClearSrcReg(insn: nat)
      requires Flowing() && (error == 0 ==> Ready(book, insn) && insn >= MAPS_SZ)
      modifies `code, `error, `script, `book
      ensures Flowing() && (error == 0 ==> old(error) == 0)
      ensures error == 0 ==> |code| == |old(code)| + 3 && Core(book) == Core(old(book))
      ensures error == 0 ==> Ready(book, insn) && book == old(book).(known := book.known)
    {
      hide Flowing;
      hide Core;
      EmitLoad(1, 9, 8, INSN_REGS);
      EmitOp(Alu(And, 9, 0x0f));
      EmitStore(Stx(1, 8, 9, INSN_REGS));
    }

    /** Stores type and object of a symbol, or zeroes and clears the source register. */
    method EmitKsymStore(insn: nat)
      requires Flowing() && (error == 0 ==> Ready(book, insn) && insn >= MAPS_SZ)
      modifies `code, `error, `script, `book, `base, `start
      ensures Flowing() && (error == 0 ==> old(error) == 0 && base == old(base) && start == old(start))
      ensures error == 0 ==> Ready(book, insn) && book == old(book).(known := book.known)
    {
      IsFixed();
      hide Flowing;
      hide Marked;
      hide Core;
      hide Fixed;
      ghost var m := OpenSkip(Jsge, 7, 0, 3);
      EmitStore(St(4, 8, INSN_IMM, 0));
      EmitStore(St(4, 8, INSN_SZ + INSN_IMM, 0));
      ghost var e := OpenElse(m.book, 4);
      EmitPairStore(insn);
      IsFixed();
      ghost var h := OpenElse(m.book, 3);
      EmitClearSrcReg(insn);
      CloseDiamond(m, e, h, Jsge, 7, 0, 3, 4, 3);
    }

    method EmitPairStore(insn: nat)
      requires Flowing() && (error == 0 ==> Ready(book, insn) && insn >= MAPS_SZ)
      modifies `code, `error, `script, `book
      ensures Flowing() && (error == 0 ==> old(error) == 0)
      ensures error == 0 ==> |code| == |old(code)| + 3 && Ready(book, insn) && book == old(book).(known := book.known)
    {
      hide Flowing;
      EmitStore(Stx(4, 8, 7, INSN_IMM));
      EmitOp(Alu(Rsh, 7, 32));
      EmitStore(Stx(4, 8, 7, INSN_SZ + INSN_IMM));
    }

    /** Clears the source register of a copied instruction if its symbol was not found. */
    method ClearCopied(insn: nat)
      requires Flowing() && (error == 0 ==> Ready(book, insn) && insn >= MAPS_SZ)
      modifies `code, `error, `script, `book, `base, `start
      ensures Flowing() && (error == 0 ==> old(error) == 0 && base == old(base) && start == old(start))
      ensures error == 0 ==> Ready(book, insn) && book == old(book).(known := book.known)
    {
      hide Flowing;
      hide Marked;
      hide Core;
      ghost var m := OpenSkip(Jne, 0, 0, 3);
      EmitClearSrcReg(insn);
      CloseSkip(m, Jne, 0, 0, 3);
      if error == 0 {
        CoreFacts(old(book), book);
      }
    }

    /** Relocates a reference to a typed symbol. */
    method RelocateKsym(relo: Relo, insn: nat, len: nat)
      requires relo.isLd64 && |relo.name| < 0xffff_fff8 && len <= 0xffff_fff8 && Flowing()
      requires error == 0 ==> Ready(book, insn) && insn >= MAPS_SZ && dataSz >= FD_ARRAY_BYTES && KsymsOk(ksyms, nrFdArray)
      modifies `code, `error, `script, `book, `base, `start, `dataSz, `ksyms, `nrFdArray
      ensures Flowing()
      ensures error == 0 ==> old(error) == 0 && base == old(base) && start == old(start) && dataSz >= old(dataSz)
      ensures error == 0 ==> Passed(old(book), book) && KsymsOk(ksyms, nrFdArray)
    {
      hide Flowing;
      hide Core;
      ghost var syms := ksyms;
      var i := GetKsym(relo);
      if error != 0 {
        return;
      }
      if ksyms[i].ref > 1 {
        CopyInsn(insn, ksyms[i].insn, INSN_SZ + INSN_IMM, 4, INSN_IMM, 4);
        ClearCopied(insn);
        KfuncsUpdate(syms, i, ksyms[i]);
      } else {
        ksyms := ksyms[i := ksyms[i].(insn := insn)];
        KfuncsAppend(syms, ksyms[i]);
        EmitFindSym(relo, insn, len);
        EmitKsymStore(insn);
      }
      LogKsym(insn, len);
    }

    method EmitRelo(relo: Relo, insns: nat, len: nat)
      requires |relo.name| < 0xffff_fff8 && len <= 0xffff_fff8 && Flowing()
      requires error == 0 ==> Idle(book) && insns >= MAPS_SZ && dataSz >= FD_ARRAY_BYTES && KsymsOk(ksyms, nrFdArray)
      modifies `code, `error, `script, `book, `base, `start, `dataSz, `ksyms, `nrFdArray
      ensures Flowing()
      ensures error == 0 ==> old(error) == 0 && base == old(base) && start == old(start) && dataSz >= old(dataSz)
      ensures error == 0 ==> Passed(old(book), book) && KsymsOk(ksyms, nrFdArray)
    {
      hide Flowing;
      hide KsymsOk;
      var insn := insns + INSN_SZ * relo.insnIdx;
      EmitWide(8, insn);
      if relo.isLd64 {
        if relo.isTypeless {
          RelocateTypeless(relo, insn, len);
        } else {
          RelocateKsym(relo, insn, len);
        }
      } else {
        RelocateKfunc(relo, insn, len);
      }
    }

    predicate NamesFit()
      reads `relos
    {
      forall i :: 0 <= i < |relos| ==> |relos[i].name| < 0xffff_fff8
    }

    method EmitRelos(insns: nat, len: nat)
      requires NamesFit() && len <= 0xffff_fff8 && Flowing()
      requires error == 0 ==> Idle(book) && insns >= MAPS_SZ && dataSz >= FD_ARRAY_BYTES && KsymsOk(ksyms, nrFdArray)
      modifies `code, `error, `script, `book, `base, `start, `dataSz, `ksyms, `nrFdArray
      ensures Flowing()
      ensures error == 0 ==> old(error) == 0 && base == old(base) && start == old(start) && dataSz >= old(dataSz)
      ensures error == 0 ==> Passed(old(book), book) && KsymsOk(ksyms, nrFdArray)
      ensures relos == [] ==> ksyms == old(ksyms)
    {
      hide Flowing;
      hide KsymsOk;
      for i := 0 to |relos|
        invariant Flowing()
        invariant error == 0 ==> old(error) == 0 && base == old(base) && start == old(start) && dataSz >= old(dataSz)
        invariant error == 0 ==> Passed(old(book), book) && KsymsOk(ksyms, nrFdArray)
        invariant relos == [] ==> ksyms == old(ksyms)
      {
        EmitRelo(relos[i], insns, len);
      }
    }

    /** Closes the modules that the relocations have opened, and forgets the symbols. */
    method CleanupRelos()
      requires Flowing() && (error == 0 ==> PendHigh(book) && KsymsOk(ksyms, nrFdArray))
      modifies `code, `error, `script, `book, `base, `start, `dataSz, `ksyms, `nrFdArray, `relos, `coreRelos
      ensures Flowing() && relos == [] && coreRelos == 0
      ensures error == 0 ==> old(error) == 0 && base == old(base) && start == old(start) && dataSz >= old(dataSz)
      ensures error == 0 ==> Strayed(old(book), book) && PendHigh(book) && KsymsOk(ksyms, nrFdArray) && ksyms == []
      ensures error == 0 && old(ksyms) == [] ==> book.strays == old(book).strays
    {
      hide Flowing;
      hide Core;
      hide Kfuncs;
      hide KsymsOk;
      KsymsFacts();
      hide Strayed;
      if error == 0 {
        CoreStrayed(book, book);
      }
      var i := 0;
      while i < |ksyms|
        invariant i <= |ksyms| && ksyms == old(ksyms)
        invariant Flowing()
        invariant error == 0 ==> old(error) == 0 && base == old(base) && start == old(start) && dataSz >= old(dataSz)
        invariant error == 0 ==> Strayed(old(book), book) && PendHigh(book) && (i == 0 ==> book.strays == old(book).strays)
        invariant error == 0 ==> nrFdArray + Kfuncs(ksyms[..i]) == Kfuncs(ksyms)
      {
        ghost var b := book;
        ReleaseKsym(ksyms[i]);
        if error == 0 {
          StrayedThen(old(book), b, book);
        }
        KfuncsAppend(ksyms[..i], ksyms[i]);
        assert ksyms[..i] + [ksyms[i]] == ksyms[..i + 1];
        i := i + 1;
      }
      assert ksyms[..i] == ksyms;
      ksyms, relos, coreRelos := [], [], 0;
      NoKsyms();
    }

    lemma KsymsFacts()
      requires error == 0 ==> KsymsOk(ksyms, nrFdArray)
      ensures error == 0 ==> nrFdArray == Kfuncs(ksyms) && forall i :: 0 <= i < |ksyms| ==> KsymOk(ksyms[i])
      ensures Kfuncs([]) == 0
    {
    }

    lemma NoKsyms()
      ensures KsymsOk([], 0)
    {
    }

    method ReleaseKsym(k: Ksym)
      requires Flowing() && (error == 0 ==> PendHigh(book) && KsymOk(k))
      modifies `code, `error, `script, `book, `base, `start, `dataSz, `nrFdArray
      ensures Flowing()
      ensures error == 0 ==> old(error) == 0 && base == old(base) && start == old(start) && dataSz >= old(dataSz)
      ensures error == 0 ==> Strayed(old(book), book) && PendHigh(book)
      ensures nrFdArray == old(nrFdArray) - (if !k.isLd64 && k.off < MAX_FD_ARRAY_SZ then 1 else 0)
    {
      hide Flowing;
      hide Core;
      hide Strayed;
      if error == 0 {
        CoreStrayed(book, book);
      }
      if k.isLd64 && !k.typeless {
        CloseModule(k.insn + INSN_SZ + INSN_IMM);
      } else if !k.isLd64 {
        CloseModule(4 * k.off);
        if k.off < MAX_FD_ARRAY_SZ {
          nrFdArray := nrFdArray - 1;
        }
      }
    }

    method CloseModule(off: int)
      requires Flowing() && (error == 0 ==> off >= MAPS_SZ && PendHigh(book))
      modifies `code, `error, `script, `book, `base, `start, `dataSz
      ensures Flowing()
      ensures error == 0 ==> old(error) == 0 && base == old(base) && start == old(start) && dataSz >= old(dataSz)
      ensures error == 0 ==> Strayed(old(book), book) && PendHigh(book)
    {
      hide Flowing;
      hide Core;
      hide Strayed;
      EmitCloseBlob(off);
      if error == 0 {
        CoreStrayed(old(book), book);
        StrayedFacts(old(book), book);
      }
    }

    // ----------------------------------------------------------------
    // Programs
    // ----------------------------------------------------------------

    method RecordExtern(relo: Relo)
      requires Valid() && NamesFit() && |relo.name| < 0xffff_fff8
      modifies `relos, `error
      ensures Valid() && NamesFit() && (error == 0 ==> old(error) == 0 && relos == old(relos) + [relo])
    {
      hide Flow;
      hide Compile;
      hide HeadOk;
      if * {
        error := -ENOMEM;
        return;
      }
      relos := relos + [relo];
    }

    method RecordReloCore()
      requires Valid()
      modifies `coreRelos, `error
      ensures Valid() && (error == 0 ==> old(error) == 0 && coreRelos == old(coreRelos) + 1)
    {
      hide Flow;
      hide Compile;
      hide HeadOk;
      if * {
        error := -ENOMEM;
        return;
      }
      coreRelos := coreRelos + 1;
    }

    /** The name must fit into its buffer. */
    method RecordAttachTarget(kind: int, nameLen: nat)
      requires Valid()
      modifies `attachKind, `attachLen, `error
      ensures Valid() && attachKind == kind && error == if nameLen >= 128 then -ENOSPC else old(error)
      ensures attachLen <= 128 && (nameLen < 128 ==> attachLen == nameLen + 1)
    {
      hide Flow;
      hide Compile;
      hide HeadOk;
      attachKind := kind;
      attachLen := (if nameLen < 127 then nameLen else 127) + 1;
      if nameLen >= 128 {
        error := -ENOSPC;
      }
    }

    /** Pointers to the parts of a program. */
    method PointTo(attr: nat, license: int, insns: int, funcInfo: int, lineInfo: int, cores: int)
      requires Flowing() && (error == 0 ==> attr >= MAPS_SZ && PendHigh(book))
      modifies `code, `error, `script, `book
      ensures Flowing() && (error == 0 ==> old(error) == 0)
      ensures error == 0 ==> Core(book) == Core(old(book)) && PendHigh(book)
    {
      hide Flowing;
      hide Core;
      EmitRelStore(attr + 16, license);
      EmitRelStore(attr + 8, insns);
      EmitRelStore(attr + 80, funcInfo);
      EmitRelStore(attr + 96, lineInfo);
      EmitRelStore(attr + 128, cores);
      EmitRelStore(attr + 120, 0);
    }

    method PrepareProg(licenseLen: nat, insnCnt: nat, funcInfo: nat, lineInfo: nat) returns (attr: nat, insns: nat)
      requires licenseLen < 0xffff_fff8 && insnCnt * INSN_SZ <= 0xffff_fff8 && coreRelos * 16 <= 0xffff_fff8
      requires funcInfo <= 0xffff_fff8 && lineInfo <= 0xffff_fff8
      requires Flowing() && (error == 0 ==> dataSz >= FD_ARRAY_BYTES && PendHigh(book))
      modifies `code, `error, `script, `book, `base, `start, `dataSz
      ensures Flowing()
      ensures error == 0 ==> old(error) == 0 && base == old(base) && start == old(start) && dataSz >= old(dataSz)
      ensures error == 0 ==> book == old(book).(known := book.known)
      ensures error == 0 ==> attr >= MAPS_SZ && insns >= MAPS_SZ
    {
      hide Flowing;
      hide Core;
      var license := AddData(licenseLen + 1);
      insns := AddData(insnCnt * INSN_SZ);
      var func := AddData(funcInfo);
      var line := AddData(lineInfo);
      var cores := AddData(coreRelos * 16);
      attr := AddData(140);
      PointTo(attr, license, insns, func, line, cores);
      MoveLog(attr + 24, attr + 28, attr + 32);
      MoveStack2Blob(attr + 72, 4, BTF_FD_OFF);
      if error == 0 {
        CoreFacts(old(book), book);
      }
    }

    /** Finds the attach target; its type and object go into the attribute. */
    method EmitAttach(attr: nat, len: nat)
      requires attachLen <= 0xffff_fff8 && len <= 0xffff_fff8
      requires Flowing() && (error == 0 ==> attr >= MAPS_SZ && Idle(book))
      modifies `code, `error, `script, `book, `base, `start, `dataSz
      ensures Flowing()
      ensures error == 0 ==> old(error) == 0 && base == old(base) && start == old(start) && dataSz >= old(dataSz)
      ensures error == 0 ==> Passed(old(book), book)
    {
      hide Flowing;
      if attachKind == 0 {
        return;
      }
      EmitFind(attachLen, attachKind, len);
      CheckLooked();
      EmitWide(0, attr);
      EmitStore(Stx(4, 0, 7, 108));
      EmitOp(Alu(Rsh, 7, 32));
      EmitStore(Stx(4, 0, 7, 112));
    }

    /** Issues BPF_PROG_LOAD; whatever its result, the modules are closed before it is checked. */
    method EmitProgLoad(attr: nat, len: nat)
      requires len <= 0xffff_fff8
      requires Flowing() && (error == 0 ==> attr >= MAPS_SZ && Idle(book) && KsymsOk(ksyms, nrFdArray))
      modifies `code, `error, `script, `book, `base, `start, `dataSz, `ksyms, `nrFdArray, `relos, `coreRelos, `attachKind
      ensures Flowing() && relos == [] && coreRelos == 0
      ensures error == 0 ==> old(error) == 0 && base == old(base) && start == old(start) && dataSz >= old(dataSz)
      ensures error == 0 ==> Succeeded(old(book).(strays := book.strays), book, BPF_PROG_LOAD) && KsymsOk(ksyms, nrFdArray) && ksyms == []
      ensures error == 0 ==> |base| <= cleanupAt + INT16_MAX
      ensures error == 0 && old(ksyms) == [] && old(attachKind) == 0 ==> book.strays == old(book).strays
    {
      hide Flowing;
      hide KsymsOk;
      hide Strayed;
      EmitSysBpf(BPF_PROG_LOAD, attr, 140);
      ghost var b := book;
      CloseModules(attr, len);
      if error == 0 {
        StrayedFacts(b, book);
      }
      IsFixed();
      EmitCheckErr();
    }

    /** Logs the result in R7, and closes the modules whatever it is. */
    method CloseModules(attr: nat, len: nat)
      requires len <= 0xffff_fff8
      requires Flowing() && (error == 0 ==> attr >= MAPS_SZ && PendHigh(book) && KsymsOk(ksyms, nrFdArray))
      modifies `code, `error, `script, `book, `base, `start, `dataSz, `ksyms, `nrFdArray, `relos, `coreRelos, `attachKind
      ensures Flowing() && relos == [] && coreRelos == 0
      ensures error == 0 ==> old(error) == 0 && base == old(base) && start == old(start) && dataSz >= old(dataSz)
      ensures error == 0 ==> Strayed(old(book), book) && KsymsOk(ksyms, nrFdArray) && ksyms == []
      ensures error == 0 && old(ksyms) == [] && old(attachKind) == 0 ==> book.strays == old(book).strays
    {
      hide Flowing;
      hide Core;
      hide KsymsOk;
      hide Strayed;
      EmitDebug(len, 7, -1);
      ghost var b1 := book;
      CleanupRelos();
      ghost var b2 := book;
      CloseAttach(attr + 112);
      if error == 0 {
        CoreStrayed(old(book), b1);
        StrayedThen(old(book), b1, b2);
        StrayedThen(old(book), b2, book);
      }
    }

    method CloseAttach(off: int)
      requires Flowing() && (error == 0 ==> off >= MAPS_SZ && PendHigh(book))
      modifies `code, `error, `script, `book, `base, `start, `dataSz, `attachKind
      ensures Flowing()
      ensures error == 0 ==> old(error) == 0 && base == old(base) && start == old(start) && dataSz >= old(dataSz)
      ensures error == 0 ==> Strayed(old(book), book) && (old(attachKind) == 0 ==> book.strays == old(book).strays)
    {
      hide Flowing;
      hide Core;
      hide Strayed;
      if error == 0 {
        CoreStrayed(book, book);
      }
      if attachKind != 0 {
        CloseModule(off);
        attachKind := 0;
      }
    }

    /** Relocates and loads a program; its descriptor goes to the next place in the stack
        frame, or to where that would be if there were more places. */
    method ProgLoad(licenseLen: nat, insnCnt: nat, funcInfo: nat, lineInfo: nat, len: nat)
      requires licenseLen < 0xffff_fff8 && insnCnt * INSN_SZ <= 0xffff_fff8 && coreRelos * 16 <= 0xffff_fff8
      requires funcInfo <= 0xffff_fff8 && lineInfo <= 0xffff_fff8 && len <= 0xffff_fff8 && attachLen <= 0xffff_fff8
      requires Valid() && NamesFit()
      modifies `code, `error, `script, `book, `base, `start, `dataSz, `progCmds, `stem, `stemBook
      modifies `ksyms, `nrFdArray, `relos, `coreRelos, `attachKind, `nrProgs
      ensures Valid() && NamesFit() && relos == [] && coreRelos == 0 && nrProgs == old(nrProgs) + 1 && (error == 0 ==> old(error) == 0)
      ensures error == 0 ==> book.cmds == old(book).cmds + [BPF_PROG_LOAD] && progCmds == old(progCmds) + [|old(book).cmds|]
      ensures error == 0 ==> book.used == if old(nrProgs) < MAX_USED_PROGS then old(book).used + {1 + nrProgs} else old(book).used
      ensures error == 0 && old(relos) == [] && old(attachKind) == 0 ==> book.strays == old(book).strays
    {
      hide *;
      EmitProg(licenseLen, insnCnt, funcInfo, lineInfo, len);
      CountProg(old(book));
    }

    /** The program is loaded, but not counted yet; there was the book b. */
    ghost predicate Uncounted(b: Book)
      reads this
    {
      Flowing() && nrMaps <= MAX_USED_MAPS && relos == [] && coreRelos == 0 &&
      (error == 0 ==>
         && dataSz >= FD_ARRAY_BYTES && cleanupAt == 7 && HeadFine() && KsymsOk(ksyms, nrFdArray) && ksyms == []
         && (if nrProgs < MAX_USED_PROGS then base == head && start == MainBook else Stuck(base))
         && Idle(b) && SlotsOk(b.used, b.seen, Cap(nrProgs), nrMaps) && ProgMade(b, book, nrProgs)
         && |progCmds| == nrProgs && |mapCmds| == nrMaps && Booked(b, progCmds, mapCmds) && |head| <= 7 + INT16_MAX)
    }

    method EmitProg(licenseLen: nat, insnCnt: nat, funcInfo: nat, lineInfo: nat, len: nat)
      requires licenseLen < 0xffff_fff8 && insnCnt * INSN_SZ <= 0xffff_fff8 && coreRelos * 16 <= 0xffff_fff8
      requires funcInfo <= 0xffff_fff8 && lineInfo <= 0xffff_fff8 && len <= 0xffff_fff8 && attachLen <= 0xffff_fff8
      requires Valid() && NamesFit()
      modifies `code, `error, `script, `book, `base, `start, `dataSz, `stem, `stemBook
      modifies `ksyms, `nrFdArray, `relos, `coreRelos, `attachKind
      ensures Uncounted(old(book)) && (error == 0 ==> old(error) == 0)
      ensures error == 0 && old(relos) == [] && old(attachKind) == 0 ==> book.strays == old(book).strays
    {
      hide Valid;
      hide Flowing;
      hide KsymsOk;
      hide Stuck;
      hide HeadFine;
      hide Booked;
      hide SlotsOk;
      hide Core;
      Begun();
      SettledLonger();
      SlotsFacts(book, Cap(nrProgs), nrMaps);
      MakeProg(licenseLen, insnCnt, funcInfo, lineInfo, len);
    }

    method MakeProg(licenseLen: nat, insnCnt: nat, funcInfo: nat, lineInfo: nat, len: nat)
      requires licenseLen < 0xffff_fff8 && insnCnt * INSN_SZ <= 0xffff_fff8 && coreRelos * 16 <= 0xffff_fff8
      requires funcInfo <= 0xffff_fff8 && lineInfo <= 0xffff_fff8 && len <= 0xffff_fff8 && attachLen <= 0xffff_fff8
      requires Flowing() && NamesFit()
      requires error == 0 ==> Idle(book) && dataSz >= FD_ARRAY_BYTES && KsymsOk(ksyms, nrFdArray)
      requires error == 0 && nrProgs < MAX_USED_PROGS ==> 2 + nrProgs !in book.used
      requires error == 0 ==> cleanupAt == 7 && |head| <= |base| && Settled()
      modifies `code, `error, `script, `book, `base, `start, `dataSz, `stem, `stemBook
      modifies `ksyms, `nrFdArray, `relos, `coreRelos, `attachKind
      ensures Flowing() && relos == [] && coreRelos == 0
      ensures error == 0 ==> old(error) == 0 && dataSz >= old(dataSz) && KsymsOk(ksyms, nrFdArray) && ksyms == []
      ensures error == 0 ==> ProgMade(old(book), book, nrProgs) && |head| <= 7 + INT16_MAX
      ensures error == 0 ==> if nrProgs < MAX_USED_PROGS then base == head && start == MainBook else Stuck(base)
      ensures error == 0 && old(ksyms) == [] && old(relos) == [] && old(attachKind) == 0 ==> book.strays == old(book).strays
    {
      hide Flowing;
      hide KsymsOk;
      hide Stuck;
      LoadProgram(licenseLen, insnCnt, funcInfo, lineInfo, len);
      SaveProgFd();
    }

    method CountProg(ghost b: Book)
      requires Uncounted(b)
      modifies `nrProgs, `progCmds
      ensures Valid() && NamesFit() && relos == [] && coreRelos == 0 && nrProgs == old(nrProgs) + 1
      ensures error == 0 ==> book.cmds == b.cmds + [BPF_PROG_LOAD] && progCmds == old(progCmds) + [|b.cmds|]
      ensures error == 0 ==> book.used == if old(nrProgs) < MAX_USED_PROGS then b.used + {1 + nrProgs} else b.used
    {
      hide Valid;
      hide Flowing;
      hide KsymsOk;
      hide Stuck;
      hide HeadFine;
      hide Booked;
      hide SlotsOk;
      hide Gen.ProgMade;
      hide Idle;
      if error == 0 {
        ProgBooked(b, book, progCmds, mapCmds);
        progCmds := progCmds + [|b.cmds|];
      }
      nrProgs := nrProgs + 1;
      Ended();
    }

    /** A program was loaded, and its descriptor saved if there was room for it. */
    static predicate ProgMade(b: Book, b': Book, n: nat) {
      var made := if n < MAX_USED_PROGS then Opened(b, BPF_PROG_LOAD, 2 + n) else b.(cmds := b.cmds + [BPF_PROG_LOAD], asked := true);
      b' == made.(known := b'.known, strays := b'.strays)
    }

    static lemma ProgBooked(b: Book, b': Book, progCmds: seq<nat>, mapCmds: seq<nat>)
      requires Booked(b, progCmds, mapCmds) && Idle(b) && SlotsOk(b.used, b.seen, Cap(|progCmds|), |mapCmds|)
      requires ProgMade(b, b', |progCmds|)
      ensures Booked(b', progCmds + [|b.cmds|], mapCmds) && Idle(b')
      ensures SlotsOk(b'.used, b'.seen, Cap(|progCmds| + 1), |mapCmds|) && b'.cmds == b.cmds + [BPF_PROG_LOAD]
      ensures b'.used == if |progCmds| < MAX_USED_PROGS then b.used + {2 + |progCmds|} else b.used
    {
      var b1 := b.(cmds := b.cmds + [BPF_PROG_LOAD], asked := true, pend := Some(7), known := b'.known, strays := b'.strays);
      hide Booked;
      BookedCommand(b, b1, BPF_PROG_LOAD, progCmds, mapCmds);
      if |progCmds| < MAX_USED_PROGS {
        BookedSaved(b1, b', 2 + |progCmds|, progCmds, mapCmds);
      } else {
        BookedBeyond(b1, b', progCmds, mapCmds);
      }
    }

    method SaveProgFd()
      requires Flowing()
      requires error == 0 ==> book.checked && book.pend == Some(7) && book.cmds != [] && book.outs == map[]
      requires error == 0 && nrProgs < MAX_USED_PROGS ==> 2 + nrProgs !in book.used
      requires error == 0 ==> cleanupAt == 7 && |head| <= 7 + INT16_MAX && Settled()
      modifies `code, `error, `script, `book, `base, `start, `stem, `stemBook
      ensures Flowing() && (error == 0 ==> old(error) == 0)
      ensures error == 0 ==> if nrProgs < MAX_USED_PROGS then base == head && start == MainBook else Stuck(base)
      ensures error == 0 ==>
                if nrProgs < MAX_USED_PROGS then Saved(old(book), book, 2 + nrProgs) else book == old(book).(pend := None)
    {
      IsFixed();
      hide Flowing;
      hide Stuck;
      if nrProgs < MAX_USED_PROGS {
        EmitSaveStack(PROG_FD_OFF + 4 * nrProgs);
      } else {
        EmitBeyond();
      }
    }

    /** The store of a descriptor for which there is no place in the stack frame. */
    method EmitBeyond()
      requires Flowing() && nrProgs >= MAX_USED_PROGS
      requires error == 0 ==> StuckBook(book) && cleanupAt == 7 && |head| <= 7 + INT16_MAX
      requires error == 0 ==> if nrProgs == MAX_USED_PROGS then base == head && start == MainBook else Stuck(base)
      modifies `code, `error, `script, `book, `base, `start, `stem, `stemBook
      ensures Flowing() && (error == 0 ==> old(error) == 0 && Stuck(base) && book == old(book).(pend := None))
    {
      hide Flow;
      hide Compile;
      hide S16;
      S16Small(0);
      Emit(Stx(4, 10, 7, S16(PROG_FD_OFF + 4 * nrProgs)));
      if error == 0 && nrProgs == MAX_USED_PROGS {
        stem, stemBook := script, book;
      }
      book := book.(pend := None);
      base, start, script := code, book, Empty;
      EmptyBlock(code, cleanupAt, book);
    }

    method LoadProgram(licenseLen: nat, insnCnt: nat, funcInfo: nat, lineInfo: nat, len: nat)
      requires licenseLen < 0xffff_fff8 && insnCnt * INSN_SZ <= 0xffff_fff8 && coreRelos * 16 <= 0xffff_fff8
      requires funcInfo <= 0xffff_fff8 && lineInfo <= 0xffff_fff8 && len <= 0xffff_fff8 && attachLen <= 0xffff_fff8
      requires Flowing() && NamesFit()
      requires error == 0 ==> Idle(book) && dataSz >= FD_ARRAY_BYTES && KsymsOk(ksyms, nrFdArray)
      modifies `code, `error, `script, `book, `base, `start, `dataSz, `ksyms, `nrFdArray, `relos, `coreRelos, `attachKind
      ensures Flowing() && relos == [] && coreRelos == 0
      ensures error == 0 ==> old(error) == 0 && base == old(base) && start == old(start) && dataSz >= old(dataSz)
      ensures error == 0 ==> Succeeded(old(book).(strays := book.strays), book, BPF_PROG_LOAD) && KsymsOk(ksyms, nrFdArray) && ksyms == []
      ensures error == 0 ==> |base| <= cleanupAt + INT16_MAX
      ensures error == 0 && old(ksyms) == [] && old(relos) == [] && old(attachKind) == 0 ==> book.strays == old(book).strays
    {
      hide Flowing;
      hide KsymsOk;
      var attr, insns := PrepareProg(licenseLen, insnCnt, funcInfo, lineInfo);
      EmitAttach(attr, len);
      EmitRelos(insns, len);
      EmitProgLoad(attr, len);
    }

    // ----------------------------------------------------------------
    // The end of the program
    // ----------------------------------------------------------------

    /** Program descriptors go to the context. */
    method PublishProgs(nrMaps: nat)
      requires Flowing() && (error == 0 ==> PendHigh(book) && book.outs == map[])
      modifies `code, `error, `script, `book, `base, `start
      ensures Flowing() && (error == 0 ==> old(error) == 0 && old(base) <= base)
      ensures error == 0 && nrProgs <= MAX_USED_PROGS ==> base == old(base) && start == old(start)
      ensures error == 0 ==> Core(book) == Core(old(book)).(outs := book.outs) && PendHigh(book)
      ensures error == 0 ==> ProgsOut(book, nrMaps, Cap(nrProgs))
    {
      hide Flowing;
      hide Core;
      OutsSame(book);
      for i := 0 to nrProgs
        invariant Flowing() && (error == 0 ==> old(error) == 0 && old(base) <= base)
        invariant error == 0 && i <= MAX_USED_PROGS ==> base == old(base) && start == old(start)
        invariant error == 0 ==> Core(book) == Core(old(book)).(outs := book.outs) && PendHigh(book)
        invariant error == 0 ==> ProgsOut(book, nrMaps, Cap(i))
      {
        PublishProg(i, nrMaps, old(book));
      }
    }

    /** The descriptors of so many programs are in the context. */
    static ghost predicate ProgsOut(b: Book, maps: nat, n: nat) {
      forall i :: 0 <= i < n ==> ProgOut(maps, i) in b.outs && b.outs[ProgOut(maps, i)] == 2 + i
    }

    method PublishProg(i: nat, nrMaps: nat, ghost b0: Book)
      requires Flowing() && (error == 0 ==> Core(book) == Core(b0).(outs := book.outs) && PendHigh(book))
      requires error == 0 ==> ProgsOut(book, nrMaps, Cap(i))
      modifies `code, `error, `script, `book, `base, `start
      ensures Flowing() && (error == 0 ==> old(error) == 0 && old(base) <= base)
      ensures error == 0 && i < MAX_USED_PROGS ==> base == old(base) && start == old(start)
      ensures error == 0 ==> Core(book) == Core(b0).(outs := book.outs) && PendHigh(book)
      ensures error == 0 ==> ProgsOut(book, nrMaps, Cap(i + 1))
    {
      hide Flowing;
      hide Core;
      if i < MAX_USED_PROGS {
        MoveStack2Ctx(ProgOut(nrMaps, i), PROG_FD_OFF + 4 * i);
        if error == 0 {
          OutsCore(b0, old(book), book, ProgOut(nrMaps, i), 2 + i);
        }
      } else {
        MoveBeyond(ProgOut(nrMaps, i), PROG_FD_OFF + 4 * i);
      }
    }

    /** The same from beyond the stack frame. */
    method MoveBeyond(ctxOff: int, stackOff: int)
      requires Flowing()
      modifies `code, `error, `script, `base, `start
      ensures Flowing() && (error == 0 ==> old(error) == 0 && old(base) <= base)
    {
      hide Flow;
      hide Compile;
      hide S16;
      Emit(Ldx(4, 0, 10, S16(stackOff)));
      Emit(Stx(4, 6, 0, S16(ctxOff)));
      base, start, script := code, book, Empty;
      EmptyBlock(code, cleanupAt, book);
    }

    /** Map descriptors go to the context, in front of those of the programs. */
    method PublishMaps()
      requires Flowing() && nrMaps <= MAX_USED_MAPS && (error == 0 ==> PendHigh(book))
      modifies `code, `error, `script, `book
      ensures Flowing() && (error == 0 ==> old(error) == 0)
      ensures error == 0 ==> Core(book) == Core(old(book)).(outs := book.outs)
      ensures error == 0 ==> forall i :: 0 <= i < nrMaps ==>
                MapOut(i) in book.outs && book.outs[MapOut(i)] == NR_STACK + i
      ensures error == 0 ==> forall o :: o in old(book).outs && o >= MapOut(nrMaps) ==>
                o in book.outs && book.outs[o] == old(book).outs[o]
    {
      hide Flowing;
      hide Core;
      OutsSame(book);
      for i := 0 to nrMaps
        invariant Flowing() && (error == 0 ==> old(error) == 0)
        invariant error == 0 ==> Core(book) == Core(old(book)).(outs := book.outs) && PendHigh(book)
        invariant error == 0 ==> forall j :: 0 <= j < i ==>
                    MapOut(j) in book.outs && book.outs[MapOut(j)] == NR_STACK + j
        invariant error == 0 ==> forall o :: o in old(book).outs && o >= MapOut(nrMaps) ==>
                    o in book.outs && book.outs[o] == old(book).outs[o]
      {
        ghost var b := book;
        MoveBlob2Ctx(MapOut(i), 4 * i);
        if error == 0 {
          OutsCore(old(book), b, book, MapOut(i), NR_STACK + i);
        }
      }
    }

    /** Closes the BTF, hands the descriptors over and returns zero.  Of a program that was
        started with the same numbers, it is known how it runs. */
    method Finish(nrProgs: nat, nrMaps: nat) returns (err: int, ghost main: Code, ghost b: Book)
      requires Valid()
      modifies `code, `error, `script, `book, `base, `start, `dataSz
      ensures err == error && (err == 0 ==> old(error) == 0)
      ensures nrProgs < this.nrProgs || nrMaps != this.nrMaps ==> err == -EFAULT
      ensures err == 0 ==> this.nrProgs <= nrProgs && this.nrMaps == nrMaps == |mapCmds| && this.nrProgs == |progCmds|
      ensures err == 0 && nrProgs == progs && nrMaps == maps ==> Program(code, head, clean, main, b, progCmds, mapCmds, nrProgs)
      ensures err == 0 && this.nrProgs <= MAX_USED_PROGS ==>
                b == book && b.cmds == old(book).cmds && b.used == old(book).used - {0} && b.strays == old(book).strays
    {
      hide Valid;
      hide Flowing;
      hide HeadFine;
      hide KsymsOk;
      hide Compile;
      hide Flow;
      hide Booked;
      hide FinalBook;
      hide Stuck;
      hide ProgsOut;
      hide Program;
      hide ClosedSlot;
      hide SlotsOk;
      Begun();
      main, b := script, book;
      if nrProgs < this.nrProgs || nrMaps != this.nrMaps {
        error := -EFAULT;
        return error, main, b;
      }
      HandOver();
      EmitLast();
      if error == 0 {
        main, b := if this.nrProgs <= MAX_USED_PROGS then script else stem, if this.nrProgs <= MAX_USED_PROGS then book else stemBook;
        IsFinished(old(book), old(base), old(start));
      }
      return error, main, b;
    }

    /** What was emitted is a program; there were the book b, and the block that was begun. */
    lemma IsFinished(b: Book, base0: seq<Insn>, start0: Book)
      requires Idle(b) && SlotsOk(b.used, b.seen, Cap(nrProgs), nrMaps) && Booked(b, progCmds, mapCmds)
      requires |progCmds| == nrProgs && |mapCmds| == nrMaps && (b.cmds != [] ==> |head| <= 7 + INT16_MAX)
      requires if nrProgs <= MAX_USED_PROGS then base0 == head && start0 == MainBook else Stuck(base0)
      requires base0 <= base && (nrProgs <= MAX_USED_PROGS ==> base == base0 && start == start0)
      requires book == ClosedSlot(b, 0).(known := book.known, outs := book.outs) && 0 in book.known && book.known[0] == Is(Num(0))
      requires ProgsOut(book, nrMaps, Cap(nrProgs))
      requires forall i :: 0 <= i < nrMaps ==> MapOut(i) in book.outs && book.outs[MapOut(i)] == NR_STACK + i
      requires 8 * |code| <= INT32_MAX && base <= code && cleanupAt == 7
      requires code == base + Compile(script, |base|, cleanupAt) + [Exit] && Flow(script, start) == Some(book)
      ensures nrProgs <= MAX_USED_PROGS ==>
                FinalBook(book, progCmds, mapCmds) && book.cmds == b.cmds && book.used == b.used - {0} && book.strays == b.strays
      ensures HeadFine() && nrProgs <= progs && nrMaps == maps <= MAX_USED_MAPS ==>
                Program(code, head, clean, if nrProgs <= MAX_USED_PROGS then script else stem,
                        if nrProgs <= MAX_USED_PROGS then book else stemBook, progCmds, mapCmds, progs)
    {
      hide Compile;
      hide Flow;
      hide Booked;
      hide FinalBook;
      hide HeadOk;
      hide HeadShape;
      hide ProgsOut;
      hide ClosedSlot;
      hide SlotsOk;
      if nrProgs <= MAX_USED_PROGS {
        FinalBooked(b, book, progCmds, mapCmds);
      } else {
        hide Stuck;
        StuckStays(base0);
      }
    }

    lemma StuckStays(begin: seq<Insn>)
      requires Stuck(begin) && begin <= base && base <= code
      ensures head + Compile(stem, |head|, 7) + [STORE_BEYOND] <= code
      ensures Flow(stem, MainBook) == Some(stemBook) && StuckBook(stemBook) && |head| <= 7 + INT16_MAX
    {
      hide Flow;
      hide Compile;
    }

    static lemma FinalBooked(b: Book, b': Book, progCmds: seq<nat>, mapCmds: seq<nat>)
      requires Booked(b, progCmds, mapCmds) && Idle(b) && SlotsOk(b.used, b.seen, |progCmds|, |mapCmds|) && |progCmds| <= MAX_USED_PROGS
      requires b' == ClosedSlot(b, 0).(known := b'.known, outs := b'.outs) && 0 in b'.known && b'.known[0] == Is(Num(0))
      requires ProgsOut(b', |mapCmds|, |progCmds|)
      requires forall i :: 0 <= i < |mapCmds| ==> MapOut(i) in b'.outs && b'.outs[MapOut(i)] == NR_STACK + i
      ensures FinalBook(b', progCmds, mapCmds) && b'.strays == b.strays && b'.used == b.used - {0} && b'.cmds == b.cmds
    {
      assert progCmds[..|progCmds|] == progCmds;
    }

    method HandOver()
      requires Flowing() && nrMaps <= MAX_USED_MAPS && (error == 0 ==> Idle(book))
      modifies `code, `error, `script, `book, `base, `start, `dataSz
      ensures Flowing() && (error == 0 ==> old(error) == 0 && old(base) <= base)
      ensures error == 0 && nrProgs <= MAX_USED_PROGS ==> base == old(base) && start == old(start)
      ensures error == 0 ==> book == ClosedSlot(old(book), 0).(known := book.known, outs := book.outs)
      ensures error == 0 ==> 0 in book.known && book.known[0] == Is(Num(0))
      ensures error == 0 ==> ProgsOut(book, nrMaps, Cap(nrProgs))
      ensures error == 0 ==> forall i :: 0 <= i < nrMaps ==>
                MapOut(i) in book.outs && book.outs[MapOut(i)] == NR_STACK + i
    {
      hide Flowing;
      EmitCloseStack(BTF_FD_OFF);
      PublishProgs(nrMaps);
      PublishMaps();
      EmitArg(MovImm(0, 0));
    }

    method EmitLast()
      requires Flowing()
      modifies `code, `error
      ensures error == 0 ==> old(error) == 0 && 8 * |code| <= INT32_MAX && base <= code
      ensures error == 0 ==> code == base + Compile(script, |base|, cleanupAt) + [Exit] && Flow(script, start) == Some(book)
    {
      hide Compile;
      hide Flow;
      Emit(Exit);
    }
  }
}
