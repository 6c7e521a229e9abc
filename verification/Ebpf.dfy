/** A small eBPF machine, and structured code that is compiled to its relative jumps.

    Jumps count instruction slots from the next instruction (section 4.3 of RFC 9669), and
    a 64-bit immediate takes two slots (section 5.4 of RFC 9669).  The memory that matters
    to the loader is tracked word by word: the stack frame that holds descriptors and the
    map part of the descriptor array.  Every other load within bounds yields an arbitrary
    value, and so do helper calls: the outside world is a function that gives six numbers at
    every step. */
module Ebpf {

  const STACK_SZ: int := 136
  const NR_STACK: nat := 34
  const MAX_BPF_STACK: int := 512
  const MAX_USED_MAPS: nat := 64
  const NR_SLOTS: nat := 98
  const MAPS_SZ: nat := 256

  const BPF_MAP_CREATE: int := 0
  const BPF_MAP_UPDATE_ELEM: int := 2
  const BPF_PROG_LOAD: int := 5
  const BPF_BTF_LOAD: int := 18
  const BPF_MAP_FREEZE: int := 22

  type Reg = r: nat | r < 11

  datatype Val = Num(n: int) | Ctx(off: int) | Stack(off: int) | Blob(off: int)

  datatype Helper = ProbeReadKernel | CopyFromUser | SysBpf | SysClose | TracePrintk | FindByNameKind | KallsymsLookup

  datatype AluOp = Add | Rsh | And

  datatype CondOp = Jeq | Jne | Jsge | Jslt | Jsle | Jset

  datatype Insn =
    | MovReg(dst: Reg, src: Reg)
    | MovImm(dst: Reg, imm: int)
    | Alu(op: AluOp, dst: Reg, imm: int)
    | LdImm64(dst: Reg, blob: int)
    | Hi
    | Ldx(size: nat, dst: Reg, src: Reg, off: int)
    | Stx(size: nat, dst: Reg, src: Reg, off: int)
    | St(size: nat, dst: Reg, off: int, imm: int)
    | Ja(off: int)
    | Jmp(cond: CondOp, reg: Reg, imm: int, off: int)
    | Call(helper: Helper)
    | Exit

  /** `slots` are the tracked words; `open` the descriptors that commands have opened and
      nobody has closed; `out` the words written to the context; `cmds`, `results`, `last`
      and `failed` the history: commands issued and what they answered, the last result,
      whether a command failed. */
  datatype State = State(regs: seq<Val>, slots: seq<int>, open: set<int>, out: map<int, int>,
                         cmds: seq<int>, results: seq<int>, last: int, failed: bool)

  type World = nat -> nat -> int

  /** Slots are 32-bit words. */
  predicate Words(slots: seq<int>) {
    |slots| == NR_SLOTS && forall k :: 0 <= k < |slots| ==> 0 <= slots[k] < 0x1_0000_0000
  }

  predicate Sane(s: State) { |s.regs| == 11 && Words(s.slots) }

  // ------------------------------------------------------------------
  // Instructions
  // ------------------------------------------------------------------

  datatype Effect = Done(s: State) | Wrong | Impossible

  function Shifted(v: Val, off: int): Val {
    match v
    case Num(n) => Num(n + off)
    case Ctx(o) => Ctx(o + off)
    case Stack(o) => Stack(o + off)
    case Blob(o) => Blob(o + off)
  }

  /** The tracked word at an address, or -1. */
  function SlotOf(a: Val): (k: int)
    ensures -1 <= k < NR_SLOTS
  {
    if a.Stack? && -STACK_SZ <= a.off < 0 && a.off % 4 == 0 then (a.off + STACK_SZ) / 4
    else if a.Blob? && 0 <= a.off < MAPS_SZ && a.off % 4 == 0 then NR_STACK + a.off / 4
    else -1
  }

  /** Blob memory in which nothing is tracked. */
  predicate Scratch(a: Val) { a.Blob? && a.off >= MAPS_SZ }

  function Low(v: Val, x: int): int {
    (if v.Num? then v.n else x) % 0x1_0000_0000
  }

  function Set(s: State, r: Reg, v: Val): (s': State)
    requires Sane(s)
    ensures Sane(s')
  {
    s.(regs := s.regs[r := v])
  }

  function Store(s: State, size: nat, a: Val, v: Val, x: int): (e: Effect)
    requires Sane(s)
    ensures e.Done? ==> Sane(e.s)
  {
    if size == 4 && SlotOf(a) >= 0 then Done(s.(slots := s.slots[SlotOf(a) := Low(v, x)]))
    else if Scratch(a) then Done(s)
    else if a.Ctx? && size == 4 then Done(s.(out := s.out[a.off := Low(v, x)]))
    else Wrong
  }

  /** The stack frame ends where R10 points. */
  predicate Readable(a: Val, size: nat) {
    !a.Num? && (a.Stack? ==> -MAX_BPF_STACK <= a.off && a.off + size <= 0)
  }

  function Load(s: State, size: nat, a: Val, x: int): Val
    requires Sane(s)
  {
    if size == 4 && SlotOf(a) >= 0 then Num(s.slots[SlotOf(a)]) else Num(x)
  }

  /** A helper call leaves arbitrary values in R0 to R5. */
  function Clobbered(s: State, w: nat -> int): (s': State)
    requires Sane(s)
    ensures Sane(s')
  {
    s.(regs := [Num(w(0)), Num(w(1)), Num(w(2)), Num(w(3)), Num(w(4)), Num(w(5))] + s.regs[6..])
  }

  predicate OpensFd(cmd: int) { cmd in {BPF_MAP_CREATE, BPF_PROG_LOAD, BPF_BTF_LOAD} }

  /** A command that opens a descriptor answers with an error or with a positive number
      that is not in use. */
  function Command(s: State, cmd: int, w: nat -> int): (e: Effect)
    requires Sane(s)
    ensures e.Done? ==> Sane(e.s)
  {
    var r := w(0);
    var s' := Clobbered(s, w).(cmds := s.cmds + [cmd], results := s.results + [r], last := r, failed := s.failed || r < 0);
    if !OpensFd(cmd) || r < 0 then Done(s')
    else if 0 < r < 0x8000_0000 && r !in s.open then Done(s'.(open := s.open + {r}))
    else Impossible
  }

  function Called(f: Helper, s: State, w: nat -> int): (e: Effect)
    requires Sane(s)
    ensures e.Done? ==> Sane(e.s)
  {
    match f
    case ProbeReadKernel =>
      if s.regs[1] == Stack(-STACK_SZ) && s.regs[2] == Num(STACK_SZ) && s.regs[3] == Num(0) then
        Done(Clobbered(s, w).(slots := seq(NR_STACK, _ => 0) + s.slots[NR_STACK..]))
      else if Scratch(s.regs[1]) then Done(Clobbered(s, w))
      else Wrong
    case CopyFromUser => if Scratch(s.regs[1]) then Done(Clobbered(s, w)) else Wrong
    case SysBpf => if s.regs[1].Num? && Scratch(s.regs[2]) then Command(s, s.regs[1].n, w) else Wrong
    case SysClose =>
      if s.regs[1].Num? then Done(Clobbered(s, w).(open := s.open - {s.regs[1].n})) else Wrong
    case TracePrintk => Done(Clobbered(s, w))
    case FindByNameKind => Done(Clobbered(s, w).(last := w(0)))
    case KallsymsLookup => if Scratch(s.regs[4]) then Done(Clobbered(s, w).(last := w(0))) else Wrong
  }

  /** What an instruction that is neither a jump nor two slots long does. */
  function Perform(i: Insn, s: State, w: nat -> int): (e: Effect)
    requires Sane(s)
    ensures e.Done? ==> Sane(e.s)
  {
    match i
    case MovReg(d, r) => Done(Set(s, d, s.regs[r]))
    case MovImm(d, imm) => Done(Set(s, d, Num(imm)))
    case Alu(op, d, imm) => Done(Set(s, d, if op.Add? then Shifted(s.regs[d], imm) else Num(w(0))))
    case Ldx(size, d, r, off) =>
      if Readable(Shifted(s.regs[r], off), size) then Done(Set(s, d, Load(s, size, Shifted(s.regs[r], off), w(0)))) else Wrong
    case Stx(size, d, r, off) => Store(s, size, Shifted(s.regs[d], off), s.regs[r], w(0))
    case St(size, d, off, imm) => Store(s, size, Shifted(s.regs[d], off), Num(imm), w(0))
    case Call(f) => Called(f, s, w)
    case LdImm64(_, _) => Wrong
    case Hi => Wrong
    case Ja(_) => Wrong
    case Jmp(_, _, _, _) => Wrong
    case Exit => Wrong
  }

  /** Comparisons of pointers, and bit tests, may go either way. */
  predicate Taken(op: CondOp, v: Val, imm: int, w: nat -> int) {
    if !v.Num? || op.Jset? then w(0) != 0
    else match op
         case Jeq => v.n == imm
         case Jne => v.n != imm
         case Jsge => v.n >= imm
         case Jslt => v.n < imm
         case _ => v.n <= imm
  }

  // ------------------------------------------------------------------
  // Runs
  // ------------------------------------------------------------------

  /** Bad: a wrong access or a jump to a place that is not an instruction.
      Absurd: the outside world gave an answer that it cannot give. */
  datatype Conf = At(pc: int, s: State) | Halted(s: State) | Bad | Absurd

  function Step(code: seq<Insn>, c: Conf, w: nat -> int): Conf {
    if !c.At? then c
    else if !(0 <= c.pc < |code|) || !Sane(c.s) then Bad
    else
      var i := code[c.pc];
      if i.Exit? then Halted(c.s)
      else if i.Ja? then At(c.pc + 1 + i.off, c.s)
      else if i.Jmp? then At(if Taken(i.cond, c.s.regs[i.reg], i.imm, w) then c.pc + 1 + i.off else c.pc + 1, c.s)
      else if i.LdImm64? then At(c.pc + 2, Set(c.s, i.dst, Blob(i.blob)))
      else
        var e := Perform(i, c.s, w);
        if e.Done? then At(c.pc + 1, e.s) else if e.Wrong? then Bad else Absurd
  }

  function Run(code: seq<Insn>, c: Conf, world: World, t: nat, n: nat): Conf
    decreases n
  {
    if n == 0 then c else Run(code, Step(code, c, world(t)), world, t + 1, n - 1)
  }

  lemma {:induction false} RunSplit(code: seq<Insn>, c: Conf, world: World, t: nat, m: nat, n: nat)
    ensures Run(code, c, world, t, m + n) == Run(code, Run(code, c, world, t, m), world, t + m, n)
    decreases m
  {
    if m > 0 {
      RunSplit(code, Step(code, c, world(t)), world, t + 1, m - 1, n);
    }
  }

  // ------------------------------------------------------------------
  // Structured code
  // ------------------------------------------------------------------

  predicate IsPlain(i: Insn) { !i.LdImm64? && !i.Hi? && !i.Ja? && !i.Jmp? && !i.Exit? }

  /** Instructions of one slot that fall through. */
  type Plain = i: Insn | IsPlain(i) witness MovImm(0, 0)

  /** Skip jumps over its body; Either jumps to `thn` over `els`; Diamond runs `els` and
      `tail`, or only `thn`; Check leaves for the clean-up code if R7 is negative. */
  datatype Code =
    | Empty
    | Op(i: Plain)
    | Wide(dst: Reg, blob: int)
    | Then(a: Code, b: Code)
    | Skip(cond: CondOp, reg: Reg, imm: int, body: Code)
    | Either(cond: CondOp, reg: Reg, imm: int, els: Code, thn: Code)
    | Diamond(cond: CondOp, reg: Reg, imm: int, els: Code, thn: Code, tail: Code)
    | Check

  function Compile(c: Code, pos: int, cleanup: int): seq<Insn> {
    match c
    case Empty => []
    case Op(i) => [i]
    case Wide(d, o) => [LdImm64(d, o), Hi]
    case Then(a, b) =>
      var x := Compile(a, pos, cleanup);
      x + Compile(b, pos + |x|, cleanup)
    case Skip(op, r, imm, body) =>
      var x := Compile(body, pos + 1, cleanup);
      [Jmp(op, r, imm, |x|)] + x
    case Either(op, r, imm, els, thn) =>
      var x := Compile(els, pos + 1, cleanup);
      var y := Compile(thn, pos + 2 + |x|, cleanup);
      [Jmp(op, r, imm, |x| + 1)] + x + [Ja(|y|)] + y
    case Diamond(op, r, imm, els, thn, tail) =>
      var x := Compile(els, pos + 1, cleanup);
      var y := Compile(thn, pos + 2 + |x|, cleanup);
      var z := Compile(tail, pos + 3 + |x| + |y|, cleanup);
      [Jmp(op, r, imm, |x| + 1)] + x + [Ja(|y| + 1)] + y + [Ja(|z|)] + z
    case Check => [Jmp(Jslt, 7, 0, cleanup - pos - 1)]
  }

  datatype Kind = Next | Error | Fault | NoRun

  datatype Outcome = Outcome(kind: Kind, s: State, t: nat)

  function Outcomes(e: Effect, s: State, t: nat): Outcome {
    if e.Done? then Outcome(Next, e.s, t) else Outcome(if e.Wrong? then Fault else NoRun, s, t)
  }

  /** Spends one more step if the code ended normally. */
  function Jumped(o: Outcome): Outcome { if o.kind.Next? then o.(t := o.t + 1) else o }

  /** What structured code does, read without any jump. */
  function Exec(c: Code, s: State, world: World, t: nat): (o: Outcome)
    requires Sane(s)
    ensures Sane(o.s) && o.t >= t
    decreases c
  {
    match c
    case Empty => Outcome(Next, s, t)
    case Op(i) => Outcomes(Perform(i, s, world(t)), s, t + 1)
    case Wide(d, blob) => Outcome(Next, Set(s, d, Blob(blob)), t + 1)
    case Then(a, b) =>
      var o := Exec(a, s, world, t);
      if o.kind.Next? then Exec(b, o.s, world, o.t) else o
    case Skip(op, r, imm, body) =>
      if Taken(op, s.regs[r], imm, world(t)) then Outcome(Next, s, t + 1) else Exec(body, s, world, t + 1)
    case Either(op, r, imm, els, thn) =>
      if Taken(op, s.regs[r], imm, world(t)) then Exec(thn, s, world, t + 1)
      else Jumped(Exec(els, s, world, t + 1))
    case Diamond(op, r, imm, els, thn, tail) =>
      if Taken(op, s.regs[r], imm, world(t)) then Jumped(Exec(thn, s, world, t + 1))
      else
        var o := Jumped(Exec(els, s, world, t + 1));
        if o.kind.Next? then Exec(tail, o.s, world, o.t) else o
    case Check => Outcome(if Taken(Jslt, s.regs[7], 0, world(t)) then Error else Next, s, t + 1)
  }

  // ------------------------------------------------------------------
  // Compiled code does what the structured code says
  // ------------------------------------------------------------------

  /** Where the outcome of a block leaves the machine. */
  function Landing(o: Outcome, end: int, cleanup: int): Conf {
    match o.kind
    case Next => At(end, o.s)
    case Error => At(cleanup, o.s)
    case Fault => Bad
    case NoRun => Absurd
  }

  predicate Holds(code: seq<Insn>, pos: int, part: seq<Insn>) {
    0 <= pos && pos + |part| <= |code| && forall k :: 0 <= k < |part| ==> code[pos + k] == part[k]
  }

  lemma HoldsSplit(code: seq<Insn>, pos: int, a: seq<Insn>, b: seq<Insn>)
    requires Holds(code, pos, a + b)
    ensures Holds(code, pos, a) && Holds(code, pos + |a|, b)
  {
    forall k | 0 <= k < |a| ensures code[pos + k] == a[k] {
      assert (a + b)[k] == a[k];
    }
    forall k | 0 <= k < |b| ensures code[pos + |a| + k] == b[k] {
      assert (a + b)[|a| + k] == b[k];
    }
  }

  /** From a place in the code the machine comes to where an outcome leaves it. */
  ghost predicate Reaches(code: seq<Insn>, pos: int, s: State, world: World, t: nat, o: Outcome, end: int, cleanup: int)
  {
    o.t >= t && Run(code, At(pos, s), world, t, o.t - t) == Landing(o, end, cleanup)
  }

  lemma ReachNothing(code: seq<Insn>, pos: int, s: State, world: World, t: nat, cleanup: int)
    ensures Reaches(code, pos, s, world, t, Outcome(Next, s, t), pos, cleanup)
  {
  }

  /** One step, and on from there. */
  lemma ReachStep(code: seq<Insn>, pos: int, s: State, world: World, t: nat, pos': int, s': State, o: Outcome,
                  end: int, cleanup: int)
    requires Step(code, At(pos, s), world(t)) == At(pos', s')
    requires Reaches(code, pos', s', world, t + 1, o, end, cleanup)
    ensures Reaches(code, pos, s, world, t, o, end, cleanup)
  {
    hide Step;
  }

  lemma ReachThen(code: seq<Insn>, pos: int, s: State, world: World, t: nat, o: Outcome, mid: int, o': Outcome,
                  end: int, cleanup: int)
    requires Reaches(code, pos, s, world, t, o, mid, cleanup)
    requires o.kind.Next? && Reaches(code, mid, o.s, world, o.t, o', end, cleanup)
    ensures Reaches(code, pos, s, world, t, o', end, cleanup)
  {
    hide Run;
    RunSplit(code, At(pos, s), world, t, o.t - t, o'.t - o.t);
  }

  lemma ReachOther(code: seq<Insn>, pos: int, s: State, world: World, t: nat, o: Outcome, mid: int, end: int, cleanup: int)
    requires Reaches(code, pos, s, world, t, o, mid, cleanup) && !o.kind.Next?
    ensures Reaches(code, pos, s, world, t, o, end, cleanup)
  {
  }

  /** A block followed by an unconditional jump. */
  lemma ReachJump(code: seq<Insn>, pos: int, s: State, world: World, t: nat, o: Outcome, mid: int, off: int, cleanup: int)
    requires Reaches(code, pos, s, world, t, o, mid, cleanup) && Sane(o.s)
    requires 0 <= mid < |code| && code[mid] == Ja(off)
    ensures Reaches(code, pos, s, world, t, Jumped(o), mid + 1 + off, cleanup)
  {
    hide Run;
    if o.kind.Next? {
      hide Reaches;
      var end := mid + 1 + off;
      ReachNothing(code, end, o.s, world, o.t + 1, cleanup);
      ReachStep(code, mid, o.s, world, o.t, end, o.s, Jumped(o), end, cleanup);
      ReachThen(code, pos, s, world, t, o, mid, Jumped(o), end, cleanup);
    }
  }

  /** A conditional jump, and on from there. */
  lemma ReachBranch(code: seq<Insn>, pos: int, s: State, world: World, t: nat, op: CondOp, r: Reg, imm: int, off: int,
                    o: Outcome, end: int, cleanup: int)
    requires Sane(s) && 0 <= pos < |code| && code[pos] == Jmp(op, r, imm, off)
    requires var pos' := if Taken(op, s.regs[r], imm, world(t)) then pos + 1 + off else pos + 1;
             Reaches(code, pos', s, world, t + 1, o, end, cleanup)
    ensures Reaches(code, pos, s, world, t, o, end, cleanup)
  {
    hide Reaches;
    hide Taken;
    var pos' := if Taken(op, s.regs[r], imm, world(t)) then pos + 1 + off else pos + 1;
    assert Step(code, At(pos, s), world(t)) == At(pos', s);
    ReachStep(code, pos, s, world, t, pos', s, o, end, cleanup);
  }

  // ------------------------------------------------------------------
  // The pieces of compiled code
  // ------------------------------------------------------------------

  lemma HoldsFirst(code: seq<Insn>, pos: int, i: Insn, rest: seq<Insn>)
    requires Holds(code, pos, [i] + rest)
    ensures 0 <= pos < |code| && code[pos] == i && Holds(code, pos + 1, rest)
  {
    assert code[pos + 0] == ([i] + rest)[0];
    HoldsSplit(code, pos, [i], rest);
  }

  lemma EitherParts(code: seq<Insn>, pos: int, i: Insn, x: seq<Insn>, j: Insn, y: seq<Insn>)
    requires Holds(code, pos, [i] + x + [j] + y)
    ensures 0 <= pos && pos + 2 + |x| <= |code| && code[pos] == i && code[pos + 1 + |x|] == j
    ensures Holds(code, pos + 1, x) && Holds(code, pos + 2 + |x|, y)
  {
    hide Holds;
    HoldsSplit(code, pos, [i] + x + [j], y);
    HoldsSplit(code, pos, [i] + x, [j]);
    HoldsFirst(code, pos, i, x);
    assert [j] == [j] + [];
    HoldsFirst(code, pos + 1 + |x|, j, []);
  }

  lemma DiamondParts(code: seq<Insn>, pos: int, i: Insn, x: seq<Insn>, j: Insn, y: seq<Insn>, k: Insn, z: seq<Insn>)
    requires Holds(code, pos, [i] + x + [j] + y + [k] + z)
    ensures 0 <= pos && pos + 3 + |x| + |y| <= |code|
    ensures code[pos] == i && code[pos + 1 + |x|] == j && code[pos + 2 + |x| + |y|] == k
    ensures Holds(code, pos + 1, x) && Holds(code, pos + 2 + |x|, y) && Holds(code, pos + 3 + |x| + |y|, z)
  {
    hide Holds;
    HoldsSplit(code, pos, [i] + x + [j] + y + [k], z);
    HoldsSplit(code, pos, [i] + x + [j] + y, [k]);
    EitherParts(code, pos, i, x, j, y);
    assert [k] == [k] + [];
    HoldsFirst(code, pos + 2 + |x| + |y|, k, []);
  }

  // ------------------------------------------------------------------
  // Correctness of compilation
  // ------------------------------------------------------------------

  ghost predicate Simulated(c: Code, code: seq<Insn>, pos: int, cleanup: int, s: State, world: World, t: nat)
    requires Sane(s)
  {
    Reaches(code, pos, s, world, t, Exec(c, s, world, t), pos + |Compile(c, pos, cleanup)|, cleanup)
  }

  lemma OpCorrect(i: Plain, code: seq<Insn>, pos: int, cleanup: int, s: State, world: World, t: nat)
    requires Sane(s) && Holds(code, pos, Compile(Op(i), pos, cleanup))
    ensures Simulated(Op(i), code, pos, cleanup, s, world, t)
  {
    assert [i] == [i] + [];
    HoldsFirst(code, pos, i, []);
    hide Perform;
    assert Run(code, At(pos, s), world, t, 1) == Run(code, Step(code, At(pos, s), world(t)), world, t + 1, 0);
  }

  lemma WideCorrect(d: Reg, blob: int, code: seq<Insn>, pos: int, cleanup: int, s: State, world: World, t: nat)
    requires Sane(s) && Holds(code, pos, Compile(Wide(d, blob), pos, cleanup))
    ensures Simulated(Wide(d, blob), code, pos, cleanup, s, world, t)
  {
    assert [LdImm64(d, blob), Hi] == [LdImm64(d, blob)] + [Hi];
    HoldsFirst(code, pos, LdImm64(d, blob), [Hi]);
    var s' := Set(s, d, Blob(blob));
    ReachNothing(code, pos + 2, s', world, t + 1, cleanup);
    ReachStep(code, pos, s, world, t, pos + 2, s', Outcome(Next, s', t + 1), pos + 2, cleanup);
  }

  lemma CheckCorrect(code: seq<Insn>, pos: int, cleanup: int, s: State, world: World, t: nat)
    requires Sane(s) && Holds(code, pos, Compile(Check, pos, cleanup))
    ensures Simulated(Check, code, pos, cleanup, s, world, t)
  {
    var j := Jmp(Jslt, 7, 0, cleanup - pos - 1);
    assert [j] == [j] + [];
    HoldsFirst(code, pos, j, []);
    hide Taken;
    assert Run(code, At(pos, s), world, t, 1) == Run(code, Step(code, At(pos, s), world(t)), world, t + 1, 0);
  }

  lemma ThenCorrect(a: Code, b: Code, code: seq<Insn>, pos: int, cleanup: int, s: State, world: World, t: nat)
    requires Sane(s) && Simulated(a, code, pos, cleanup, s, world, t)
    requires var o := Exec(a, s, world, t);
             Simulated(b, code, pos + |Compile(a, pos, cleanup)|, cleanup, o.s, world, o.t)
    ensures Simulated(Then(a, b), code, pos, cleanup, s, world, t)
  {
    hide Reaches;
    var o := Exec(a, s, world, t);
    var mid := pos + |Compile(a, pos, cleanup)|;
    var end := pos + |Compile(Then(a, b), pos, cleanup)|;
    if o.kind.Next? {
      ReachThen(code, pos, s, world, t, o, mid, Exec(b, o.s, world, o.t), end, cleanup);
    } else {
      ReachOther(code, pos, s, world, t, o, mid, end, cleanup);
    }
  }

  lemma SkipCorrect(op: CondOp, r: Reg, imm: int, body: Code, code: seq<Insn>, pos: int, cleanup: int,
                    s: State, world: World, t: nat)
    requires Sane(s) && 0 <= pos < |code| && code[pos] == Jmp(op, r, imm, |Compile(body, pos + 1, cleanup)|)
    requires Simulated(body, code, pos + 1, cleanup, s, world, t + 1)
    ensures Simulated(Skip(op, r, imm, body), code, pos, cleanup, s, world, t)
  {
    hide Reaches;
    hide Taken;
    var n := |Compile(body, pos + 1, cleanup)|;
    var o := Exec(Skip(op, r, imm, body), s, world, t);
    ReachNothing(code, pos + 1 + n, s, world, t + 1, cleanup);
    ReachBranch(code, pos, s, world, t, op, r, imm, n, o, pos + 1 + n, cleanup);
  }

  lemma EitherReaches(code: seq<Insn>, pos: int, cleanup: int, s: State, world: World, t: nat,
                      op: CondOp, r: Reg, imm: int, x: nat, y: nat, e: Outcome, h: Outcome)
    requires Sane(s) && Sane(e.s) && 0 <= pos && pos + 2 + x <= |code|
    requires code[pos] == Jmp(op, r, imm, x + 1) && code[pos + 1 + x] == Ja(y)
    requires Reaches(code, pos + 1, s, world, t + 1, e, pos + 1 + x, cleanup)
    requires Reaches(code, pos + 2 + x, s, world, t + 1, h, pos + 2 + x + y, cleanup)
    ensures Reaches(code, pos, s, world, t, if Taken(op, s.regs[r], imm, world(t)) then h else Jumped(e),
                    pos + 2 + x + y, cleanup)
  {
    hide Reaches;
    hide Taken;
    hide Jumped;
    var o := if Taken(op, s.regs[r], imm, world(t)) then h else Jumped(e);
    ReachJump(code, pos + 1, s, world, t + 1, e, pos + 1 + x, y, cleanup);
    ReachBranch(code, pos, s, world, t, op, r, imm, x + 1, o, pos + 2 + x + y, cleanup);
  }

  /** What the code of an Either consists of. */
  lemma EitherHolds(op: CondOp, r: Reg, imm: int, els: Code, thn: Code, code: seq<Insn>, pos: int, cleanup: int)
    returns (x: nat, y: nat)
    requires Holds(code, pos, Compile(Either(op, r, imm, els, thn), pos, cleanup))
    ensures x == |Compile(els, pos + 1, cleanup)| && Holds(code, pos + 1, Compile(els, pos + 1, cleanup))
    ensures y == |Compile(thn, pos + 2 + x, cleanup)| && Holds(code, pos + 2 + x, Compile(thn, pos + 2 + x, cleanup))
    ensures 0 <= pos && pos + 2 + x <= |code| && code[pos] == Jmp(op, r, imm, x + 1) && code[pos + 1 + x] == Ja(y)
    ensures |Compile(Either(op, r, imm, els, thn), pos, cleanup)| == 2 + x + y
  {
    hide Holds;
    var xs := Compile(els, pos + 1, cleanup);
    x := |xs|;
    var ys := Compile(thn, pos + 2 + x, cleanup);
    y := |ys|;
    EitherParts(code, pos, Jmp(op, r, imm, x + 1), xs, Ja(y), ys);
  }

  lemma EitherExec(op: CondOp, r: Reg, imm: int, els: Code, thn: Code, s: State, world: World, t: nat)
    requires Sane(s)
    ensures var o := Exec(Either(op, r, imm, els, thn), s, world, t);
            if Taken(op, s.regs[r], imm, world(t)) then o == Exec(thn, s, world, t + 1)
            else o == Jumped(Exec(els, s, world, t + 1))
  {
    hide Perform;
    hide Taken;
    hide Jumped;
  }

  lemma DiamondReaches(code: seq<Insn>, pos: int, cleanup: int, s: State, world: World, t: nat, op: CondOp, r: Reg,
                       imm: int, x: nat, y: nat, z: nat, e: Outcome, h: Outcome, l: Outcome)
    requires Sane(s) && Sane(e.s) && Sane(h.s) && 0 <= pos && pos + 3 + x + y <= |code|
    requires code[pos] == Jmp(op, r, imm, x + 1) && code[pos + 1 + x] == Ja(y + 1) && code[pos + 2 + x + y] == Ja(z)
    requires Reaches(code, pos + 1, s, world, t + 1, e, pos + 1 + x, cleanup)
    requires Reaches(code, pos + 2 + x, s, world, t + 1, h, pos + 2 + x + y, cleanup)
    requires Reaches(code, pos + 3 + x + y, Jumped(e).s, world, Jumped(e).t, l, pos + 3 + x + y + z, cleanup)
    ensures Reaches(code, pos, s, world, t,
                    if Taken(op, s.regs[r], imm, world(t)) then Jumped(h)
                    else if Jumped(e).kind.Next? then l else Jumped(e),
                    pos + 3 + x + y + z, cleanup)
  {
    hide Reaches;
    hide Taken;
    var mid, end := pos + 3 + x + y, pos + 3 + x + y + z;
    var o := if Taken(op, s.regs[r], imm, world(t)) then Jumped(h) else if e.kind.Next? then l else Jumped(e);
    ReachJump(code, pos + 1, s, world, t + 1, e, pos + 1 + x, y + 1, cleanup);
    ReachJump(code, pos + 2 + x, s, world, t + 1, h, pos + 2 + x + y, z, cleanup);
    if e.kind.Next? {
      ReachThen(code, pos + 1, s, world, t + 1, Jumped(e), mid, l, end, cleanup);
    } else {
      ReachOther(code, pos + 1, s, world, t + 1, e, mid, end, cleanup);
    }
    ReachBranch(code, pos, s, world, t, op, r, imm, x + 1, o, end, cleanup);
  }

  /** What the code of a Diamond consists of. */
  lemma DiamondHolds(op: CondOp, r: Reg, imm: int, els: Code, thn: Code, tail: Code,
                     code: seq<Insn>, pos: int, cleanup: int)
    returns (x: nat, y: nat, z: nat)
    requires Holds(code, pos, Compile(Diamond(op, r, imm, els, thn, tail), pos, cleanup))
    ensures x == |Compile(els, pos + 1, cleanup)| && Holds(code, pos + 1, Compile(els, pos + 1, cleanup))
    ensures y == |Compile(thn, pos + 2 + x, cleanup)| && Holds(code, pos + 2 + x, Compile(thn, pos + 2 + x, cleanup))
    ensures z == |Compile(tail, pos + 3 + x + y, cleanup)|
    ensures Holds(code, pos + 3 + x + y, Compile(tail, pos + 3 + x + y, cleanup))
    ensures 0 <= pos && pos + 3 + x + y <= |code| && code[pos] == Jmp(op, r, imm, x + 1)
    ensures code[pos + 1 + x] == Ja(y + 1) && code[pos + 2 + x + y] == Ja(z)
    ensures |Compile(Diamond(op, r, imm, els, thn, tail), pos, cleanup)| == 3 + x + y + z
  {
    hide Holds;
    var xs := Compile(els, pos + 1, cleanup);
    x := |xs|;
    var ys := Compile(thn, pos + 2 + x, cleanup);
    y := |ys|;
    var zs := Compile(tail, pos + 3 + x + y, cleanup);
    z := |zs|;
    DiamondParts(code, pos, Jmp(op, r, imm, x + 1), xs, Ja(y + 1), ys, Ja(z), zs);
  }

  lemma DiamondExec(op: CondOp, r: Reg, imm: int, els: Code, thn: Code, tail: Code, s: State, world: World, t: nat)
    requires Sane(s)
    ensures var o := Exec(Diamond(op, r, imm, els, thn, tail), s, world, t);
            var e := Jumped(Exec(els, s, world, t + 1));
            && Sane(e.s)
            && (Taken(op, s.regs[r], imm, world(t)) ==> o == Jumped(Exec(thn, s, world, t + 1)))
            && (!Taken(op, s.regs[r], imm, world(t)) ==> o == if e.kind.Next? then Exec(tail, e.s, world, e.t) else e)
  {
    hide Perform;
    hide Taken;
    hide Outcomes;
  }

  /** The machine running compiled code does what the structured code says. */
  lemma {:induction false} CompileCorrect(c: Code, code: seq<Insn>, pos: int, cleanup: int,
                                          s: State, world: World, t: nat)
    requires Sane(s) && Holds(code, pos, Compile(c, pos, cleanup))
    ensures Simulated(c, code, pos, cleanup, s, world, t)
    decreases c, 1
  {
    hide Holds;
    hide Simulated;
    hide Exec;
    hide Compile;
    match c
    case Empty => EmptyCorrect(code, pos, cleanup, s, world, t);
    case Op(i) => OpCorrect(i, code, pos, cleanup, s, world, t);
    case Wide(d, blob) => WideCorrect(d, blob, code, pos, cleanup, s, world, t);
    case Check => CheckCorrect(code, pos, cleanup, s, world, t);
    case Then(a, b) =>
      ThenHolds(a, b, code, pos, cleanup);
      CompileCorrect(a, code, pos, cleanup, s, world, t);
      var o := Exec(a, s, world, t);
      CompileCorrect(b, code, pos + |Compile(a, pos, cleanup)|, cleanup, o.s, world, o.t);
      ThenCorrect(a, b, code, pos, cleanup, s, world, t);
    case Skip(op, r, imm, body) =>
      SkipHolds(op, r, imm, body, code, pos, cleanup);
      CompileCorrect(body, code, pos + 1, cleanup, s, world, t + 1);
      SkipCorrect(op, r, imm, body, code, pos, cleanup, s, world, t);
    case Either(op, r, imm, els, thn) => EitherCorrect(c, code, pos, cleanup, s, world, t);
    case Diamond(op, r, imm, els, thn, tail) => DiamondCorrect(c, code, pos, cleanup, s, world, t);
  }

  lemma {:induction false} EitherCorrect(c: Code, code: seq<Insn>, pos: int, cleanup: int, s: State, world: World, t: nat)
    requires c.Either? && Sane(s) && Holds(code, pos, Compile(c, pos, cleanup))
    ensures Simulated(c, code, pos, cleanup, s, world, t)
    decreases c, 0
  {
    hide Holds;
    hide Exec;
    hide Compile;
    hide Reaches;
    hide Taken;
    hide Jumped;
    var x, y := EitherHolds(c.cond, c.reg, c.imm, c.els, c.thn, code, pos, cleanup);
    CompileCorrect(c.els, code, pos + 1, cleanup, s, world, t + 1);
    CompileCorrect(c.thn, code, pos + 2 + x, cleanup, s, world, t + 1);
    EitherExec(c.cond, c.reg, c.imm, c.els, c.thn, s, world, t);
    EitherReaches(code, pos, cleanup, s, world, t, c.cond, c.reg, c.imm, x, y,
                  Exec(c.els, s, world, t + 1), Exec(c.thn, s, world, t + 1));
  }

  lemma {:induction false} DiamondCorrect(c: Code, code: seq<Insn>, pos: int, cleanup: int, s: State, world: World, t: nat)
    requires c.Diamond? && Sane(s) && Holds(code, pos, Compile(c, pos, cleanup))
    ensures Simulated(c, code, pos, cleanup, s, world, t)
    decreases c, 0
  {
    hide Holds;
    hide Exec;
    hide Compile;
    hide Reaches;
    hide Taken;
    hide Jumped;
    var x, y, z := DiamondHolds(c.cond, c.reg, c.imm, c.els, c.thn, c.tail, code, pos, cleanup);
    var e := Jumped(Exec(c.els, s, world, t + 1));
    DiamondExec(c.cond, c.reg, c.imm, c.els, c.thn, c.tail, s, world, t);
    CompileCorrect(c.els, code, pos + 1, cleanup, s, world, t + 1);
    CompileCorrect(c.thn, code, pos + 2 + x, cleanup, s, world, t + 1);
    CompileCorrect(c.tail, code, pos + 3 + x + y, cleanup, e.s, world, e.t);
    DiamondReaches(code, pos, cleanup, s, world, t, c.cond, c.reg, c.imm, x, y, z,
                   Exec(c.els, s, world, t + 1), Exec(c.thn, s, world, t + 1), Exec(c.tail, e.s, world, e.t));
  }

  lemma ThenHolds(a: Code, b: Code, code: seq<Insn>, pos: int, cleanup: int)
    requires Holds(code, pos, Compile(Then(a, b), pos, cleanup))
    ensures Holds(code, pos, Compile(a, pos, cleanup))
    ensures var n := |Compile(a, pos, cleanup)|; Holds(code, pos + n, Compile(b, pos + n, cleanup))
  {
    hide Holds;
    HoldsSplit(code, pos, Compile(a, pos, cleanup), Compile(b, pos + |Compile(a, pos, cleanup)|, cleanup));
  }

  lemma SkipHolds(op: CondOp, r: Reg, imm: int, body: Code, code: seq<Insn>, pos: int, cleanup: int)
    requires Holds(code, pos, Compile(Skip(op, r, imm, body), pos, cleanup))
    ensures var x := Compile(body, pos + 1, cleanup);
            0 <= pos < |code| && code[pos] == Jmp(op, r, imm, |x|) && Holds(code, pos + 1, x)
  {
    hide Holds;
    var x := Compile(body, pos + 1, cleanup);
    HoldsFirst(code, pos, Jmp(op, r, imm, |x|), x);
  }

  lemma EmptyCorrect(code: seq<Insn>, pos: int, cleanup: int, s: State, world: World, t: nat)
    requires Sane(s)
    ensures Simulated(Empty, code, pos, cleanup, s, world, t)
  {
    ReachNothing(code, pos, s, world, t, cleanup);
  }
}
