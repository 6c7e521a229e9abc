/** Runs of finished loader programs, for every answer of the outside world. */
module LoaderRun {
  import opened Ebpf
  import opened FdFlow
  import opened LoaderGen

  /** The machine as the loader finds it: R1 points to the context, nothing is open, and
      nothing was asked. */
  predicate Begins(s: State) {
    && Sane(s) && s.regs[1] == Ctx(0) && s.regs[10] == Stack(0)
    && s.open == {} && s.cmds == [] && s.results == [] && s.last == 0 && !s.failed
  }

  /** A descriptor was handed over in the context. */
  predicate HandedOver(s: State, outs: map<int, nat>, fd: int) {
    exists o :: o in outs && o in s.out && s.out[o] == fd
  }

  /** A word of the context has the answer of a command; it is a descriptor that is still
      open, if none was closed that is not known to be another one. */
  predicate Answered(s: State, o: int, c: nat, strays: bool) {
    o in s.out && c < |s.results| && s.out[o] == s.results[c] && (!strays ==> s.results[c] in s.open)
  }

  /** Zero is returned, every command was issued and none failed.  In the context, the word
      of every map and program has what its own command has answered; every descriptor that
      is still open was handed over; only that of an inner map that no map of maps has
      taken over may be left. */
  predicate Loaded(s: State, b: Book, progCmds: seq<nat>, mapCmds: seq<nat>) {
    && Sane(s) && s.regs[0] == Num(0) && !s.failed && s.cmds == b.cmds && |s.results| == |s.cmds|
    && (forall i :: 0 <= i < |mapCmds| ==> Answered(s, MapOut(i), mapCmds[i], b.strays))
    && (forall i :: 0 <= i < |progCmds| ==> Answered(s, ProgOut(|mapCmds|, i), progCmds[i], b.strays))
    && forall fd :: fd in s.open ==> HandedOver(s, b.outs, fd) || (1 in b.used && s.slots[1] == fd)
  }

  /** The error of the last call is returned, the commands up to it were issued, and
      nothing is left open. */
  predicate GaveUp(s: State, b: Book) {
    Sane(s) && s.regs[0] == Num(s.last) && s.last < 0 && s.open == {} && s.cmds <= b.cmds
  }

  /** How a run may end. */
  predicate Ends(c: Conf, b: Book, progCmds: seq<nat>, mapCmds: seq<nat>) {
    c.Absurd? || (c.Halted? && (Loaded(c.s, b, progCmds, mapCmds) || GaveUp(c.s, b)))
  }

  // ------------------------------------------------------------------
  // The head
  // ------------------------------------------------------------------

  lemma PlainStep(code: seq<Insn>, pc: int, s: State, w: nat -> int, s': State)
    requires 0 <= pc < |code| && Sane(s) && IsPlain(code[pc]) && Perform(code[pc], s, w) == Done(s')
    ensures Step(code, At(pc, s), w) == At(pc + 1, s')
  {
    hide Perform;
  }

  /** The state in front of the call that clears the stack frame. */
  function Prepared(s: State): (s': State)
    requires Sane(s)
    ensures Sane(s')
  {
    Set(Set(Set(Set(Set(s, 6, Ctx(0)), 1, Stack(0)), 1, Stack(-STACK_SZ)), 2, Num(STACK_SZ)), 3, Num(0))
  }

  function Cleared(s: State, w: nat -> int): (s': State)
    requires Sane(s)
    ensures Sane(s')
  {
    Clobbered(Prepared(s), w).(slots := seq(NR_STACK, _ => 0) + s.slots[NR_STACK..])
  }

  lemma PreparedArgs(s: State)
    requires Sane(s)
    ensures var s' := Prepared(s);
            && s'.regs[1] == Stack(-STACK_SZ) && s'.regs[2] == Num(STACK_SZ) && s'.regs[3] == Num(0) && s'.slots == s.slots
  {
  }

  lemma ClearStep(code: seq<Insn>, s: State, w: nat -> int)
    requires Sane(s) && 5 < |code| && code[5] == Call(ProbeReadKernel)
    ensures Step(code, At(5, Prepared(s)), w) == At(6, Cleared(s, w))
  {
    PreparedArgs(s);
    hide Prepared;
    PlainStep(code, 5, Prepared(s), w, Cleared(s, w));
  }

  lemma ClearedSat(s: State, w: nat -> int)
    requires Begins(s)
    ensures Sat(Cleared(s, w), MainBook, [])
  {
  }

  lemma PrologueCode(code: seq<Insn>, n: int)
    requires Holds(code, 0, Prologue(n))
    ensures 7 <= |code| && code[0] == MovReg(6, 1) && code[1] == MovReg(1, 10) && code[2] == Alu(Add, 1, -STACK_SZ)
    ensures code[3] == MovImm(2, STACK_SZ) && code[4] == MovImm(3, 0) && code[5] == Call(ProbeReadKernel) && code[6] == Ja(n)
  {
    var p := Prologue(n);
    assert code[0] == p[0] && code[1] == p[1] && code[2] == p[2] && code[3] == p[3];
    assert code[4] == p[4] && code[5] == p[5] && code[6] == p[6];
  }

  /** The first seven instructions lead behind the clean-up code. */
  lemma PrologueRuns(code: seq<Insn>, n: int, s: State, world: World)
    requires 7 <= |code| && Holds(code, 0, Prologue(n)) && Begins(s)
    ensures Run(code, At(0, s), world, 0, 7) == At(7 + n, Cleared(s, world(5)))
  {
    hide Run;
    PrologueCode(code, n);
    hide Prologue;
    var s1 := Set(s, 6, Ctx(0));
    var s2 := Set(s1, 1, Stack(0));
    var s3 := Set(s2, 1, Stack(-STACK_SZ));
    var s4 := Set(s3, 2, Num(STACK_SZ));
    var s5 := Set(s4, 3, Num(0));
    var s6 := Cleared(s, world(5));
    assert Step(code, At(6, s6), world(6)) == At(7 + n, s6);
    hide Step;
    hide Cleared;
    PlainStep(code, 0, s, world(0), s1);
    PlainStep(code, 1, s1, world(1), s2);
    PlainStep(code, 2, s2, world(2), s3);
    PlainStep(code, 3, s3, world(3), s4);
    PlainStep(code, 4, s4, world(4), s5);
    ClearStep(code, s, world(5));
    SevenSteps(code, world, At(0, s), At(1, s1), At(2, s2), At(3, s3), At(4, s4), At(5, s5), At(6, s6), At(7 + n, s6));
  }

  lemma SevenSteps(code: seq<Insn>, world: World, c0: Conf, c1: Conf, c2: Conf, c3: Conf, c4: Conf, c5: Conf, c6: Conf, c7: Conf)
    requires Step(code, c0, world(0)) == c1 && Step(code, c1, world(1)) == c2 && Step(code, c2, world(2)) == c3
    requires Step(code, c3, world(3)) == c4 && Step(code, c4, world(4)) == c5 && Step(code, c5, world(5)) == c6
    requires Step(code, c6, world(6)) == c7
    ensures Run(code, c0, world, 0, 7) == c7
  {
    hide Step;
    assert Run(code, c6, world, 6, 1) == Run(code, c7, world, 7, 0);
    assert Run(code, c5, world, 5, 2) == Run(code, c6, world, 6, 1);
    assert Run(code, c4, world, 4, 3) == Run(code, c5, world, 5, 2);
    assert Run(code, c3, world, 3, 4) == Run(code, c4, world, 4, 3);
    assert Run(code, c2, world, 2, 5) == Run(code, c3, world, 3, 4);
    assert Run(code, c1, world, 1, 6) == Run(code, c2, world, 2, 5);
  }

  // ------------------------------------------------------------------
  // Blocks that end the program
  // ------------------------------------------------------------------

  /** A block that is followed by an exit. */
  lemma BlockRuns(c: Code, code: seq<Insn>, pos: nat, s: State, world: World, t: nat) returns (n: nat)
    requires Sane(s) && Holds(code, pos, Compile(c, pos, 7) + [Exit])
    ensures var o := Exec(c, s, world, t);
            var end := Run(code, At(pos, s), world, t, n);
            match o.kind
            case Next => end == Halted(o.s)
            case Error => end == At(7, o.s) && t + n == o.t
            case Fault => end == Bad
            case NoRun => end == Absurd
  {
    hide Holds;
    hide Compile;
    hide Exec;
    hide Run;
    hide Step;
    var x := Compile(c, pos, 7);
    HoldsSplit(code, pos, x, [Exit]);
    assert [Exit] == [Exit] + [];
    HoldsFirst(code, pos + |x|, Exit, []);
    CompileCorrect(c, code, pos, 7, s, world, t);
    var o := Exec(c, s, world, t);
    n := o.t - t;
    if o.kind.Next? {
      RunSplit(code, At(pos, s), world, t, n, 1);
      HaltStep(code, pos + |x|, o.s, world, o.t);
      n := n + 1;
    }
  }

  lemma HaltStep(code: seq<Insn>, pos: int, s: State, world: World, t: nat)
    requires Sane(s) && 0 <= pos < |code| && code[pos] == Exit
    ensures Run(code, At(pos, s), world, t, 1) == Halted(s)
  {
    assert Run(code, At(pos, s), world, t, 1) == Run(code, Halted(s), world, t + 1, 0);
  }

  lemma HeldMore(s: State, used: set<nat>, more: set<nat>)
    requires Sane(s) && Held(s, used, None) && used <= more
    ensures Held(s, more, None)
  {
    forall fd | fd in s.open ensures InSlot(s, more, fd) {
      assert InSlot(s, used, fd);
      var k :| k in used && k < NR_SLOTS && s.slots[k] == fd;
      assert k in more;
    }
  }

  lemma CleanSat(s: State, seen: set<nat>, cmds: seq<int>, progs: nat, maps: nat)
    requires Failed(s, seen, cmds) && seen <= Closable(progs, maps)
    ensures Sat(s, CleanBook(progs, maps), s.cmds)
  {
    HeldMore(s, seen, Closable(progs, maps));
    assert s.cmds + [] == s.cmds;
  }

  /** After the clean-up code nothing is open, and the error is returned. */
  lemma CleanEnds(s: State, e: Book, pre: seq<int>, b: Book)
    requires Sat(s, e, pre) && e.used == {} && e.pend.None? && e.neg && 0 in e.known && e.known[0].Result?
    requires e.cmds == [] && pre <= b.cmds
    ensures GaveUp(s, b)
  {
    assert Fact(s, 0, e.known[0]);
    assert forall fd :: fd !in s.open;
  }

  /** From the clean-up label on. */
  lemma CleanRuns(head: seq<Insn>, clean: Code, progs: nat, maps: nat, code: seq<Insn>, s: State, b: Book,
                  world: World, t: nat) returns (n: nat)
    requires HeadOk(head, clean, progs, maps) && Holds(code, 7, Compile(clean, 7, 7) + [Exit])
    requires Failed(s, b.seen, b.cmds) && b.seen <= Closable(progs, maps)
    ensures var c := Run(code, At(7, s), world, t, n); c.Absurd? || (c.Halted? && GaveUp(c.s, b))
  {
    CleanSat(s, b.seen, b.cmds, progs, maps);
    var e := Flow(clean, CleanBook(progs, maps)).value;
    FlowSound(clean, CleanBook(progs, maps), s, world, t, s.cmds);
    NoSecondError(clean, CleanBook(progs, maps), s, world, t);
    n := BlockRuns(clean, code, 7, s, world, t);
    hide Compile;
    hide Flow;
    hide Run;
    hide Sat;
    hide GaveUp;
    hide Holds;
    var o := Exec(clean, s, world, t);
    if o.kind.Next? {
      CleanEnds(o.s, e, s.cmds, b);
    }
  }

  lemma SlotAnswered(s: State, b: Book, o: int, k: nat, c: nat)
    requires Sat(s, b, []) && HeldAs(b, k, c) && o in b.outs && b.outs[o] == k
    ensures Answered(s, o, c, b.strays)
  {
  }

  /** At the end of the script every open descriptor is in the context. */
  lemma MainEnds(s: State, b: Book, progCmds: seq<nat>, mapCmds: seq<nat>)
    requires Sat(s, b, []) && FinalBook(b, progCmds, mapCmds)
    ensures Loaded(s, b, progCmds, mapCmds)
  {
    assert Fact(s, 0, b.known[0]);
    forall i | 0 <= i < |mapCmds| ensures Answered(s, MapOut(i), mapCmds[i], b.strays) {
      SlotAnswered(s, b, MapOut(i), NR_STACK + i, mapCmds[i]);
    }
    forall i | 0 <= i < |progCmds| ensures Answered(s, ProgOut(|mapCmds|, i), progCmds[i], b.strays) {
      SlotAnswered(s, b, ProgOut(|mapCmds|, i), 2 + i, progCmds[i]);
    }
    forall fd | fd in s.open ensures HandedOver(s, b.outs, fd) || (1 in b.used && s.slots[1] == fd) {
      assert InSlot(s, b.used, fd);
      var k :| k in b.used && k < NR_SLOTS && s.slots[k] == fd;
      assert MayClose(k, |progCmds|, |mapCmds|);
      if k >= NR_STACK {
        assert MapOut(k - NR_STACK) in b.outs;
      } else if k >= 2 {
        assert ProgOut(|mapCmds|, k - 2) in b.outs;
      }
    }
  }

  lemma SeenClosable(b: Book, progCmds: seq<nat>, mapCmds: seq<nat>, allProgs: nat)
    requires FinalBook(b, progCmds, mapCmds) && |progCmds| <= allProgs
    ensures b.seen <= Closable(allProgs, |mapCmds|)
  {
    forall k | k in b.seen ensures k in Closable(allProgs, |mapCmds|) {
      assert MayClose(k, |progCmds|, |mapCmds|);
      assert MayClose(k, allProgs, |mapCmds|);
    }
  }

  // ------------------------------------------------------------------
  // Where the parts of a finished program are
  // ------------------------------------------------------------------

  /** Where the parts of a finished program are, for any number of programs. */
  lemma ProgramHolds(code: seq<Insn>, head: seq<Insn>, clean: Code, script: Code, b: Book,
                     progCmds: seq<nat>, mapCmds: seq<nat>, allProgs: nat)
    requires Program(code, head, clean, script, b, progCmds, mapCmds, allProgs)
    ensures Holds(code, 0, Prologue(S16(|head| - 7))) && Holds(code, 7, CleanSlots(2 + allProgs))
    ensures Holds(code, |head|, Compile(script, |head|, 7))
    ensures |progCmds| <= MAX_USED_PROGS ==> Holds(code, |head|, Compile(script, |head|, 7) + [Exit])
    ensures |progCmds| > MAX_USED_PROGS ==> Holds(code, |head|, Compile(script, |head|, 7) + [STORE_BEYOND])
  {
    hide Compile;
    hide Flow;
    hide HeadOk;
    hide FinalBook;
    hide Prologue;
    hide S16;
    hide CleanSlots;
    var main := Compile(script, |head|, 7);
    var last := if |progCmds| <= MAX_USED_PROGS then Exit else STORE_BEYOND;
    assert head + (main + [last]) <= code;
    HoldsPrefix(code, head, main + [last]);
    HoldsSplit(code, |head|, main, [last]);
    HeadHolds(code, head, allProgs, |mapCmds|);
  }

  lemma HeadHolds(code: seq<Insn>, head: seq<Insn>, progs: nat, maps: nat)
    requires HeadShape(head, progs, maps) && head <= code
    ensures Holds(code, 0, Prologue(S16(|head| - 7))) && Holds(code, 7, CleanSlots(2 + progs))
  {
    hide S16;
    hide CleanSlots;
    var p, c := Prologue(S16(|head| - 7)), CleanSlots(2 + progs);
    PrologueLength(S16(|head| - 7));
    hide Prologue;
    HoldsPrefix(code, [], p + c);
    HoldsSplit(code, 0, p, c);
  }

  lemma HoldsPrefix(code: seq<Insn>, a: seq<Insn>, b: seq<Insn>)
    requires a + b <= code
    ensures Holds(code, |a|, b)
  {
    forall k | 0 <= k < |b| ensures code[|a| + k] == b[k] {
      assert (a + b)[|a| + k] == b[k];
    }
  }

  lemma CleanHolds(code: seq<Insn>, head: seq<Insn>, clean: Code, script: Code, b: Book,
                   progCmds: seq<nat>, mapCmds: seq<nat>, allProgs: nat)
    requires Program(code, head, clean, script, b, progCmds, mapCmds, allProgs) && allProgs <= MAX_USED_PROGS
    ensures Holds(code, 7, Compile(clean, 7, 7) + [Exit])
  {
    hide Compile;
    hide Flow;
    hide HeadShape;
    hide FinalBook;
    var body, main := Compile(clean, 7, 7), Compile(script, |head|, 7);
    var p := Prologue(|body| + 1);
    PrologueLength(|body| + 1);
    hide Prologue;
    assert code == p + (body + [Exit]) + (main + [Exit]);
    HoldsPrefix(code, p, body + [Exit]);
  }

  // ------------------------------------------------------------------
  // Runs
  // ------------------------------------------------------------------

  /** If its head is within the reach of the first jump, a program gets to its script. */
  lemma Enters(code: seq<Insn>, head: seq<Insn>, clean: Code, script: Code, b: Book,
               progCmds: seq<nat>, mapCmds: seq<nat>, allProgs: nat, s: State, world: World)
    requires Program(code, head, clean, script, b, progCmds, mapCmds, allProgs) && Begins(s)
    requires |head| - 7 < 0x8000
    ensures Run(code, At(0, s), world, 0, 7) == At(|head|, Cleared(s, world(5)))
    ensures Sat(Cleared(s, world(5)), MainBook, [])
  {
    hide Compile;
    hide Flow;
    hide Run;
    hide Sat;
    hide Holds;
    hide Cleared;
    hide CleanSlots;
    hide S16;
    hide Prologue;
    hide FinalBook;
    hide HeadOk;
    ProgramHolds(code, head, clean, script, b, progCmds, mapCmds, allProgs);
    S16Small(|head| - 7);
    PrologueRuns(code, |head| - 7, s, world);
    ClearedSat(s, world(5));
  }

  /** Without a call that reports a result there is no error. */
  lemma {:induction false} QuietLast(c: Code, b: Book, s: State, world: World, t: nat)
    requires Sane(s) && Flow(c, b).Some? && !Flow(c, b).value.asked
    ensures Exec(c, s, world, t).s.last == s.last
    decreases c
  {
    match c
    case Empty =>
    case Op(i) => QuietOp(i, b, s, world(t));
    case Wide(d, blob) =>
    case Check =>
    case Then(x, y) =>
      var m := Flow(x, b).value;
      FlowGrows(y, m);
      hide Grows;
      QuietLast(x, b, s, world, t);
      var o := Exec(x, s, world, t);
      QuietLast(y, m, o.s, world, o.t);
    case Skip(op, r, imm, body) => QuietLast(body, b, s, world, t + 1);
    case Either(op, r, imm, els, thn) =>
      QuietLast(els, b, s, world, t + 1);
      QuietLast(thn, b, s, world, t + 1);
    case Diamond(op, r, imm, els, thn, tail) =>
      var m := Flow(els, b).value;
      FlowGrows(tail, m);
      hide Grows;
      QuietLast(els, b, s, world, t + 1);
      QuietLast(thn, b, s, world, t + 1);
      var o := Jumped(Exec(els, s, world, t + 1));
      QuietLast(tail, m, o.s, world, o.t);
  }

  lemma QuietOp(i: Plain, b: Book, s: State, w: nat -> int)
    requires Sane(s) && AfterOp(b, i).Some? && !AfterOp(b, i).value.asked
    ensures Perform(i, s, w).Done? ==> Perform(i, s, w).s.last == s.last
  {
    hide AfterStore;
    hide AfterLoad;
    hide High;
  }

  /** From the end of the head on. */
  lemma MainRuns(code: seq<Insn>, head: seq<Insn>, clean: Code, script: Code, b: Book,
                 progCmds: seq<nat>, mapCmds: seq<nat>, allProgs: nat, s: State, world: World) returns (n: nat)
    requires Program(code, head, clean, script, b, progCmds, mapCmds, allProgs) && Sat(s, MainBook, [])
    requires allProgs <= MAX_USED_PROGS || (b.cmds == [] && s.last == 0)
    ensures Ends(Run(code, At(|head|, s), world, 7, n), b, progCmds, mapCmds)
  {
    hide Compile;
    hide Flow;
    hide Run;
    hide Sat;
    hide Holds;
    hide Exec;
    hide HeadOk;
    hide HeadShape;
    hide Loaded;
    hide GaveUp;
    hide FinalBook;
    SatSane(s, MainBook, []);
    NoCommands(code, head, clean, script, b, progCmds, mapCmds, allProgs);
    ProgramHolds(code, head, clean, script, b, progCmds, mapCmds, allProgs);
    FlowSound(script, MainBook, s, world, 7, []);
    var o := Exec(script, s, world, 7);
    n := BlockRuns(script, code, |head|, s, world, 7);
    if o.kind.Next? {
      MainEnds(o.s, b, progCmds, mapCmds);
    } else if o.kind.Error? {
      if allProgs > MAX_USED_PROGS {
        QuietLast(script, MainBook, s, world, 7);
      }
      SeenClosable(b, progCmds, mapCmds, allProgs);
      CleanHolds(code, head, clean, script, b, progCmds, mapCmds, allProgs);
      assert [] + b.cmds == b.cmds;
      var k := CleanRuns(head, clean, allProgs, |mapCmds|, code, o.s, b, world, o.t);
      RunSplit(code, At(|head|, s), world, 7, n, k);
      n := n + k;
    }
  }

  /** A program that issues no command loads nothing and asks nothing. */
  lemma NoCommands(code: seq<Insn>, head: seq<Insn>, clean: Code, script: Code, b: Book,
                   progCmds: seq<nat>, mapCmds: seq<nat>, allProgs: nat)
    requires Program(code, head, clean, script, b, progCmds, mapCmds, allProgs)
    ensures b.cmds == [] ==> progCmds == [] && mapCmds == [] && !b.asked
  {
    hide Compile;
    hide Flow;
    hide HeadOk;
    hide HeadShape;
    hide IssuedAs;
    IssuedSome(b.cmds, progCmds, BPF_PROG_LOAD);
    IssuedSome(b.cmds, mapCmds, BPF_MAP_CREATE);
  }

  lemma IssuedSome(cmds: seq<int>, at: seq<nat>, cmd: int)
    ensures IssuedAs(cmds, at, cmd) && at != [] ==> cmds != []
  {
    if IssuedAs(cmds, at, cmd) && at != [] {
      assert at[0] < |cmds|;
    }
  }

  /** Every run of a finished loader for at most 32 programs, whatever the outside world
      answers, comes to its end without a wrong access or a jump astray: it has loaded
      everything, or it has cleaned up and returns the error.  So does one for more, if it
      has nothing to do and its head is within the reach of a jump. */
  lemma LoaderRuns(code: seq<Insn>, head: seq<Insn>, clean: Code, script: Code, b: Book,
                   progCmds: seq<nat>, mapCmds: seq<nat>, allProgs: nat, s: State, world: World) returns (n: nat)
    requires Program(code, head, clean, script, b, progCmds, mapCmds, allProgs) && Begins(s)
    requires allProgs <= MAX_USED_PROGS || (b.cmds == [] && |head| - 7 < 0x8000)
    ensures Ends(Run(code, At(0, s), world, 0, n), b, progCmds, mapCmds)
  {
    hide Compile;
    hide Flow;
    hide Run;
    hide Sat;
    hide Holds;
    hide Exec;
    hide Cleared;
    hide HeadOk;
    hide Ends;
    hide FinalBook;
    hide Prologue;
    hide CleanSlots;
    Enters(code, head, clean, script, b, progCmds, mapCmds, allProgs, s, world);
    var s' := Cleared(s, world(5));
    ClearedLast(s, world(5));
    var m := MainRuns(code, head, clean, script, b, progCmds, mapCmds, allProgs, s', world);
    RunSplit(code, At(0, s), world, 0, 7, m);
    n := 7 + m;
  }

  lemma ClearedLast(s: State, w: nat -> int)
    requires Begins(s)
    ensures Cleared(s, w).last == 0
  {
  }

  /** If any command fails, the run ends with everything closed, and the error is returned. */
  lemma FailureCleansUp(code: seq<Insn>, head: seq<Insn>, clean: Code, script: Code, b: Book,
                        progCmds: seq<nat>, mapCmds: seq<nat>, allProgs: nat, s: State, world: World) returns (n: nat)
    requires Program(code, head, clean, script, b, progCmds, mapCmds, allProgs) && Begins(s) && allProgs <= MAX_USED_PROGS
    ensures var c := Run(code, At(0, s), world, 0, n);
            && (c.Absurd? || c.Halted?)
            && (c.Halted? && c.s.failed ==> Sane(c.s) && c.s.open == {} && c.s.regs[0] == Num(c.s.last) && c.s.last < 0)
  {
    hide Run;
    hide Program;
    n := LoaderRuns(code, head, clean, script, b, progCmds, mapCmds, allProgs, s, world);
  }
}
