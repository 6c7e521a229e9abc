/** Loaders for more programs than their stack frame has room for: nothing keeps the
    generator from emitting them.  When they go wrong, exactly. */
module LoaderLimit {
  import opened Ebpf
  import opened FdFlow
  import opened LoaderGen
  import opened LoaderRun

  // ------------------------------------------------------------------
  // Runs that go wrong
  // ------------------------------------------------------------------

  lemma {:induction false} StopsForGood(code: seq<Insn>, c: Conf, world: World, t: nat, n: nat)
    requires !c.At?
    ensures Run(code, c, world, t, n) == c
    decreases n
  {
    if n > 0 {
      StopsForGood(code, c, world, t + 1, n - 1);
    }
  }

  /** A run that goes wrong has not ended before, and does not end later. */
  lemma BadForever(code: seq<Insn>, c: Conf, world: World, t: nat, n: nat, m: nat)
    requires Run(code, c, world, t, n) == Bad
    ensures var d := Run(code, c, world, t, m); d.At? || d == Bad
  {
    hide Run;
    if m <= n {
      var d := Run(code, c, world, t, m);
      RunSplit(code, c, world, t, m, n - m);
      if !d.At? {
        StopsForGood(code, d, world, t + m, n - m);
      }
    } else {
      RunSplit(code, c, world, t, n, m - n);
      StopsForGood(code, Bad, world, t + n, m - n);
    }
  }

  /** From some state and for some answers of the outside world, a run has an end. */
  ghost predicate EndsFrom(code: seq<Insn>, s: State, world: World, b: Book, progCmds: seq<nat>, mapCmds: seq<nat>) {
    exists n: nat :: Ends(Run(code, At(0, s), world, 0, n), b, progCmds, mapCmds)
  }

  /** Every run has an end. */
  ghost predicate AlwaysEnds(code: seq<Insn>, b: Book, progCmds: seq<nat>, mapCmds: seq<nat>) {
    forall s: State, world: World :: Begins(s) ==> EndsFrom(code, s, world, b, progCmds, mapCmds)
  }

  lemma BadNeverEnds(code: seq<Insn>, s: State, world: World, n: nat, b: Book, progCmds: seq<nat>, mapCmds: seq<nat>)
    requires Run(code, At(0, s), world, 0, n) == Bad
    ensures !EndsFrom(code, s, world, b, progCmds, mapCmds)
  {
    hide Run;
    forall m: nat ensures !Ends(Run(code, At(0, s), world, 0, m), b, progCmds, mapCmds) {
      BadForever(code, At(0, s), world, 0, n, m);
    }
  }

  // ------------------------------------------------------------------
  // The clean-up code beyond the stack frame
  // ------------------------------------------------------------------

  lemma {:induction false} CleanSlotsAt(n: nat, k: nat)
    requires k < n
    ensures CleanSlots(n)[3 * k..3 * k + 3] == CleanSlot(k)
    decreases n
  {
    hide CleanSlot;
    if k < n - 1 {
      CleanSlotsAt(n - 1, k);
      assert CleanSlots(n)[3 * k..3 * k + 3] == CleanSlots(n - 1)[3 * k..3 * k + 3];
    }
  }

  lemma CleanSlotCode(code: seq<Insn>, n: nat, k: nat)
    requires Holds(code, 7, CleanSlots(n)) && k < n
    ensures 7 + 3 * k + 2 < |code|
    ensures code[7 + 3 * k] == Ldx(4, 1, 10, S16(-STACK_SZ + 4 * k))
    ensures code[7 + 3 * k + 1] == Jmp(Jsle, 1, 0, 1) && code[7 + 3 * k + 2] == Call(SysClose)
  {
    hide S16;
    CleanSlotsAt(n, k);
    var c := CleanSlots(n);
    hide CleanSlots;
    var p := c[3 * k..3 * k + 3];
    assert p[0] == c[3 * k] && p[1] == c[3 * k + 1] && p[2] == c[3 * k + 2];
    assert code[7 + 3 * k] == c[3 * k] && code[7 + (3 * k + 1)] == c[3 * k + 1] && code[7 + (3 * k + 2)] == c[3 * k + 2];
  }

  /** The clean-up code may read word k of the stack frame. */
  predicate MayRead(k: nat) { Readable(Stack(S16(-STACK_SZ + 4 * k)), 4) }

  lemma LoadWord(code: seq<Insn>, n: nat, k: nat, s: State, w: nat -> int)
    requires Holds(code, 7, CleanSlots(n)) && k < n && Sane(s) && s.regs[10] == Stack(0)
    ensures var c := Step(code, At(7 + 3 * k, s), w);
            if MayRead(k) then c.At? && c.pc == 7 + 3 * k + 1 && Sane(c.s) && c.s.regs[10] == Stack(0) && c.s.regs[1].Num?
            else c == Bad
  {
    CleanSlotCode(code, n, k);
    hide S16;
    hide Holds;
    hide CleanSlots;
  }

  /** From behind a load, one or two steps lead to the next word. */
  lemma CloseWord(code: seq<Insn>, n: nat, k: nat, s: State, world: World, t: nat) returns (m: nat, s': State)
    requires Holds(code, 7, CleanSlots(n)) && k < n && Sane(s) && s.regs[10] == Stack(0) && s.regs[1].Num?
    ensures Run(code, At(7 + 3 * k + 1, s), world, t, m) == At(7 + 3 * (k + 1), s') && Sane(s') && s'.regs[10] == Stack(0)
  {
    CleanSlotCode(code, n, k);
    hide Holds;
    hide CleanSlots;
    if Taken(Jsle, s.regs[1], 0, world(t)) {
      m, s' := 1, s;
      OneStep(code, At(7 + 3 * k + 1, s), world, t);
    } else {
      s' := CloseStep(code, k, s, world(t + 1));
      m := 2;
      OneStep(code, At(7 + 3 * k + 1, s), world, t);
      OneStep(code, At(7 + 3 * k + 2, s), world, t + 1);
      RunSplit(code, At(7 + 3 * k + 1, s), world, t, 1, 1);
    }
  }

  lemma CloseStep(code: seq<Insn>, k: nat, s: State, w: nat -> int) returns (s': State)
    requires 7 + 3 * k + 2 < |code| && code[7 + 3 * k + 2] == Call(SysClose)
    requires Sane(s) && s.regs[10] == Stack(0) && s.regs[1].Num?
    ensures Step(code, At(7 + 3 * k + 2, s), w) == At(7 + 3 * (k + 1), s') && Sane(s') && s'.regs[10] == Stack(0)
  {
    s' := Perform(Call(SysClose), s, w).s;
  }

  lemma OneStep(code: seq<Insn>, c: Conf, world: World, t: nat)
    ensures Run(code, c, world, t, 1) == Step(code, c, world(t))
  {
    hide Step;
    assert Run(code, c, world, t, 1) == Run(code, Step(code, c, world(t)), world, t + 1, 0);
  }

  /** The clean-up code goes wrong at the next word that it may not read. */
  lemma {:induction false} CleanGoesBad(code: seq<Insn>, n: nat, k: nat, last: nat, s: State, world: World, t: nat)
    returns (m: nat)
    requires Holds(code, 7, CleanSlots(n)) && k <= last < n && !MayRead(last)
    requires Sane(s) && s.regs[10] == Stack(0)
    ensures Run(code, At(7 + 3 * k, s), world, t, m) == Bad
    decreases last - k
  {
    hide Holds;
    hide CleanSlots;
    hide MayRead;
    hide Run;
    LoadWord(code, n, k, s, world(t));
    OneStep(code, At(7 + 3 * k, s), world, t);
    if !MayRead(k) {
      return 1;
    }
    var c := Step(code, At(7 + 3 * k, s), world(t));
    hide Step;
    var m1, s1 := CloseWord(code, n, k, c.s, world, t + 1);
    var m2 := CleanGoesBad(code, n, k + 1, last, s1, world, t + 1 + m1);
    RunSplit(code, At(7 + 3 * k + 1, c.s), world, t + 1, m1, m2);
    RunSplit(code, At(7 + 3 * k, s), world, t, 1, m1 + m2);
    m := 1 + (m1 + m2);
  }

  // ------------------------------------------------------------------
  // An outside world that refuses everything
  // ------------------------------------------------------------------

  const Refusing: World := t => (j => -1)

  predicate Refused(s: State) { forall r :: r in s.results ==> r == -1 }

  lemma RefusedPerform(i: Plain, s: State, t: nat)
    requires Sane(s) && Refused(s)
    ensures var e := Perform(i, s, Refusing(t)); !e.Impossible? && (e.Done? ==> Refused(e.s))
  {
  }

  lemma {:induction false} RefusedExec(c: Code, s: State, t: nat)
    requires Sane(s) && Refused(s)
    ensures var o := Exec(c, s, Refusing, t); !o.kind.NoRun? && Refused(o.s)
    decreases c
  {
    hide Refused;
    match c
    case Empty =>
    case Op(i) =>
      RefusedPerform(i, s, t);
      hide Perform;
    case Wide(d, blob) => RefusedSame(s, Set(s, d, Blob(blob)));
    case Check =>
    case Then(x, y) =>
      RefusedExec(x, s, t);
      var o := Exec(x, s, Refusing, t);
      RefusedExec(y, o.s, o.t);
    case Skip(op, r, imm, body) => RefusedExec(body, s, t + 1);
    case Either(op, r, imm, els, thn) =>
      RefusedExec(els, s, t + 1);
      RefusedExec(thn, s, t + 1);
    case Diamond(op, r, imm, els, thn, tail) =>
      RefusedExec(els, s, t + 1);
      RefusedExec(thn, s, t + 1);
      var o := Jumped(Exec(els, s, Refusing, t + 1));
      RefusedExec(tail, o.s, o.t);
  }

  lemma RefusedSame(s: State, s': State)
    requires Refused(s) && s'.results == s.results
    ensures Refused(s')
  {
  }

  /** A script at whose end no command has failed does not come to its end. */
  lemma RefusedFails(c: Code, s: State, t: nat, b: Book)
    requires Sat(s, MainBook, []) && s.results == [] && Flow(c, MainBook) == Some(b) && b.checked && b.cmds != []
    ensures Sane(s) && var o := Exec(c, s, Refusing, t); o.kind.Error? && o.s.regs[10] == Stack(0)
  {
    hide Flow;
    hide Exec;
    RefusedExec(c, s, t);
    FlowSound(c, MainBook, s, Refusing, t, []);
    var o := Exec(c, s, Refusing, t);
    if o.kind.Next? {
      AllAnswered(o.s, b);
    }
  }

  lemma AllAnswered(s: State, b: Book)
    requires Sat(s, b, []) && b.checked && b.cmds != []
    ensures !Refused(s)
  {
    assert s.results[0] >= 0;
    assert s.results[0] in s.results;
  }

  /** If everything is refused, a program that issues a command gets to its clean-up code. */
  lemma GetsToCleanup(code: seq<Insn>, head: seq<Insn>, clean: Code, script: Code, b: Book,
                      progCmds: seq<nat>, mapCmds: seq<nat>, allProgs: nat, s: State) returns (n: nat, s': State)
    requires Program(code, head, clean, script, b, progCmds, mapCmds, allProgs) && Begins(s) && b.cmds != []
    ensures Run(code, At(0, s), Refusing, 0, n) == At(7, s') && Sane(s') && s'.regs[10] == Stack(0)
  {
    hide Compile;
    hide Flow;
    hide Run;
    hide Sat;
    hide Holds;
    hide Exec;
    hide Cleared;
    hide HeadOk;
    hide HeadShape;
    Enters(code, head, clean, script, b, progCmds, mapCmds, allProgs, s, Refusing);
    ProgramHolds(code, head, clean, script, b, progCmds, mapCmds, allProgs);
    ClearedResults(s, Refusing(5));
    var s1 := Cleared(s, Refusing(5));
    RefusedFails(script, s1, 7, b);
    CompileCorrect(script, code, |head|, 7, s1, Refusing, 7);
    var o := Exec(script, s1, Refusing, 7);
    RunSplit(code, At(0, s), Refusing, 0, 7, o.t - 7);
    n, s' := o.t, o.s;
  }

  lemma ClearedResults(s: State, w: nat -> int)
    requires Begins(s)
    ensures Cleared(s, w).results == []
  {
  }

  // ------------------------------------------------------------------
  // A head that is out of the reach of the first jump
  // ------------------------------------------------------------------

  /** In the first seven instructions, or gone wrong. */
  predicate Circling(c: Conf) { c == Bad || (c.At? && 0 <= c.pc < 7) }

  lemma CirclingStep(code: seq<Insn>, n: int, c: Conf, w: nat -> int)
    requires Holds(code, 0, Prologue(n)) && 0 <= 7 + n < 7 && Circling(c)
    ensures Circling(Step(code, c, w))
  {
    PrologueCode(code, n);
    hide Prologue;
    hide Holds;
  }

  lemma {:induction false} CirclesForever(code: seq<Insn>, n: int, c: Conf, world: World, t: nat, m: nat)
    requires Holds(code, 0, Prologue(n)) && 0 <= 7 + n < 7 && Circling(c)
    ensures Circling(Run(code, c, world, t, m))
    decreases m
  {
    if m > 0 {
      CirclingStep(code, n, c, world(t));
      hide Step;
      hide Prologue;
      hide Holds;
      CirclesForever(code, n, Step(code, c, world(t)), world, t + 1, m - 1);
    }
  }

  /** At least every 129th word may not be read. */
  lemma UnreadableWord(k: nat) returns (last: nat)
    ensures k <= last <= k + 128 && !MayRead(last)
  {
    var off := S16(-STACK_SZ + 4 * k);
    if !MayRead(k) {
      return k;
    }
    last := k - off / 4;
  }

  /** A jump into the clean-up code goes wrong. */
  lemma AstrayGoesBad(code: seq<Insn>, n: nat, at: nat, s: State, world: World, t: nat) returns (m: nat)
    requires Holds(code, 7, CleanSlots(n)) && at / 3 + 130 < n
    requires Sane(s) && s.regs[10] == Stack(0) && s.regs[1].Num?
    ensures Run(code, At(7 + at, s), world, t, m) == Bad
  {
    hide Holds;
    hide CleanSlots;
    hide MayRead;
    var k := at / 3;
    if at % 3 == 0 {
      var last := UnreadableWord(k);
      m := CleanGoesBad(code, n, k, last, s, world, t);
    } else {
      var m1, s1 := OnToNext(code, n, k, at, s, world, t);
      var last := UnreadableWord(k + 1);
      var m2 := CleanGoesBad(code, n, k + 1, last, s1, world, t + m1);
      RunSplit(code, At(7 + at, s), world, t, m1, m2);
      m := m1 + m2;
    }
  }

  lemma OnToNext(code: seq<Insn>, n: nat, k: nat, at: nat, s: State, world: World, t: nat) returns (m: nat, s': State)
    requires Holds(code, 7, CleanSlots(n)) && k < n && (at == 3 * k + 1 || at == 3 * k + 2)
    requires Sane(s) && s.regs[10] == Stack(0) && s.regs[1].Num?
    ensures Run(code, At(7 + at, s), world, t, m) == At(7 + 3 * (k + 1), s') && Sane(s') && s'.regs[10] == Stack(0)
  {
    if at == 3 * k + 1 {
      m, s' := CloseWord(code, n, k, s, world, t);
    } else {
      CleanSlotCode(code, n, k);
      hide Holds;
      hide CleanSlots;
      s' := CloseStep(code, k, s, world(t));
      m := 1;
      OneStep(code, At(7 + at, s), world, t);
    }
  }

  lemma ClearedNum(s: State, w: nat -> int)
    requires Begins(s)
    ensures var s' := Cleared(s, w); s'.regs[1].Num? && s'.regs[10] == Stack(0)
  {
  }

  /** If the head does not fit a 16-bit offset, no run has an end. */
  lemma JumpAstray(code: seq<Insn>, head: seq<Insn>, clean: Code, script: Code, b: Book,
                   progCmds: seq<nat>, mapCmds: seq<nat>, allProgs: nat, s: State, world: World)
    requires Program(code, head, clean, script, b, progCmds, mapCmds, allProgs) && Begins(s)
    requires |head| - 7 >= 0x8000
    ensures !EndsFrom(code, s, world, b, progCmds, mapCmds)
  {
    hide Compile;
    hide Flow;
    hide Holds;
    hide Run;
    hide Cleared;
    hide Prologue;
    hide CleanSlots;
    hide HeadOk;
    hide FinalBook;
    NoCommands(code, head, clean, script, b, progCmds, mapCmds, allProgs);
    ProgramHolds(code, head, clean, script, b, progCmds, mapCmds, allProgs);
    var size := |head| - 7;
    assert size == 3 * (2 + allProgs) + 2;
    var off := S16(size);
    PrologueRuns(code, off, s, world);
    ClearedNum(s, world(5));
    var s1 := Cleared(s, world(5));
    AstrayFrom(code, 2 + allProgs, size, off, s, s1, world, b, progCmds, mapCmds);
  }

  lemma AstrayFrom(code: seq<Insn>, n: nat, size: nat, off: int, s: State, s1: State, world: World,
                   b: Book, progCmds: seq<nat>, mapCmds: seq<nat>)
    requires Holds(code, 0, Prologue(off)) && Holds(code, 7, CleanSlots(n)) && size == 3 * n + 2 >= 0x8000 && off == S16(size)
    requires Begins(s) && Sane(s1) && s1.regs[1].Num? && s1.regs[10] == Stack(0)
    requires Run(code, At(0, s), world, 0, 7) == At(7 + off, s1)
    ensures !EndsFrom(code, s, world, b, progCmds, mapCmds)
  {
    hide Holds;
    hide Run;
    hide Prologue;
    hide CleanSlots;
    if -7 <= off < 0 {
      forall m: nat ensures !Ends(Run(code, At(0, s), world, 0, m), b, progCmds, mapCmds) {
        CirclesForever(code, off, At(0, s), world, 0, m);
      }
    } else {
      var m := 1;
      if off < -7 {
        OneStep(code, At(7 + off, s1), world, 7);
      } else {
        assert off <= size - 0x1_0000;
        m := AstrayGoesBad(code, n, off, s1, world, 7);
      }
      RunSplit(code, At(0, s), world, 0, 7, m);
      BadNeverEnds(code, s, world, 7 + m, b, progCmds, mapCmds);
    }
  }

  // ------------------------------------------------------------------
  // When every run has an end
  // ------------------------------------------------------------------

  lemma FirstBeyond()
    ensures !MayRead(NR_STACK)
  {
  }

  /** For more than 32 declared programs, a command that is refused is not cleaned up after. */
  lemma RefusedGoesBad(code: seq<Insn>, head: seq<Insn>, clean: Code, script: Code, b: Book,
                       progCmds: seq<nat>, mapCmds: seq<nat>, allProgs: nat, s: State) returns (n: nat)
    requires Program(code, head, clean, script, b, progCmds, mapCmds, allProgs) && Begins(s)
    requires allProgs > MAX_USED_PROGS && b.cmds != []
    ensures Run(code, At(0, s), Refusing, 0, n) == Bad
  {
    hide Program;
    hide Holds;
    hide Run;
    hide CleanSlots;
    hide Prologue;
    hide MayRead;
    ProgramHolds(code, head, clean, script, b, progCmds, mapCmds, allProgs);
    var m, s' := GetsToCleanup(code, head, clean, script, b, progCmds, mapCmds, allProgs, s);
    FirstBeyond();
    var k := CleanGoesBad(code, 2 + allProgs, 0, NR_STACK, s', Refusing, m);
    RunSplit(code, At(0, s), Refusing, 0, m, k);
    n := m + k;
  }

  const Fresh: State :=
    State([Num(0), Ctx(0), Num(0), Num(0), Num(0), Num(0), Num(0), Num(0), Num(0), Num(0), Stack(0)],
          seq(NR_SLOTS, _ => 0), {}, map[], [], [], 0, false)

  lemma FreshBegins()
    ensures Begins(Fresh)
  {
  }

  /** Every run of a finished program has an end if and only if it was made for at most 32
      programs, or issues no command and is within the reach of its first jump. */
  lemma EndsExactly(code: seq<Insn>, head: seq<Insn>, clean: Code, script: Code, b: Book,
                    progCmds: seq<nat>, mapCmds: seq<nat>, allProgs: nat)
    requires Program(code, head, clean, script, b, progCmds, mapCmds, allProgs)
    ensures AlwaysEnds(code, b, progCmds, mapCmds)
            <==> allProgs <= MAX_USED_PROGS || (b.cmds == [] && |head| - 7 < 0x8000)
  {
    hide Program;
    hide Ends;
    hide Begins;
    hide Run;
    if allProgs <= MAX_USED_PROGS || (b.cmds == [] && |head| - 7 < 0x8000) {
      forall s: State, world: World | Begins(s) ensures EndsFrom(code, s, world, b, progCmds, mapCmds) {
        var n := LoaderRuns(code, head, clean, script, b, progCmds, mapCmds, allProgs, s, world);
      }
    } else {
      FreshBegins();
      hide EndsFrom;
      if b.cmds == [] {
        JumpAstray(code, head, clean, script, b, progCmds, mapCmds, allProgs, Fresh, Refusing);
      } else {
        var n := RefusedGoesBad(code, head, clean, script, b, progCmds, mapCmds, allProgs, Fresh);
        BadNeverEnds(code, Fresh, Refusing, n, b, progCmds, mapCmds);
      }
      assert !EndsFrom(code, Fresh, Refusing, b, progCmds, mapCmds);
    }
  }

  // ------------------------------------------------------------------
  // More programs than there is room for
  // ------------------------------------------------------------------

  /** R7 is to be stored where the stack frame ends. */
  lemma StoreIsWrong(code: seq<Insn>, pc: nat, s: State, w: nat -> int)
    requires pc < |code| && code[pc] == STORE_BEYOND && Sane(s) && s.regs[10] == Stack(0)
    ensures Step(code, At(pc, s), w) == Bad
  {
  }

  lemma SatTop(s: State, b: Book)
    requires Sat(s, b, []) && Fixed(b)
    ensures s.regs[10] == Stack(0)
  {
    assert Fact(s, 10, b.known[10]);
  }

  /** How the script of such a program goes on: into the store, or to the clean-up code. */
  lemma ScriptGoesBad(code: seq<Insn>, head: seq<Insn>, clean: Code, script: Code, b: Book,
                      progCmds: seq<nat>, mapCmds: seq<nat>, allProgs: nat, s: State, world: World) returns (n: nat)
    requires Program(code, head, clean, script, b, progCmds, mapCmds, allProgs) && Sat(s, MainBook, [])
    requires |progCmds| > MAX_USED_PROGS
    ensures Sane(s)
    ensures var o, c := Exec(script, s, world, 7), Run(code, At(|head|, s), world, 7, n);
            && (o.kind.NoRun? ==> c == Absurd)
            && (!o.kind.NoRun? ==> c == Bad)
            && (o.kind.Next? ==>
                  && n == o.t - 7 + 1 && var pc := |head| + |Compile(script, |head|, 7)|;
                     Run(code, At(|head|, s), world, 7, o.t - 7) == At(pc, o.s) && pc < |code| && code[pc] == STORE_BEYOND)
  {
    hide Compile;
    hide Flow;
    hide Run;
    hide Sat;
    hide Holds;
    hide Exec;
    hide HeadOk;
    hide HeadShape;
    hide Prologue;
    hide CleanSlots;
    hide MayRead;
    SatSane(s, MainBook, []);
    ProgramHolds(code, head, clean, script, b, progCmds, mapCmds, allProgs);
    var x := Compile(script, |head|, 7);
    assert [STORE_BEYOND] == [STORE_BEYOND] + [];
    HoldsSplit(code, |head|, x, [STORE_BEYOND]);
    HoldsFirst(code, |head| + |x|, STORE_BEYOND, []);
    FlowSound(script, MainBook, s, world, 7, []);
    CompileCorrect(script, code, |head|, 7, s, world, 7);
    var o := Exec(script, s, world, 7);
    n := o.t - 7;
    if o.kind.Next? {
      SatTop(o.s, b);
      StoreIsWrong(code, |head| + |x|, o.s, world(o.t));
      hide Step;
      OneStep(code, At(|head| + |x|, o.s), world, o.t);
      RunSplit(code, At(|head|, s), world, 7, n, 1);
      n := n + 1;
    } else if o.kind.Error? {
      FirstBeyond();
      var k := CleanGoesBad(code, 2 + allProgs, 0, NR_STACK, o.s, world, o.t);
      RunSplit(code, At(|head|, s), world, 7, n, k);
      n := n + k;
    }
  }

  /** With more than 32 programs loaded, every run goes wrong, unless the outside world
      gives an answer that it cannot give. */
  lemma ManyGoBad(code: seq<Insn>, head: seq<Insn>, clean: Code, script: Code, b: Book,
                  progCmds: seq<nat>, mapCmds: seq<nat>, allProgs: nat, s: State, world: World) returns (n: nat)
    requires Program(code, head, clean, script, b, progCmds, mapCmds, allProgs) && Begins(s)
    requires |progCmds| > MAX_USED_PROGS
    ensures var c := Run(code, At(0, s), world, 0, n); c == Bad || c == Absurd
  {
    hide Compile;
    hide Flow;
    hide Run;
    hide Sat;
    hide Exec;
    hide HeadOk;
    hide HeadShape;
    hide Cleared;
    Enters(code, head, clean, script, b, progCmds, mapCmds, allProgs, s, world);
    var m := ScriptGoesBad(code, head, clean, script, b, progCmds, mapCmds, allProgs, Cleared(s, world(5)), world);
    RunSplit(code, At(0, s), world, 0, 7, m);
    n := 7 + m;
  }

  // ------------------------------------------------------------------
  // An outside world that grants everything
  // ------------------------------------------------------------------

  /** Every answer is a number that was not given before. */
  const Granting: World := t => (j => t + 1)

  predicate Granted(s: State, t: nat) {
    s.last >= 0 && forall fd :: fd in s.open ==> fd <= t
  }

  function Size(c: Code): nat {
    match c
    case Empty => 0
    case Op(_) => 1
    case Wide(_, _) => 2
    case Then(x, y) => Size(x) + Size(y)
    case Skip(_, _, _, body) => 1 + Size(body)
    case Either(_, _, _, els, thn) => 2 + Size(els) + Size(thn)
    case Diamond(_, _, _, els, thn, tail) => 3 + Size(els) + Size(thn) + Size(tail)
    case Check => 1
  }

  lemma LeafSize(c: Code, pos: int, cleanup: int)
    requires c.Empty? || c.Op? || c.Wide? || c.Check?
    ensures |Compile(c, pos, cleanup)| == Size(c)
  {
  }

  lemma {:induction false} CompileSize(c: Code, pos: int, cleanup: int)
    ensures |Compile(c, pos, cleanup)| == Size(c)
    decreases c
  {
    hide Compile;
    match c
    case Empty => LeafSize(c, pos, cleanup);
    case Op(i) => LeafSize(c, pos, cleanup);
    case Wide(d, blob) => LeafSize(c, pos, cleanup);
    case Check => LeafSize(c, pos, cleanup);
    case Then(x, y) =>
      CompileThen(x, y, pos, cleanup);
      CompileSize(x, pos, cleanup);
      CompileSize(y, pos + Size(x), cleanup);
    case Skip(op, r, imm, body) =>
      CompileSkip(op, r, imm, body, pos, cleanup);
      CompileSize(body, pos + 1, cleanup);
    case Either(op, r, imm, els, thn) =>
      CompileEither(op, r, imm, els, thn, pos, cleanup);
      CompileSize(els, pos + 1, cleanup);
      CompileSize(thn, pos + 2 + Size(els), cleanup);
    case Diamond(op, r, imm, els, thn, tail) =>
      CompileDiamond(op, r, imm, els, thn, tail, pos, cleanup);
      CompileSize(els, pos + 1, cleanup);
      CompileSize(thn, pos + 2 + Size(els), cleanup);
      CompileSize(tail, pos + 3 + Size(els) + Size(thn), cleanup);
  }

  lemma GrantedPerform(i: Plain, s: State, t: nat)
    requires Sane(s) && Granted(s, t) && t + 1 < 0x8000_0000
    ensures var e := Perform(i, s, Granting(t)); !e.Impossible? && (e.Done? ==> Granted(e.s, t + 1))
  {
  }

  lemma GrantedSame(s: State, s': State, t: nat, t': nat)
    requires Granted(s, t) && t <= t' && s'.last == s.last && s'.open == s.open
    ensures Granted(s', t')
  {
  }

  lemma {:induction false} GrantedExec(c: Code, s: State, t: nat)
    requires Sane(s) && Granted(s, t) && t + Size(c) < 0x8000_0000
    ensures var o := Exec(c, s, Granting, t); !o.kind.NoRun? && Granted(o.s, o.t) && o.t <= t + Size(c)
    decreases c
  {
    hide Granted;
    GrantedSame(s, s, t, t + 1);
    match c
    case Empty =>
    case Op(i) =>
      GrantedPerform(i, s, t);
      hide Perform;
    case Wide(d, blob) => GrantedSame(s, Set(s, d, Blob(blob)), t, t + 1);
    case Check =>
    case Then(x, y) =>
      GrantedExec(x, s, t);
      var o := Exec(x, s, Granting, t);
      GrantedExec(y, o.s, o.t);
    case Skip(op, r, imm, body) => GrantedExec(body, s, t + 1);
    case Either(op, r, imm, els, thn) =>
      GrantedExec(els, s, t + 1);
      GrantedExec(thn, s, t + 1);
      GrantedJump(Exec(els, s, Granting, t + 1));
    case Diamond(op, r, imm, els, thn, tail) => GrantedDiamond(c, s, t);
  }

  lemma GrantedJump(o: Outcome)
    requires Granted(o.s, o.t)
    ensures Granted(Jumped(o).s, Jumped(o).t)
  {
  }

  lemma {:induction false} GrantedDiamond(c: Code, s: State, t: nat)
    requires c.Diamond? && Sane(s) && Granted(s, t + 1) && t + Size(c) < 0x8000_0000
    ensures var o := Exec(c, s, Granting, t); !o.kind.NoRun? && Granted(o.s, o.t) && o.t <= t + Size(c)
    decreases c, 0
  {
    hide Granted;
    DiamondExec(c.cond, c.reg, c.imm, c.els, c.thn, c.tail, s, Granting, t);
    hide Exec;
    GrantedExec(c.els, s, t + 1);
    GrantedExec(c.thn, s, t + 1);
    GrantedJump(Exec(c.els, s, Granting, t + 1));
    GrantedJump(Exec(c.thn, s, Granting, t + 1));
    var o := Jumped(Exec(c.els, s, Granting, t + 1));
    if o.kind.Next? {
      GrantedExec(c.tail, o.s, o.t);
    }
  }

  /** The last error is negative, so where none was given the clean-up code is not reached. */
  lemma GrantedNext(c: Code, s: State, t: nat, b: Book)
    requires Sat(s, MainBook, []) && s.last == 0 && s.open == {} && Flow(c, MainBook) == Some(b) && t + Size(c) < 0x8000_0000
    ensures Sane(s) && var o := Exec(c, s, Granting, t); o.kind.Next? && Sat(o.s, b, [])
  {
    hide Flow;
    hide Exec;
    hide Sat;
    SatSane(s, MainBook, []);
    GrantedExec(c, s, t);
    FlowSound(c, MainBook, s, Granting, t, []);
  }

  lemma ClearedOpen(s: State, w: nat -> int)
    requires Begins(s)
    ensures Cleared(s, w).open == {}
  {
  }

  /** If everything is granted, a program that loads more than 32 others issues its commands
      without an error, and then stores a descriptor beyond its stack frame. */
  lemma StoresBeyond(code: seq<Insn>, head: seq<Insn>, clean: Code, script: Code, b: Book,
                     progCmds: seq<nat>, mapCmds: seq<nat>, allProgs: nat, s: State) returns (n: nat, pc: nat, s': State)
    requires Program(code, head, clean, script, b, progCmds, mapCmds, allProgs) && Begins(s)
    requires |progCmds| > MAX_USED_PROGS
    ensures Run(code, At(0, s), Granting, 0, n) == At(pc, s') && pc < |code| && code[pc] == STORE_BEYOND
    ensures s'.cmds == b.cmds && !s'.failed && HoldsAnswer(s')
    ensures Run(code, At(0, s), Granting, 0, n + 1) == Bad
  {
    hide Compile;
    hide Flow;
    hide Run;
    hide Sat;
    hide Exec;
    hide HeadOk;
    hide HeadShape;
    hide Cleared;
    Enters(code, head, clean, script, b, progCmds, mapCmds, allProgs, s, Granting);
    var s1 := Cleared(s, Granting(5));
    ClearedLast(s, Granting(5));
    ClearedOpen(s, Granting(5));
    CompileSize(script, |head|, 7);
    GrantedNext(script, s1, 7, b);
    var m := ScriptGoesBad(code, head, clean, script, b, progCmds, mapCmds, allProgs, s1, Granting);
    var o := Exec(script, s1, Granting, 7);
    n, pc, s' := o.t, |head| + |Compile(script, |head|, 7)|, o.s;
    RunSplit(code, At(0, s), Granting, 0, 7, o.t - 7);
    RunSplit(code, At(0, s), Granting, 0, 7, m);
    StuckFacts(s', b);
  }

  /** R7 has what the last command has answered. */
  predicate HoldsAnswer(s: State) {
    Sane(s) && s.results != [] && s.regs[7] == Num(s.results[|s.results| - 1]) && s.regs[7].n >= 0
  }

  lemma StuckFacts(s: State, b: Book)
    requires Sat(s, b, []) && StuckBook(b)
    ensures s.cmds == b.cmds && !s.failed && HoldsAnswer(s)
  {
  }

  /** Makes a loader for n programs without maps or relocations.  If the generator reports no
      error, all runs of what it has made have an end if and only if n is at most 32. */
  method LoadPrograms(logLevel: int, n: nat, licenseLen: nat, insnCnt: nat, len: nat) returns (g: Gen, err: int, ghost b: Book)
    requires licenseLen < 0xffff_fff8 && insnCnt * INSN_SZ <= 0xffff_fff8 && len <= 0xffff_fff8
    ensures err == 0 ==> |g.progCmds| == n && g.mapCmds == []
    ensures err == 0 ==> (AlwaysEnds(g.code, b, g.progCmds, g.mapCmds) <==> n <= MAX_USED_PROGS)
  {
    hide Program;
    hide AlwaysEnds;
    g := new Gen(logLevel, n, 0);
    for i := 0 to n
      invariant fresh(g) && g.Valid() && g.nrProgs == i && g.nrMaps == 0 && g.progs == n && g.maps == 0
      invariant g.relos == [] && g.coreRelos == 0 && g.attachLen == 0
    {
      g.ProgLoad(licenseLen, insnCnt, 0, 0, len);
    }
    ghost var main: Code;
    err, main, b := g.Finish(n, 0);
    if err == 0 {
      EndsExactly(g.code, g.head, g.clean, main, b, g.progCmds, g.mapCmds, n);
      ManyStuck(g.code, g.head, g.clean, main, b, g.progCmds, g.mapCmds, n);
    }
  }

  lemma ManyStuck(code: seq<Insn>, head: seq<Insn>, clean: Code, script: Code, b: Book,
                  progCmds: seq<nat>, mapCmds: seq<nat>, allProgs: nat)
    requires Program(code, head, clean, script, b, progCmds, mapCmds, allProgs)
    ensures |progCmds| > MAX_USED_PROGS ==> b.cmds != []
  {
    hide Compile;
    hide Flow;
    hide HeadOk;
    hide HeadShape;
  }
}
