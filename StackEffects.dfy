/**
 * What the emitted sequences do when the Hack machine runs them: the stack
 * effects the VM language (chapter 7 of "The Elements of Computing Systems")
 * gives each command, in terms of the stack pointer `SP` = RAM[0] and the
 * cells just below it. Every lemma assumes that the sequence is placed in the
 * ROM at the program counter, that the assembler's symbol table has the
 * predefined symbols, and that the stack lies above the sixteen registers
 * R0-R15 (the VM places it at RAM[256] onwards).
 */
module StackEffects {
  import opened Text
  import opened Hack
  import opened Emission

  /** The stack lies above R15 and holds at least `n` cells. */
  predicate StackAbove(m: Machine, n: nat) {
    15 + n < Sp(m)
  }

  /** The VM's boolean values: true is -1 (all bits set), false is 0. */
  function Truth(b: bool): Word {
    if b then 0xFFFF else 0
  }

  /** The VM meaning of the binary operators on `x` (second from top) and
      `y` (top). */
  function VmBinary(op: string, x: Word, y: Word): Word {
    if op == "add" then Add(x, y)
    else if op == "sub" then Sub(x, y)
    else if op == "and" then BitAnd(x, y)
    else BitOr(x, y)
  }

  /** The VM meaning of the unary operators on the top `y`. */
  function VmUnary(op: string, y: Word): Word {
    if op == "neg" then Sub(0, y) else BitNot(y)
  }

  /** The VM meaning of the comparisons, on signed values. */
  predicate VmCompare(op: string, x: int, y: int) {
    if op == "eq" then x == y else if op == "lt" then x < y else x > y
  }

  // ---------------------------------------------------------------------
  // pushD and pop15

  /** `pushD`: D is stored at RAM[SP] and SP grows by one. */
  lemma PushDEffect(rom: seq<Instr>, sym: map<string, Word>, m: Machine)
    requires Placed(rom, m.pc, PushDCode()) && StandardSymbols(sym) && StackAbove(m, 0)
    ensures var r := Run(rom, sym, m, |PushDCode()|);
      && r.pc == m.pc + |PushDCode()| && r.d == m.d
      && r.ram == m.ram[Sp(m) := m.d][0 := Add(Sp(m), 1)]
  {
    var c, p, sp := PushDCode(), m.pc, Sp(m);
    StepAt(rom, sym, m, p, c, 0);
    var m1 := Step(rom, sym, m);
    assert m1 == m.(a := 0, pc := p + 1);
    StepAt(rom, sym, m1, p, c, 1);
    var m2 := Step(rom, sym, m1);
    assert m2 == m1.(a := sp, pc := p + 2);
    StepAt(rom, sym, m2, p, c, 2);
    var m3 := Step(rom, sym, m2);
    assert m3 == m2.(ram := m.ram[sp := m.d], pc := p + 3);
    StepAt(rom, sym, m3, p, c, 3);
    var m4 := Step(rom, sym, m3);
    assert m4 == m3.(a := 0, pc := p + 4);
    StepAt(rom, sym, m4, p, c, 4);
    var m5 := Step(rom, sym, m4);
    assert m5 == m4.(ram := m3.ram[0 := Add(sp, 1)], pc := p + 5);
    assert Run(rom, sym, m, 5) == Run(rom, sym, m1, 4) == Run(rom, sym, m2, 3);
    assert Run(rom, sym, m2, 3) == Run(rom, sym, m3, 2) == Run(rom, sym, m4, 1) == m5;
  }

  /** `pop15`: SP shrinks by one and the old top is stored at the address
      R15 holds. */
  lemma Pop15Effect(rom: seq<Instr>, sym: map<string, Word>, m: Machine)
    requires Placed(rom, m.pc, Pop15Code()) && StandardSymbols(sym) && StackAbove(m, 1)
    ensures var r := Run(rom, sym, m, |Pop15Code()|);
      && r.pc == m.pc + |Pop15Code()|
      && r.ram == m.ram[0 := Sp(m) - 1][m.ram[15] := m.ram[Sp(m) - 1]]
  {
    var c, p, sp := Pop15Code(), m.pc, Sp(m);
    var ram1 := m.ram[0 := sp - 1];
    StepAt(rom, sym, m, p, c, 0);
    var m1 := Step(rom, sym, m);
    assert m1 == m.(a := 0, pc := p + 1);
    StepAt(rom, sym, m1, p, c, 1);
    var m2 := Step(rom, sym, m1);
    assert m2 == m1.(ram := ram1, pc := p + 2);
    StepAt(rom, sym, m2, p, c, 2);
    var m3 := Step(rom, sym, m2);
    assert m3 == m2.(a := sp - 1, pc := p + 3);
    StepAt(rom, sym, m3, p, c, 3);
    var m4 := Step(rom, sym, m3);
    assert m4 == m3.(d := m.ram[sp - 1], pc := p + 4);
    StepAt(rom, sym, m4, p, c, 4);
    var m5 := Step(rom, sym, m4);
    ResolveSymbol("R15", sym);
    assert m5 == m4.(a := 15, pc := p + 5);
    StepAt(rom, sym, m5, p, c, 5);
    var m6 := Step(rom, sym, m5);
    assert m6 == m5.(a := m.ram[15], pc := p + 6);
    StepAt(rom, sym, m6, p, c, 6);
    var m7 := Step(rom, sym, m6);
    assert m7 == m6.(ram := ram1[m.ram[15] := m.ram[sp - 1]], pc := p + 7);
    assert Run(rom, sym, m, 7) == Run(rom, sym, m1, 6) == Run(rom, sym, m2, 5) == Run(rom, sym, m3, 4);
    assert Run(rom, sym, m3, 4) == Run(rom, sym, m4, 3) == Run(rom, sym, m5, 2) == Run(rom, sym, m6, 1) == m7;
  }

  // ---------------------------------------------------------------------
  // Arithmetic and logical commands

  /** The five cycles that open a binary operation and a comparison: SP
      drops by one, D holds the old top `y`, and A addresses the cell below it,
      which holds `x`. */
  lemma FetchOperands(rom: seq<Instr>, sym: map<string, Word>, m: Machine, c: seq<Instr>)
    requires Placed(rom, m.pc, c) && StandardSymbols(sym) && StackAbove(m, 2)
    requires |c| >= 5 && c[0] == At("SP") && c[1] == Set(DestM, MMinusOne) && c[2] == Set(DestA, RegM)
    requires c[3] == Set(DestD, RegM) && c[4] == Set(DestA, AMinusOne)
    ensures Run(rom, sym, m, 5) ==
      m.(a := Sp(m) - 2, d := m.ram[Sp(m) - 1], ram := m.ram[0 := Sp(m) - 1], pc := m.pc + 5)
  {
    var p, sp := m.pc, Sp(m);
    var ram1 := m.ram[0 := sp - 1];
    StepAt(rom, sym, m, p, c, 0);
    var m1 := Step(rom, sym, m);
    assert m1 == m.(a := 0, pc := p + 1);
    StepAt(rom, sym, m1, p, c, 1);
    var m2 := Step(rom, sym, m1);
    assert m2 == m1.(ram := ram1, pc := p + 2);
    StepAt(rom, sym, m2, p, c, 2);
    var m3 := Step(rom, sym, m2);
    assert m3 == m2.(a := sp - 1, pc := p + 3);
    StepAt(rom, sym, m3, p, c, 3);
    var m4 := Step(rom, sym, m3);
    assert m4 == m3.(d := m.ram[sp - 1], pc := p + 4);
    StepAt(rom, sym, m4, p, c, 4);
    var m5 := Step(rom, sym, m4);
    assert m5 == m4.(a := sp - 2, pc := p + 5);
    assert Run(rom, sym, m, 5) == Run(rom, sym, m1, 4) == Run(rom, sym, m2, 3);
    assert Run(rom, sym, m2, 3) == Run(rom, sym, m3, 2) == Run(rom, sym, m4, 1) == m5;
  }

  /** The Hack computation of each binary operator. */
  function BinaryComp(op: string): Comp {
    if op == "add" then MPlusD else if op == "sub" then MMinusD
    else if op == "and" then MAndD else MOrD
  }

  /** The Hack computation of each unary operator. */
  function UnaryComp(op: string): Comp {
    if op == "neg" then NegM else NotM
  }

  lemma ArithmeticIsBinary(op: string, w: nat)
    requires op == "add" || op == "sub" || op == "and" || op == "or"
    ensures ArithmeticCode(op, w) == BinaryCode(BinaryComp(op))
  {
  }

  lemma ArithmeticIsUnary(op: string, w: nat)
    requires op == "neg" || op == "not"
    ensures ArithmeticCode(op, w) == UnaryCode(UnaryComp(op))
  {
  }

  /** `add`, `sub`, `and`, `or`: the two top cells are replaced by `x op y`. */
  lemma BinaryEffect(rom: seq<Instr>, sym: map<string, Word>, m: Machine, op: string)
    requires op == "add" || op == "sub" || op == "and" || op == "or"
    requires Placed(rom, m.pc, ArithmeticCode(op, m.pc)) && StandardSymbols(sym) && StackAbove(m, 2)
    ensures var r := Run(rom, sym, m, ArithmeticWords(op));
      && r.pc == m.pc + ArithmeticWords(op)
      && r.ram == m.ram[0 := Sp(m) - 1][Sp(m) - 2 := VmBinary(op, m.ram[Sp(m) - 2], m.ram[Sp(m) - 1])]
  {
    ArithmeticIsBinary(op, m.pc);
    BinaryCodeEffect(rom, sym, m, op);
  }

  lemma BinaryCodeEffect(rom: seq<Instr>, sym: map<string, Word>, m: Machine, op: string)
    requires op == "add" || op == "sub" || op == "and" || op == "or"
    requires Placed(rom, m.pc, BinaryCode(BinaryComp(op))) && StandardSymbols(sym) && StackAbove(m, 2)
    ensures var r := Run(rom, sym, m, 6);
      && r.pc == m.pc + 6
      && r.ram == m.ram[0 := Sp(m) - 1][Sp(m) - 2 := VmBinary(op, m.ram[Sp(m) - 2], m.ram[Sp(m) - 1])]
  {
    var p, sp := m.pc, Sp(m);
    var c := BinaryCode(BinaryComp(op));
    FetchOperands(rom, sym, m, c);
    var m5 := Run(rom, sym, m, 5);
    StepAt(rom, sym, m5, p, c, 5);
    BinaryValue(op, m5);
    RunSplit(rom, sym, m, 5, 1, 6);
  }

  lemma BinaryValue(op: string, m: Machine)
    requires op == "add" || op == "sub" || op == "and" || op == "or"
    ensures Eval(BinaryComp(op), m) == VmBinary(op, m.ram[m.a], m.d)
  {
  }

  /** `neg`, `not`: the top cell is replaced by `op y`; SP is unchanged. */
  lemma UnaryEffect(rom: seq<Instr>, sym: map<string, Word>, m: Machine, op: string)
    requires op == "neg" || op == "not"
    requires Placed(rom, m.pc, ArithmeticCode(op, m.pc)) && StandardSymbols(sym) && StackAbove(m, 1)
    ensures var r := Run(rom, sym, m, ArithmeticWords(op));
      && r.pc == m.pc + ArithmeticWords(op)
      && r.ram == m.ram[Sp(m) - 1 := VmUnary(op, m.ram[Sp(m) - 1])]
  {
    ArithmeticIsUnary(op, m.pc);
    UnaryCodeEffect(rom, sym, m, op);
  }

  lemma UnaryCodeEffect(rom: seq<Instr>, sym: map<string, Word>, m: Machine, op: string)
    requires op == "neg" || op == "not"
    requires Placed(rom, m.pc, UnaryCode(UnaryComp(op))) && StandardSymbols(sym) && StackAbove(m, 1)
    ensures var r := Run(rom, sym, m, 4);
      && r.pc == m.pc + 4
      && r.ram == m.ram[Sp(m) - 1 := VmUnary(op, m.ram[Sp(m) - 1])]
  {
    var p, sp := m.pc, Sp(m);
    var c := UnaryCode(UnaryComp(op));
    StepAt(rom, sym, m, p, c, 0);
    var m1 := Step(rom, sym, m);
    assert m1 == m.(a := 0, pc := p + 1);
    StepAt(rom, sym, m1, p, c, 1);
    var m2 := Step(rom, sym, m1);
    assert m2 == m1.(a := sp, pc := p + 2);
    StepAt(rom, sym, m2, p, c, 2);
    var m3 := Step(rom, sym, m2);
    assert m3 == m2.(a := sp - 1, pc := p + 3);
    StepAt(rom, sym, m3, p, c, 3);
    var m4 := Step(rom, sym, m3);
    assert Eval(UnaryComp(op), m3) == VmUnary(op, m.ram[sp - 1]);
    assert Run(rom, sym, m, 4) == Run(rom, sym, m1, 3) == Run(rom, sym, m2, 2) == Run(rom, sym, m3, 1) == m4;
  }

  // ---------------------------------------------------------------------
  // Comparisons

  /** The first eight cycles of a comparison placed at `w`: SP drops by one,
      D holds `x - y` and the conditional jump goes to the true branch at
      `w + 13` exactly when the jump condition holds for `x - y`; otherwise the
      false branch at `w + 8` follows. The lemma is stated for any code with
      the comparison's first eight instructions, whose target `@` loads
      `w + 13`. */
  lemma CompareHead(rom: seq<Instr>, sym: map<string, Word>, m: Machine, j: Jump, c: seq<Instr>)
    requires Placed(rom, m.pc, c) && StandardSymbols(sym) && StackAbove(m, 2)
    requires |c| >= 8 && c[0] == At("SP") && c[1] == Set(DestM, MMinusOne) && c[2] == Set(DestA, RegM)
    requires c[3] == Set(DestD, RegM) && c[4] == Set(DestA, AMinusOne) && c[5] == Set(DestD, MMinusD)
    requires c[6].AInstr? && Resolve(c[6].target, sym) == m.pc + 13 && c[7] == CInstr(NoDest, RegD, j)
    ensures var r := Run(rom, sym, m, 8);
      var v := Sub(m.ram[Sp(m) - 2], m.ram[Sp(m) - 1]);
      && r.ram == m.ram[0 := Sp(m) - 1]
      && r.pc == (if Jumps(j, v) then m.pc + 13 else m.pc + 8)
  {
    var w, sp := m.pc, Sp(m);
    var v := Sub(m.ram[sp - 2], m.ram[sp - 1]);
    FetchOperands(rom, sym, m, c);
    var m5 := Run(rom, sym, m, 5);
    StepAt(rom, sym, m5, w, c, 5);
    assert m5.ram[m5.a] == m.ram[sp - 2] && m5.d == m.ram[sp - 1];
    var m6 := Step(rom, sym, m5);
    assert m6 == m5.(d := v, pc := w + 6);
    StepAt(rom, sym, m6, w, c, 6);
    var m7 := Step(rom, sym, m6);
    assert m7 == m6.(a := w + 13, pc := w + 7);
    StepAt(rom, sym, m7, w, c, 7);
    var m8 := Step(rom, sym, m7);
    assert m8.ram == m.ram[0 := sp - 1];
    assert m8.pc == (if Jumps(j, v) then w + 13 else w + 8);
    assert Run(rom, sym, m5, 3) == Run(rom, sym, m6, 2) == Run(rom, sym, m7, 1) == m8;
    RunSplit(rom, sym, m, 5, 3, 8);
  }

  /** The true branch, the last three instructions of a comparison placed at
      `w`: the cell below SP becomes true (-1), and control reaches `w + 16`. */
  lemma CompareTrue(rom: seq<Instr>, sym: map<string, Word>, m: Machine, w: nat, c: seq<Instr>)
    requires Placed(rom, w, c) && m.pc == w + 13 && StandardSymbols(sym) && StackAbove(m, 1)
    requires |c| == 16 && c[13] == At("SP") && c[14] == Set(DestA, MMinusOne) && c[15] == Set(DestM, MinusOne)
    ensures var r := Run(rom, sym, m, 3);
      r.ram == m.ram[Sp(m) - 1 := Truth(true)] && r.pc == w + 16
  {
    var sp := Sp(m);
    StepAt(rom, sym, m, w, c, 13);
    var m1 := Step(rom, sym, m);
    assert m1 == m.(a := 0, pc := w + 14);
    StepAt(rom, sym, m1, w, c, 14);
    var m2 := Step(rom, sym, m1);
    assert m2 == m1.(a := sp - 1, pc := w + 15);
    StepAt(rom, sym, m2, w, c, 15);
    var m3 := Step(rom, sym, m2);
    assert m3 == m2.(ram := m.ram[sp - 1 := 0xFFFF], pc := w + 16);
    assert Run(rom, sym, m, 3) == Run(rom, sym, m1, 2) == Run(rom, sym, m2, 1) == m3;
  }

  /** The false branch, instructions 8 to 12 of a comparison placed at `w`,
      whose target `@` loads `w + 16`: the cell below SP becomes false (0),
      and the jump at its end reaches `w + 16`. */
  lemma CompareFalse(rom: seq<Instr>, sym: map<string, Word>, m: Machine, w: nat, c: seq<Instr>)
    requires Placed(rom, w, c) && m.pc == w + 8 && StandardSymbols(sym) && StackAbove(m, 1)
    requires |c| == 16 && c[8] == At("SP") && c[9] == Set(DestA, MMinusOne) && c[10] == Set(DestM, Zero)
    requires c[11].AInstr? && Resolve(c[11].target, sym) == w + 16 && c[12] == CInstr(NoDest, Zero, JMP)
    ensures var r := Run(rom, sym, m, 5);
      r.ram == m.ram[Sp(m) - 1 := Truth(false)] && r.pc == w + 16
  {
    var sp := Sp(m);
    StepAt(rom, sym, m, w, c, 8);
    var m1 := Step(rom, sym, m);
    assert m1 == m.(a := 0, pc := w + 9);
    StepAt(rom, sym, m1, w, c, 9);
    var m2 := Step(rom, sym, m1);
    assert m2 == m1.(a := sp - 1, pc := w + 10);
    StepAt(rom, sym, m2, w, c, 10);
    var m3 := Step(rom, sym, m2);
    assert m3 == m2.(ram := m.ram[sp - 1 := 0], pc := w + 11);
    StepAt(rom, sym, m3, w, c, 11);
    var m4 := Step(rom, sym, m3);
    assert m4 == m3.(a := w + 16, pc := w + 12);
    StepAt(rom, sym, m4, w, c, 12);
    var m5 := Step(rom, sym, m4);
    assert m5 == m4.(pc := w + 16);
    assert Run(rom, sym, m, 5) == Run(rom, sym, m1, 4) == Run(rom, sym, m2, 3);
    assert Run(rom, sym, m2, 3) == Run(rom, sym, m3, 2) == Run(rom, sym, m4, 1) == m5;
  }

  /** The instructions of the comparison sequence that the three lemmas
      above rely on, with both targets resolved: the head, ... */
  lemma CompareShapeHead(j: Jump, w: nat, sym: map<string, Word>)
    requires w + 16 < 0x8000
    ensures var c := CompareCode(j, w);
      && |c| == 16 && c[0] == At("SP") && c[1] == Set(DestM, MMinusOne) && c[2] == Set(DestA, RegM)
      && c[3] == Set(DestD, RegM) && c[4] == Set(DestA, AMinusOne) && c[5] == Set(DestD, MMinusD)
      && c[6].AInstr? && Resolve(c[6].target, sym) == w + 13 && c[7] == CInstr(NoDest, RegD, j)
  {
    CompareCodeTargets(j, w);
    ResolveNumeral(w + 13, sym);
  }

  /** ... and the two branches. */
  lemma CompareShapeBranches(j: Jump, w: nat, sym: map<string, Word>)
    requires w + 16 < 0x8000
    ensures var c := CompareCode(j, w);
      && |c| == 16 && c[8] == At("SP") && c[9] == Set(DestA, MMinusOne) && c[10] == Set(DestM, Zero)
      && c[11].AInstr? && Resolve(c[11].target, sym) == w + 16 && c[12] == CInstr(NoDest, Zero, JMP)
      && c[13] == At("SP") && c[14] == Set(DestA, MMinusOne) && c[15] == Set(DestM, MinusOne)
  {
    CompareCodeTargets(j, w);
    ResolveNumeral(w + 16, sym);
  }

  /** A comparison sequence placed at `w` replaces the two top cells by the
      VM boolean for its jump condition on `x - y`, and control always
      reaches `w + 16`, after 11 cycles on the true branch and 13 on the
      false one. */
  lemma CompareCodeEffect(rom: seq<Instr>, sym: map<string, Word>, m: Machine, j: Jump)
    requires Placed(rom, m.pc, CompareCode(j, m.pc)) && m.pc + 16 < 0x8000
    requires StandardSymbols(sym) && StackAbove(m, 2)
    ensures var t := Jumps(j, Sub(m.ram[Sp(m) - 2], m.ram[Sp(m) - 1]));
      var r := Run(rom, sym, m, if t then 11 else 13);
      && r.pc == m.pc + 16
      && r.ram == m.ram[0 := Sp(m) - 1][Sp(m) - 2 := Truth(t)]
  {
    var w, sp := m.pc, Sp(m);
    var c := CompareCode(j, w);
    var t := Jumps(j, Sub(m.ram[sp - 2], m.ram[sp - 1]));
    CompareShapeHead(j, w, sym);
    CompareShapeBranches(j, w, sym);
    CompareHead(rom, sym, m, j, c);
    var m8 := Run(rom, sym, m, 8);
    assert Sp(m8) == sp - 1;
    if t {
      CompareTrue(rom, sym, m8, w, c);
      RunSplit(rom, sym, m, 8, 3, 11);
    } else {
      CompareFalse(rom, sym, m8, w, c);
      RunSplit(rom, sym, m, 8, 5, 13);
    }
  }

  /** `eq`, `lt`, `gt`: the two top cells are replaced by the VM boolean of
      the operator's jump condition on the 16-bit difference `x - y`, and
      control continues right after the sequence. */
  lemma CompareEffect(rom: seq<Instr>, sym: map<string, Word>, m: Machine, op: string)
    requires op == "eq" || op == "lt" || op == "gt"
    requires Placed(rom, m.pc, ArithmeticCode(op, m.pc)) && m.pc + 16 < 0x8000
    requires StandardSymbols(sym) && StackAbove(m, 2)
    ensures var t := Jumps(CompareJump(op), Sub(m.ram[Sp(m) - 2], m.ram[Sp(m) - 1]));
      var r := Run(rom, sym, m, if t then 11 else 13);
      && r.pc == m.pc + ArithmeticWords(op)
      && r.ram == m.ram[0 := Sp(m) - 1][Sp(m) - 2 := Truth(t)]
  {
    ComparisonCode(op, m.pc);
    CompareCodeEffect(rom, sym, m, CompareJump(op));
  }

  /** The difference of two words read as signed numbers, when it does not
      overflow. */
  lemma SignedSub(x: Word, y: Word)
    requires -0x8000 <= Signed(x) - Signed(y) < 0x8000
    ensures Signed(Sub(x, y)) == Signed(x) - Signed(y)
  {
    SignedMeaning(x);
    SignedMeaning(y);
    SignedMeaning(Sub(x, y));
  }

  /** When `x - y` does not overflow, the jump condition of `eq`, `lt` and
      `gt` is the VM comparison of the signed values. */
  lemma CompareMeaning(op: string, x: Word, y: Word)
    requires op == "eq" || op == "lt" || op == "gt"
    requires -0x8000 <= Signed(x) - Signed(y) < 0x8000
    ensures Jumps(CompareJump(op), Sub(x, y)) <==> VmCompare(op, Signed(x), Signed(y))
  {
    SignedSub(x, y);
    SignedMeaning(Sub(x, y));
  }

  /** Outside that range the result follows the wrapped difference: `lt`
      with x = 20000 and y = -20000 pushes true, because 40000 wraps to a
      negative number. */
  lemma CompareOverflow()
    ensures var x, y := 20000, Sub(0, 20000);
      && Signed(y) == -20000
      && Jumps(CompareJump("lt"), Sub(x, y)) && !VmCompare("lt", Signed(x), Signed(y))
  {
  }

  // ---------------------------------------------------------------------
  // push and pop

  /** Where the VM keeps the base address of each relocatable segment:
      RAM[1] to RAM[4], the registers LCL, ARG, THIS and THAT. This is the
      VM's memory layout, stated without a symbol table so that
      `SegmentAddress` needs none; the code reaches these cells through the
      symbols LCL, ARG, THIS and THAT, and `PointerSymbols` shows that those
      resolve to the same addresses under `StandardSymbols`. */
  function BasePointer(segment: string): Word {
    if segment == "local" then 1
    else if segment == "argument" then 2
    else if segment == "this" then 3
    else 4
  }

  /** The RAM address of `segment i` in the VM's memory layout: relative to
      the base pointer for local, argument, this and that; from RAM[5] for
      temp and from RAM[3] (THIS, THAT) for pointer; and for static the
      address `staticAddr` that the assembler gives the variable's symbol. */
  function SegmentAddress(segment: string, i: Word, staticAddr: Word, ram: Ram): Word {
    if segment in SegmentPointers then Add(i, ram[BasePointer(segment)])
    else if segment == "temp" then Add(i, 5)
    else if segment == "pointer" then Add(i, 3)
    else staticAddr
  }

  /** The value `push segment i` puts on the stack. */
  function PushedValue(segment: string, i: Word, staticAddr: Word, ram: Ram): Word {
    if segment == "constant" then i else ram[SegmentAddress(segment, i, staticAddr, ram)]
  }

  /** The segment pointer symbols resolve to the VM's base registers. */
  lemma PointerSymbols(segment: string, sym: map<string, Word>)
    requires segment in SegmentPointers && StandardSymbols(sym)
    ensures Resolve(SegmentPointers[segment], sym) == BasePointer(segment)
  {
    ResolveSymbol(SegmentPointers[segment], sym);
  }

  /** Loading through a base pointer (`@i`, `D=A`, `@base`, `A=M`, `A=D+A`,
      `D=M`): D becomes RAM[i + RAM[base]], RAM is untouched. */
  lemma LoadIndirect(rom: seq<Instr>, sym: map<string, Word>, m: Machine, c: seq<Instr>, base: Word)
    requires Placed(rom, m.pc, c) && |c| >= 6 && c[0].AInstr? && c[1] == Set(DestD, RegA)
    requires c[2].AInstr? && Resolve(c[2].target, sym) == base && c[3] == Set(DestA, RegM)
    requires c[4] == Set(DestA, DPlusA) && c[5] == Set(DestD, RegM)
    ensures var r := Run(rom, sym, m, 6);
      var addr := Add(Resolve(c[0].target, sym), m.ram[base]);
      r.ram == m.ram && r.d == m.ram[addr] && r.pc == m.pc + 6
  {
    var p, i := m.pc, Resolve(c[0].target, sym);
    StepAt(rom, sym, m, p, c, 0);
    var m1 := Step(rom, sym, m);
    assert m1 == m.(a := i, pc := p + 1);
    StepAt(rom, sym, m1, p, c, 1);
    var m2 := Step(rom, sym, m1);
    assert m2 == m1.(d := i, pc := p + 2);
    StepAt(rom, sym, m2, p, c, 2);
    var m3 := Step(rom, sym, m2);
    assert m3 == m2.(a := base, pc := p + 3);
    StepAt(rom, sym, m3, p, c, 3);
    var m4 := Step(rom, sym, m3);
    assert m4 == m3.(a := m.ram[base], pc := p + 4);
    StepAt(rom, sym, m4, p, c, 4);
    var m5 := Step(rom, sym, m4);
    assert m5 == m4.(a := Add(i, m.ram[base]), pc := p + 5);
    StepAt(rom, sym, m5, p, c, 5);
    var m6 := Step(rom, sym, m5);
    assert Run(rom, sym, m, 6) == Run(rom, sym, m1, 5) == Run(rom, sym, m2, 4);
    assert Run(rom, sym, m2, 4) == Run(rom, sym, m3, 3) == Run(rom, sym, m4, 2) == Run(rom, sym, m5, 1) == m6;
  }

  /** Loading from a fixed segment (`@i`, `D=A`, `@base`, `A=D+A`, `D=M`): D
      becomes RAM[i + base], RAM is untouched. */
  lemma LoadFixed(rom: seq<Instr>, sym: map<string, Word>, m: Machine, c: seq<Instr>, base: Word)
    requires Placed(rom, m.pc, c) && |c| >= 5 && c[0].AInstr? && c[1] == Set(DestD, RegA)
    requires c[2].AInstr? && Resolve(c[2].target, sym) == base
    requires c[3] == Set(DestA, DPlusA) && c[4] == Set(DestD, RegM)
    ensures var r := Run(rom, sym, m, 5);
      var addr := Add(Resolve(c[0].target, sym), base);
      r.ram == m.ram && r.d == m.ram[addr] && r.pc == m.pc + 5
  {
    var p, i := m.pc, Resolve(c[0].target, sym);
    StepAt(rom, sym, m, p, c, 0);
    var m1 := Step(rom, sym, m);
    assert m1 == m.(a := i, pc := p + 1);
    StepAt(rom, sym, m1, p, c, 1);
    var m2 := Step(rom, sym, m1);
    assert m2 == m1.(d := i, pc := p + 2);
    StepAt(rom, sym, m2, p, c, 2);
    var m3 := Step(rom, sym, m2);
    assert m3 == m2.(a := base, pc := p + 3);
    StepAt(rom, sym, m3, p, c, 3);
    var m4 := Step(rom, sym, m3);
    assert m4 == m3.(a := Add(i, base), pc := p + 4);
    StepAt(rom, sym, m4, p, c, 4);
    var m5 := Step(rom, sym, m4);
    assert Run(rom, sym, m, 5) == Run(rom, sym, m1, 4) == Run(rom, sym, m2, 3);
    assert Run(rom, sym, m2, 3) == Run(rom, sym, m3, 2) == Run(rom, sym, m4, 1) == m5;
  }

  /** Loading a constant (`@i`, `D=A`) or a variable (`@s`, `D=M`) in two
      cycles. */
  lemma LoadDirect(rom: seq<Instr>, sym: map<string, Word>, m: Machine, c: seq<Instr>, comp: Comp)
    requires Placed(rom, m.pc, c) && |c| >= 2 && c[0].AInstr? && c[1] == Set(DestD, comp)
    requires comp == RegA || comp == RegM
    ensures var r := Run(rom, sym, m, 2);
      var t := Resolve(c[0].target, sym);
      && r.ram == m.ram && r.pc == m.pc + 2
      && r.d == (if comp == RegA then t else m.ram[t])
  {
    var p, t := m.pc, Resolve(c[0].target, sym);
    StepAt(rom, sym, m, p, c, 0);
    var m1 := Step(rom, sym, m);
    assert m1 == m.(a := t, pc := p + 1);
    StepAt(rom, sym, m1, p, c, 1);
    var m2 := Step(rom, sym, m1);
    assert Run(rom, sym, m, 2) == Run(rom, sym, m1, 1) == m2;
  }

  /** Saving a relocatable address in R15 (`@i`, `D=A`, `@base`, `A=M`,
      `D=D+A`, `@R15`, `M=D`): R15 becomes i + RAM[base]. */
  lemma SaveIndirect(rom: seq<Instr>, sym: map<string, Word>, m: Machine, c: seq<Instr>, base: Word)
    requires Placed(rom, m.pc, c) && StandardSymbols(sym)
    requires |c| >= 7 && c[0].AInstr? && c[1] == Set(DestD, RegA)
    requires c[2].AInstr? && Resolve(c[2].target, sym) == base && c[3] == Set(DestA, RegM)
    requires c[4] == Set(DestD, DPlusA) && c[5] == At("R15") && c[6] == Set(DestM, RegD)
    ensures var r := Run(rom, sym, m, 7);
      var addr := Add(Resolve(c[0].target, sym), m.ram[base]);
      r.ram == m.ram[15 := addr] && r.pc == m.pc + 7
  {
    var p, i := m.pc, Resolve(c[0].target, sym);
    var addr := Add(i, m.ram[base]);
    StepAt(rom, sym, m, p, c, 0);
    var m1 := Step(rom, sym, m);
    assert m1 == m.(a := i, pc := p + 1);
    StepAt(rom, sym, m1, p, c, 1);
    var m2 := Step(rom, sym, m1);
    assert m2 == m1.(d := i, pc := p + 2);
    StepAt(rom, sym, m2, p, c, 2);
    var m3 := Step(rom, sym, m2);
    assert m3 == m2.(a := base, pc := p + 3);
    StepAt(rom, sym, m3, p, c, 3);
    var m4 := Step(rom, sym, m3);
    assert m4 == m3.(a := m.ram[base], pc := p + 4);
    StepAt(rom, sym, m4, p, c, 4);
    var m5 := Step(rom, sym, m4);
    assert m5 == m4.(d := addr, pc := p + 5);
    StepAt(rom, sym, m5, p, c, 5);
    var m6 := Step(rom, sym, m5);
    ResolveSymbol("R15", sym);
    assert m6 == m5.(a := 15, pc := p + 6);
    StepAt(rom, sym, m6, p, c, 6);
    var m7 := Step(rom, sym, m6);
    assert m7 == m6.(ram := m.ram[15 := addr], pc := p + 7);
    assert Run(rom, sym, m, 7) == Run(rom, sym, m1, 6) == Run(rom, sym, m2, 5) == Run(rom, sym, m3, 4);
    assert Run(rom, sym, m3, 4) == Run(rom, sym, m4, 3) == Run(rom, sym, m5, 2) == Run(rom, sym, m6, 1) == m7;
  }

  /** Saving a fixed-segment address in R15 (`@i`, `D=A`, `@base`, `D=D+A`,
      `@R15`, `M=D`): R15 becomes i + base. */
  lemma SaveFixed(rom: seq<Instr>, sym: map<string, Word>, m: Machine, c: seq<Instr>, base: Word)
    requires Placed(rom, m.pc, c) && StandardSymbols(sym)
    requires |c| >= 6 && c[0].AInstr? && c[1] == Set(DestD, RegA)
    requires c[2].AInstr? && Resolve(c[2].target, sym) == base
    requires c[3] == Set(DestD, DPlusA) && c[4] == At("R15") && c[5] == Set(DestM, RegD)
    ensures var r := Run(rom, sym, m, 6);
      var addr := Add(Resolve(c[0].target, sym), base);
      r.ram == m.ram[15 := addr] && r.pc == m.pc + 6
  {
    var p, i := m.pc, Resolve(c[0].target, sym);
    var addr := Add(i, base);
    StepAt(rom, sym, m, p, c, 0);
    var m1 := Step(rom, sym, m);
    assert m1 == m.(a := i, pc := p + 1);
    StepAt(rom, sym, m1, p, c, 1);
    var m2 := Step(rom, sym, m1);
    assert m2 == m1.(d := i, pc := p + 2);
    StepAt(rom, sym, m2, p, c, 2);
    var m3 := Step(rom, sym, m2);
    assert m3 == m2.(a := base, pc := p + 3);
    StepAt(rom, sym, m3, p, c, 3);
    var m4 := Step(rom, sym, m3);
    assert m4 == m3.(d := addr, pc := p + 4);
    StepAt(rom, sym, m4, p, c, 4);
    var m5 := Step(rom, sym, m4);
    ResolveSymbol("R15", sym);
    assert m5 == m4.(a := 15, pc := p + 5);
    StepAt(rom, sym, m5, p, c, 5);
    var m6 := Step(rom, sym, m5);
    assert m6 == m5.(ram := m.ram[15 := addr], pc := p + 6);
    assert Run(rom, sym, m, 6) == Run(rom, sym, m1, 5) == Run(rom, sym, m2, 4);
    assert Run(rom, sym, m2, 4) == Run(rom, sym, m3, 3) == Run(rom, sym, m4, 2) == Run(rom, sym, m5, 1) == m6;
  }

  /** Saving a static variable's address in R15 (`@s`, `D=A`, `@R15`, `M=D`). */
  lemma SaveDirect(rom: seq<Instr>, sym: map<string, Word>, m: Machine, c: seq<Instr>)
    requires Placed(rom, m.pc, c) && StandardSymbols(sym)
    requires |c| >= 4 && c[0].AInstr? && c[1] == Set(DestD, RegA)
    requires c[2] == At("R15") && c[3] == Set(DestM, RegD)
    ensures var r := Run(rom, sym, m, 4);
      r.ram == m.ram[15 := Resolve(c[0].target, sym)] && r.pc == m.pc + 4
  {
    var p, t := m.pc, Resolve(c[0].target, sym);
    StepAt(rom, sym, m, p, c, 0);
    var m1 := Step(rom, sym, m);
    assert m1 == m.(a := t, pc := p + 1);
    StepAt(rom, sym, m1, p, c, 1);
    var m2 := Step(rom, sym, m1);
    assert m2 == m1.(d := t, pc := p + 2);
    StepAt(rom, sym, m2, p, c, 2);
    var m3 := Step(rom, sym, m2);
    ResolveSymbol("R15", sym);
    assert m3 == m2.(a := 15, pc := p + 3);
    StepAt(rom, sym, m3, p, c, 3);
    var m4 := Step(rom, sym, m3);
    assert m4 == m3.(ram := m.ram[15 := t], pc := p + 4);
    assert Run(rom, sym, m, 4) == Run(rom, sym, m1, 3) == Run(rom, sym, m2, 2) == Run(rom, sym, m3, 1) == m4;
  }

  /** A push is the segment's load sequence followed by `pushD`. */
  lemma PushCodeSplit(segment: string, index: string, progname: string)
    requires segment == "constant" || segment in SegmentPointers || segment == "temp" ||
             segment == "pointer" || segment == "static"
    ensures var load := PushSegmentCode(segment, index, progname);
      && PushPopCode("push", segment, index, progname) == load + PushDCode()
      && |load| + |PushDCode()| == PushPopWords("push", segment)
  {
  }

  /** A pop is the segment's address sequence followed by `pop15`. */
  lemma PopCodeSplit(segment: string, index: string, progname: string)
    requires segment in SegmentPointers || segment == "temp" || segment == "pointer" || segment == "static"
    ensures var address := PopSegmentCode(segment, index, progname);
      && PushPopCode("pop", segment, index, progname) == address + Pop15Code()
      && |address| + |Pop15Code()| == PushPopWords("pop", segment)
  {
  }

  /** The load sequence of `push segment index` puts the pushed value in D
      and leaves RAM as it was. */
  lemma LoadEffect(rom: seq<Instr>, sym: map<string, Word>, m: Machine, segment: string, index: string,
                   progname: string)
    requires segment == "constant" || segment in SegmentPointers || segment == "temp" ||
             segment == "pointer" || segment == "static"
    requires Placed(rom, m.pc, PushSegmentCode(segment, index, progname)) && StandardSymbols(sym)
    ensures var n := |PushSegmentCode(segment, index, progname)|;
      var r := Run(rom, sym, m, n);
      var v := PushedValue(segment, Resolve(index, sym), Resolve(StaticSymbol(progname, index), sym), m.ram);
      r.ram == m.ram && r.d == v && r.pc == m.pc + n
  {
    var load := PushSegmentCode(segment, index, progname);
    if segment == "constant" {
      LoadDirect(rom, sym, m, load, RegA);
    } else if segment in SegmentPointers {
      PointerSymbols(segment, sym);
      LoadIndirect(rom, sym, m, load, BasePointer(segment));
    } else if segment == "temp" {
      ResolveNumeral(5, sym);
      LoadFixed(rom, sym, m, load, 5);
    } else if segment == "pointer" {
      ResolveNumeral(3, sym);
      LoadFixed(rom, sym, m, load, 3);
    } else {
      LoadDirect(rom, sym, m, load, RegM);
    }
  }

  /** The address sequence of `pop segment index` stores the target address
      in R15 and changes nothing else in RAM. */
  lemma SaveEffect(rom: seq<Instr>, sym: map<string, Word>, m: Machine, segment: string, index: string,
                   progname: string)
    requires segment in SegmentPointers || segment == "temp" || segment == "pointer" || segment == "static"
    requires Placed(rom, m.pc, PopSegmentCode(segment, index, progname)) && StandardSymbols(sym)
    ensures var n := |PopSegmentCode(segment, index, progname)|;
      var r := Run(rom, sym, m, n);
      var t := SegmentAddress(segment, Resolve(index, sym), Resolve(StaticSymbol(progname, index), sym), m.ram);
      r.ram == m.ram[15 := t] && r.pc == m.pc + n
  {
    var address := PopSegmentCode(segment, index, progname);
    if segment in SegmentPointers {
      PointerSymbols(segment, sym);
      SaveIndirect(rom, sym, m, address, BasePointer(segment));
    } else if segment == "temp" {
      ResolveNumeral(5, sym);
      SaveFixed(rom, sym, m, address, 5);
    } else if segment == "pointer" {
      ResolveNumeral(3, sym);
      SaveFixed(rom, sym, m, address, 3);
    } else {
      SaveDirect(rom, sym, m, address);
    }
  }

  /** `push segment index`: the segment's value is stored at RAM[SP] and SP
      grows by one. */
  lemma PushEffect(rom: seq<Instr>, sym: map<string, Word>, m: Machine, segment: string, index: string,
                   progname: string)
    requires segment == "constant" || segment in SegmentPointers || segment == "temp" ||
             segment == "pointer" || segment == "static"
    requires Placed(rom, m.pc, PushPopCode("push", segment, index, progname))
    requires StandardSymbols(sym) && StackAbove(m, 0)
    ensures var v := PushedValue(segment, Resolve(index, sym), Resolve(StaticSymbol(progname, index), sym), m.ram);
      var r := Run(rom, sym, m, PushPopWords("push", segment));
      && r.pc == m.pc + PushPopWords("push", segment)
      && r.ram == m.ram[Sp(m) := v][0 := Add(Sp(m), 1)]
  {
    var load := PushSegmentCode(segment, index, progname);
    PushCodeSplit(segment, index, progname);
    PlacedSplit(rom, m.pc, load, PushDCode());
    LoadEffect(rom, sym, m, segment, index, progname);
    LoadThenPushD(rom, sym, m, load, PushedValue(segment, Resolve(index, sym),
                  Resolve(StaticSymbol(progname, index), sym), m.ram));
    RunSplit(rom, sym, m, |load|, |PushDCode()|, PushPopWords("push", segment));
  }

  /** Any sequence that leaves RAM alone and `v` in D, followed by `pushD`,
      pushes `v`. */
  lemma LoadThenPushD(rom: seq<Instr>, sym: map<string, Word>, m: Machine, load: seq<Instr>, v: Word)
    requires Placed(rom, m.pc, load) && Placed(rom, m.pc + |load|, PushDCode())
    requires StandardSymbols(sym) && StackAbove(m, 0)
    requires Run(rom, sym, m, |load|).ram == m.ram && Run(rom, sym, m, |load|).d == v
    requires Run(rom, sym, m, |load|).pc == m.pc + |load|
    ensures var r := Run(rom, sym, Run(rom, sym, m, |load|), |PushDCode()|);
      && r.pc == m.pc + |load| + |PushDCode()|
      && r.ram == m.ram[Sp(m) := v][0 := Add(Sp(m), 1)]
  {
    PushDEffect(rom, sym, Run(rom, sym, m, |load|));
  }

  /** `pop segment index`: SP shrinks by one and the old top is stored at the
      segment's address; R15 is left holding that address. */
  lemma PopEffect(rom: seq<Instr>, sym: map<string, Word>, m: Machine, segment: string, index: string,
                  progname: string)
    requires segment in SegmentPointers || segment == "temp" || segment == "pointer" || segment == "static"
    requires Placed(rom, m.pc, PushPopCode("pop", segment, index, progname))
    requires StandardSymbols(sym) && StackAbove(m, 1)
    ensures var t := SegmentAddress(segment, Resolve(index, sym), Resolve(StaticSymbol(progname, index), sym), m.ram);
      var r := Run(rom, sym, m, PushPopWords("pop", segment));
      && r.pc == m.pc + PushPopWords("pop", segment)
      && r.ram == m.ram[15 := t][0 := Sp(m) - 1][t := m.ram[Sp(m) - 1]]
  {
    var address := PopSegmentCode(segment, index, progname);
    PopCodeSplit(segment, index, progname);
    PlacedSplit(rom, m.pc, address, Pop15Code());
    SaveEffect(rom, sym, m, segment, index, progname);
    SaveThenPop15(rom, sym, m, address, SegmentAddress(segment, Resolve(index, sym),
                  Resolve(StaticSymbol(progname, index), sym), m.ram));
    RunSplit(rom, sym, m, |address|, |Pop15Code()|, PushPopWords("pop", segment));
  }

  /** Any sequence that only stores `t` in R15, followed by `pop15`, pops the
      top into RAM[t]. */
  lemma SaveThenPop15(rom: seq<Instr>, sym: map<string, Word>, m: Machine, address: seq<Instr>, t: Word)
    requires Placed(rom, m.pc, address) && Placed(rom, m.pc + |address|, Pop15Code())
    requires StandardSymbols(sym) && StackAbove(m, 1)
    requires Run(rom, sym, m, |address|).ram == m.ram[15 := t]
    requires Run(rom, sym, m, |address|).pc == m.pc + |address|
    ensures var r := Run(rom, sym, Run(rom, sym, m, |address|), |Pop15Code()|);
      && r.pc == m.pc + |address| + |Pop15Code()|
      && r.ram == m.ram[15 := t][0 := Sp(m) - 1][t := m.ram[Sp(m) - 1]]
  {
    var m1 := Run(rom, sym, m, |address|);
    assert Sp(m1) == Sp(m) && m1.ram[Sp(m) - 1] == m.ram[Sp(m) - 1];
    Pop15Effect(rom, sym, m1);
  }

  /** `pop segment index` followed by `push segment index` leaves the stack
      as it was and the segment cell holding a copy of the top, provided the
      cell is not SP, R15 or the segment's own base pointer (which would move
      the segment between the two commands). */
  lemma PopThenPush(rom: seq<Instr>, sym: map<string, Word>, m: Machine, segment: string, index: string,
                    progname: string)
    requires segment in SegmentPointers || segment == "temp" || segment == "pointer" || segment == "static"
    requires Placed(rom, m.pc, PushPopCode("pop", segment, index, progname))
    requires Placed(rom, m.pc + PushPopWords("pop", segment), PushPopCode("push", segment, index, progname))
    requires StandardSymbols(sym) && StackAbove(m, 1)
    requires var t := SegmentAddress(segment, Resolve(index, sym), Resolve(StaticSymbol(progname, index), sym), m.ram);
      t != 0 && t != 15 && (segment in SegmentPointers ==> t != BasePointer(segment))
    ensures var t := SegmentAddress(segment, Resolve(index, sym), Resolve(StaticSymbol(progname, index), sym), m.ram);
      var r := Run(rom, sym, Run(rom, sym, m, PushPopWords("pop", segment)), PushPopWords("push", segment));
      && Sp(r) == Sp(m)
      && r.ram == m.ram[15 := t][t := m.ram[Sp(m) - 1]]
  {
    var i, st := Resolve(index, sym), Resolve(StaticSymbol(progname, index), sym);
    var t := SegmentAddress(segment, i, st, m.ram);
    PopEffect(rom, sym, m, segment, index, progname);
    var m1 := Run(rom, sym, m, PushPopWords("pop", segment));
    var ram1 := m.ram[15 := t][0 := Sp(m) - 1][t := m.ram[Sp(m) - 1]];
    assert m1.ram == ram1;
    SameAddressAfterPop(segment, i, st, m.ram, ram1);
    PushEffect(rom, sym, m1, segment, index, progname);
    PopPushRam(m.ram, t, Sp(m));
  }

  /** The RAM after the pop and the push: SP is back, the top cell holds
      the value it held, and the target holds a copy of it. */
  lemma PopPushRam(ram: Ram, t: Word, sp: Word)
    requires sp == ram[0] && 16 < sp && t != 0 && t != 15
    ensures var ram1 := ram[15 := t][0 := sp - 1][t := ram[sp - 1]];
      ram1[sp - 1 := ram1[t]][0 := Add(ram1[0], 1)] == ram[15 := t][t := ram[sp - 1]]
  {
    var y := ram[sp - 1];
    var ram1 := ram[15 := t][0 := sp - 1][t := y];
    var ram2 := ram1[sp - 1 := y][0 := sp];
    assert Add(ram1[0], 1) == sp;
    forall k | 0 <= k < 0x10000 ensures ram2[k] == ram[15 := t][t := y][k] {
    }
  }

  /** The pop changes only SP, R15 and the target cell, so the segment
      address is the same for the push that follows. */
  lemma SameAddressAfterPop(segment: string, i: Word, st: Word, ram: Ram, ram1: Ram)
    requires segment in SegmentPointers || segment == "temp" || segment == "pointer" || segment == "static"
    requires var t := SegmentAddress(segment, i, st, ram);
      && t != 0 && t != 15 && (segment in SegmentPointers ==> t != BasePointer(segment))
      && forall k :: 0 <= k < 0x10000 && k != 0 && k != 15 && k != t ==> ram1[k] == ram[k]
    ensures SegmentAddress(segment, i, st, ram1) == SegmentAddress(segment, i, st, ram)
    ensures PushedValue(segment, i, st, ram1) == ram1[SegmentAddress(segment, i, st, ram)]
  {
  }

  // ---------------------------------------------------------------------
  // The halting loop

  /** The loop `close` appends, placed at the address the assembler gives
      the label `(__FINIS__)`, jumps back to itself every two cycles for
      ever: the program counter returns to the loop's start and RAM and D
      never change. */
  lemma {:induction false} HaltLoops(rom: seq<Instr>, sym: map<string, Word>, m: Machine, n: nat)
    requires Placed(rom, m.pc, HaltCode()) && "__FINIS__" in sym && sym["__FINIS__"] == m.pc
    ensures var r := Run(rom, sym, m, 2 * n);
      r.pc == m.pc && r.ram == m.ram && r.d == m.d
    decreases n
  {
    if n > 0 {
      var c, p := HaltCode(), m.pc;
      StepAt(rom, sym, m, p, c, 0);
      var m1 := Step(rom, sym, m);
      ResolveSymbol("__FINIS__", sym);
      assert m1 == m.(a := p, pc := p + 1);
      StepAt(rom, sym, m1, p, c, 1);
      var m2 := Step(rom, sym, m1);
      assert m2 == m1.(pc := p);
      assert Run(rom, sym, m, 2) == Run(rom, sym, m1, 1) == m2;
      RunSplit(rom, sym, m, 2, 2 * (n - 1), 2 * n);
      HaltLoops(rom, sym, m2, n - 1);
    }
  }
}
