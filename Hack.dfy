/**
 * The target machine: the Hack computer of "The Elements of Computing
 * Systems" (chapter 4). Only the instruction forms the translator emits are
 * modelled: A-instructions `@target` and C-instructions `dest=comp;jump` with
 * at most one destination register. Words are the numbers 0 to 0xFFFF;
 * addition and subtraction wrap around modulo 2^16 as on the hardware, and
 * the bitwise operations act on the 16-bit patterns.
 */
module Hack {
  import opened Text

  /** A 16-bit word, read as an unsigned number. */
  type Word = x: int | 0 <= x < 0x10000

  /** Data memory: one word for every 16-bit address. */
  type Ram = r: seq<Word> | |r| == 0x10000 witness seq(0x10000, _ => 0)

  datatype Dest = NoDest | DestA | DestD | DestM

  /** The computations that occur in the translator's output. */
  datatype Comp =
    | Zero | MinusOne | RegA | RegD | RegM
    | MMinusOne | MPlusOne | AMinusOne
    | MPlusD | MMinusD | NegM | NotM | MAndD | MOrD | DPlusA

  datatype Jump = NoJump | JEQ | JLT | JGT | JMP

  datatype Instr =
    | AInstr(target: string)
    | CInstr(dest: Dest, comp: Comp, jump: Jump)

  function DestText(d: Dest): string {
    match d
    case NoDest => ""
    case DestA => "A"
    case DestD => "D"
    case DestM => "M"
  }

  function CompText(c: Comp): string {
    match c
    case Zero => "0"
    case MinusOne => "-1"
    case RegA => "A"
    case RegD => "D"
    case RegM => "M"
    case MMinusOne => "M-1"
    case MPlusOne => "M+1"
    case AMinusOne => "A-1"
    case MPlusD => "M+D"
    case MMinusD => "M-D"
    case NegM => "-M"
    case NotM => "!M"
    case MAndD => "M&D"
    case MOrD => "M|D"
    case DPlusA => "D+A"
  }

  function JumpText(j: Jump): string {
    match j
    case NoJump => ""
    case JEQ => "JEQ"
    case JLT => "JLT"
    case JGT => "JGT"
    case JMP => "JMP"
  }

  /** The text of one instruction as the translator writes it: indented by
      two blanks, `@target`, or `dest=comp;jump` with the `dest=` and `;jump`
      parts left out when empty. */
  function Render(i: Instr): string {
    match i
    case AInstr(t) => "  @" + t
    case CInstr(d, c, j) =>
      "  " + (if d == NoDest then "" else DestText(d) + "=") + CompText(c) +
      (if j == NoJump then "" else ";" + JumpText(j))
  }

  /** The texts of a sequence of instructions. */
  function Texts(code: seq<Instr>): seq<string> {
    seq(|code|, k requires 0 <= k < |code| => Render(code[k]))
  }

  /** Output lines: each text followed by a newline. */
  function Newlines(ts: seq<string>): seq<string> {
    seq(|ts|, k requires 0 <= k < |ts| => ts[k] + "\n")
  }

  /** The output lines of a sequence of instructions. */
  function Lines(code: seq<Instr>): seq<string> {
    Newlines(Texts(code))
  }

  lemma AppendAssoc<T>(a: seq<T>, b: seq<T>, c: seq<T>)
    ensures a + b + c == a + (b + c)
  {
  }

  // ---------------------------------------------------------------------
  // The machine

  datatype Machine = Machine(a: Word, d: Word, pc: nat, ram: Ram)

  /** The stack pointer, kept in RAM[0] (the symbol `SP`). */
  function Sp(m: Machine): Word {
    m.ram[0]
  }

  /** Addition and subtraction wrap around modulo 2^16. */
  function Add(x: Word, y: Word): Word {
    (x + y) % 0x10000
  }

  function Sub(x: Word, y: Word): Word {
    (x - y) % 0x10000
  }

  /** The bitwise operations on the 16-bit patterns of the words. `And`
      works bit by bit from the least significant bit; `Not` flips all
      sixteen bits, which is subtraction from 0xFFFF; `Or` follows from the two
      by De Morgan's law. */
  function AndBits(x: nat, y: nat): (r: nat)
    ensures r <= x && r <= y
    decreases x
  {
    if x == 0 || y == 0 then 0
    else 2 * AndBits(x / 2, y / 2) + (if x % 2 == 1 && y % 2 == 1 then 1 else 0)
  }

  function BitAnd(x: Word, y: Word): Word {
    AndBits(x, y)
  }

  function BitNot(x: Word): Word {
    0xFFFF - x
  }

  function BitOr(x: Word, y: Word): Word {
    BitNot(BitAnd(BitNot(x), BitNot(y)))
  }

  /** Two's-complement reading of a word. */
  function Signed(v: Word): int {
    if v < 0x8000 then v else v - 0x10000
  }

  /** A word is negative exactly when its sign bit is set. */
  predicate Negative(v: Word) {
    v >= 0x8000
  }

  /** `Signed` is the two's-complement reading: it lies in the signed 16-bit
      range, differs from the unsigned value by 0 or 2^16, and is negative
      exactly when the sign bit is set. */
  lemma SignedMeaning(v: Word)
    ensures -0x8000 <= Signed(v) < 0x8000
    ensures (Signed(v) - v) % 0x10000 == 0
    ensures Signed(v) < 0 <==> Negative(v)
    ensures Signed(v) == 0 <==> v == 0
  {
  }

  function Eval(c: Comp, m: Machine): Word {
    var am := m.ram[m.a];
    match c
    case Zero => 0
    case MinusOne => 0xFFFF
    case RegA => m.a
    case RegD => m.d
    case RegM => am
    case MMinusOne => Sub(am, 1)
    case MPlusOne => Add(am, 1)
    case AMinusOne => Sub(m.a, 1)
    case MPlusD => Add(am, m.d)
    case MMinusD => Sub(am, m.d)
    case NegM => Sub(0, am)
    case NotM => BitNot(am)
    case MAndD => BitAnd(am, m.d)
    case MOrD => BitOr(am, m.d)
    case DPlusA => Add(m.d, m.a)
  }

  /** Whether a C-instruction's jump is taken for the computed value. */
  predicate Jumps(j: Jump, v: Word) {
    match j
    case NoJump => false
    case JEQ => v == 0
    case JLT => Negative(v)
    case JGT => v != 0 && !Negative(v)
    case JMP => true
  }

  /** The value an A-instruction loads: a decimal constant, or the address
      the assembler's symbol table gives the symbol (0 for a symbol missing
      from the table). */
  function Resolve(target: string, sym: map<string, Word>): Word {
    if IsNumeric(target) then DecimalValue(target) % 0x10000
    else if target in sym then sym[target]
    else 0
  }

  /** The predefined symbols the translator's output relies on. */
  predicate StandardSymbols(sym: map<string, Word>) {
    && "SP" in sym && sym["SP"] == 0
    && "LCL" in sym && sym["LCL"] == 1
    && "ARG" in sym && sym["ARG"] == 2
    && "THIS" in sym && sym["THIS"] == 3
    && "THAT" in sym && sym["THAT"] == 4
    && "R15" in sym && sym["R15"] == 15
  }

  /** What one instruction does: an A-instruction loads A; a C-instruction
      computes `comp`, stores it in its destination and jumps to the address
      in A when its condition holds on the computed value (the address A
      held before the instruction), and otherwise goes on to the next one. */
  function Exec(i: Instr, sym: map<string, Word>, m: Machine): Machine {
    match i
    case AInstr(t) => m.(a := Resolve(t, sym), pc := m.pc + 1)
    case CInstr(dest, comp, jump) =>
      var v := Eval(comp, m);
      var pc := if Jumps(jump, v) then m.a else m.pc + 1;
      match dest
      case NoDest => m.(pc := pc)
      case DestA => m.(a := v, pc := pc)
      case DestD => m.(d := v, pc := pc)
      case DestM => m.(ram := m.ram[m.a := v], pc := pc)
  }

  /** One clock cycle: execute the instruction at `pc`. A machine whose `pc`
      is past the end of the program stays as it is. */
  function Step(rom: seq<Instr>, sym: map<string, Word>, m: Machine): Machine {
    if m.pc >= |rom| then m else Exec(rom[m.pc], sym, m)
  }

  /** `n` clock cycles. */
  function Run(rom: seq<Instr>, sym: map<string, Word>, m: Machine, n: nat): Machine
    decreases n
  {
    if n == 0 then m else Run(rom, sym, Step(rom, sym, m), n - 1)
  }

  /** Running `a + b` cycles is running `a` cycles and then `b` more. */
  lemma {:induction false} RunSplit(rom: seq<Instr>, sym: map<string, Word>, m: Machine, a: nat, b: nat, n: nat)
    requires n == a + b
    ensures Run(rom, sym, m, n) == Run(rom, sym, Run(rom, sym, m, a), b)
    decreases a
  {
    if a > 0 {
      RunSplit(rom, sym, Step(rom, sym, m), a - 1, b, n - 1);
    }
  }

  /** `code` occupies the ROM from address `p` on. */
  predicate Placed(rom: seq<Instr>, p: nat, code: seq<Instr>) {
    p + |code| <= |rom| && rom[p..p + |code|] == code
  }

  /** Code appended to a ROM sits at the address where the ROM ended. */
  lemma PlacedAppend(rom: seq<Instr>, code: seq<Instr>)
    ensures Placed(rom + code, |rom|, code)
  {
    assert (rom + code)[|rom|..|rom| + |code|] == code;
  }

  lemma PlacedSplit(rom: seq<Instr>, p: nat, c1: seq<Instr>, c2: seq<Instr>)
    requires Placed(rom, p, c1 + c2)
    ensures Placed(rom, p, c1) && Placed(rom, p + |c1|, c2)
  {
    assert rom[p..p + |c1|] == (c1 + c2)[..|c1|];
    assert rom[p + |c1|..p + |c1| + |c2|] == (c1 + c2)[|c1|..];
  }

  lemma PlacedAt(rom: seq<Instr>, p: nat, code: seq<Instr>, k: nat)
    requires Placed(rom, p, code) && k < |code|
    ensures rom[p + k] == code[k]
  {
    assert rom[p..p + |code|][k] == rom[p + k];
  }

  /** The cycle at address `p + k` of placed code runs that code's `k`-th
      instruction. */
  lemma StepAt(rom: seq<Instr>, sym: map<string, Word>, m: Machine, p: nat, code: seq<Instr>, k: nat)
    requires Placed(rom, p, code) && k < |code| && m.pc == p + k
    ensures Step(rom, sym, m) == Exec(code[k], sym, m)
  {
    PlacedAt(rom, p, code, k);
  }

  /** A numeral printed by the translator loads its own value. */
  lemma ResolveNumeral(n: nat, sym: map<string, Word>)
    requires n < 0x10000
    ensures Resolve(NatToString(n), sym) == n
  {
    NatToStringRoundTrip(n);
  }

  /** A target that does not start with a digit is looked up as a symbol. */
  lemma ResolveSymbol(t: string, sym: map<string, Word>)
    requires t != [] && !IsDigit(t[0]) && t in sym
    ensures Resolve(t, sym) == sym[t]
  {
    assert !IsNumeric(t);
  }
}
