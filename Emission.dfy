/**
 * The Hack instruction sequences the code writer emits for one VM command,
 * as functions of the command and of the address `w` of the sequence's first
 * instruction (the writer's word count when the sequence starts). The class
 * in CodeWriter.dfy is proved to append exactly these sequences; the lemmas
 * here state their word counts and the bookkeeping of the inline jump
 * targets, and StackEffects.dfy states what they do on the machine.
 */
module Emission {
  import opened Text
  import opened Hack

  /** `segDict`: the base-pointer symbol of each relocatable segment. */
  const SegmentPointers: map<string, string> :=
    map["local" := "LCL", "argument" := "ARG", "this" := "THIS", "that" := "THAT"]

  /** The comment that opens every translated command: `// [w] line`. */
  function CommentLine(w: nat, line: string): string {
    "// [" + NatToString(w) + "] " + line
  }

  /** The assembler symbol of static variable `index` of program `progname`. */
  function StaticSymbol(progname: string, index: string): string {
    progname + "." + index
  }

  function At(target: string): Instr {
    AInstr(target)
  }

  function Set(d: Dest, c: Comp): Instr {
    CInstr(d, c, NoJump)
  }

  /** `pushD`: RAM[SP] = D; SP = SP + 1. */
  function PushDCode(): seq<Instr> {
    [At("SP"), Set(DestA, RegM), Set(DestM, RegD), At("SP"), Set(DestM, MPlusOne)]
  }

  /** `pop15`: SP = SP - 1; RAM[RAM[R15]] = RAM[SP]. */
  function Pop15Code(): seq<Instr> {
    [At("SP"), Set(DestM, MMinusOne), Set(DestA, RegM), Set(DestD, RegM),
     At("R15"), Set(DestA, RegM), Set(DestM, RegD)]
  }

  /** `add`, `sub`, `and`, `or`: the second-from-top cell becomes `x op y`. */
  function BinaryCode(op: Comp): seq<Instr> {
    [At("SP"), Set(DestM, MMinusOne), Set(DestA, RegM), Set(DestD, RegM),
     Set(DestA, AMinusOne), Set(DestM, op)]
  }

  /** `neg`, `not`: the top cell is transformed in place. */
  function UnaryCode(op: Comp): seq<Instr> {
    [At("SP"), Set(DestA, RegM), Set(DestA, AMinusOne), Set(DestM, op)]
  }

  /** `eq`, `lt`, `gt`, starting at address `w`. The two jump targets are
      written as the source computes them: the word count when the
      A-instruction is emitted (`w + 6`, `w + 11`) plus 7 and plus 5. */
  function CompareCode(j: Jump, w: nat): seq<Instr> {
    [At("SP"), Set(DestM, MMinusOne), Set(DestA, RegM), Set(DestD, RegM),
     Set(DestA, AMinusOne), Set(DestD, MMinusD),
     At(NatToString(w + 6 + 7)), CInstr(NoDest, RegD, j),
     At("SP"), Set(DestA, MMinusOne), Set(DestM, Zero),
     At(NatToString(w + 11 + 5)), CInstr(NoDest, Zero, JMP),
     At("SP"), Set(DestA, MMinusOne), Set(DestM, MinusOne)]
  }

  /** The halting loop `close` appends after the label `(__FINIS__)`: a jump
      to that label, i.e. to the first of these two instructions. */
  function HaltCode(): seq<Instr> {
    [At("__FINIS__"), CInstr(NoDest, Zero, JMP)]
  }

  /** The first `if` chain of `writeArithmetic`: add, sub, neg. */
  function FirstChain(op: string): seq<Instr> {
    if op == "add" then BinaryCode(MPlusD)
    else if op == "sub" then BinaryCode(MMinusD)
    else if op == "neg" then UnaryCode(NegM)
    else []
  }

  /** The jump condition of each comparison operator. */
  function CompareJump(op: string): Jump {
    if op == "eq" then JEQ else if op == "lt" then JLT else JGT
  }

  /** The second `if` chain of `writeArithmetic`: and, or, not, eq, lt, gt. */
  function SecondChain(op: string, w: nat): seq<Instr> {
    if op == "and" then BinaryCode(MAndD)
    else if op == "or" then BinaryCode(MOrD)
    else if op == "not" then UnaryCode(NotM)
    else if op == "eq" || op == "lt" || op == "gt" then CompareCode(CompareJump(op), w)
    else []
  }

  /** Words added by `writeArithmetic` for each operator. */
  function ArithmeticWords(op: string): nat {
    if op == "add" || op == "sub" || op == "and" || op == "or" then 6
    else if op == "neg" || op == "not" then 4
    else if op == "eq" || op == "lt" || op == "gt" then 16
    else 0
  }

  /** Everything `writeArithmetic(line, op)` emits after its comment, when the
      writer's word count is `w`: the first chain, then the second chain
      starting wherever the first one stopped. */
  function ArithmeticCode(op: string, w: nat): (r: seq<Instr>)
    ensures |r| == ArithmeticWords(op)
  {
    FirstChain(op) + SecondChain(op, w + |FirstChain(op)|)
  }

  /** `push constant i`: D = i. */
  function ConstantLoad(index: string): seq<Instr> {
    [At(index), Set(DestD, RegA)]
  }

  /** `push local|argument|this|that i`: D = RAM[RAM[pointer] + i]. */
  function RelocatedLoad(pointer: string, index: string): seq<Instr> {
    [At(index), Set(DestD, RegA), At(pointer), Set(DestA, RegM), Set(DestA, DPlusA), Set(DestD, RegM)]
  }

  /** `push temp|pointer i`: D = RAM[base + i], with temp at 5 and pointer at 3. */
  function FixedLoad(base: string, index: string): seq<Instr> {
    [At(index), Set(DestD, RegA), At(base), Set(DestA, DPlusA), Set(DestD, RegM)]
  }

  /** `push static i`: D = the static variable. */
  function StaticLoad(symbol: string): seq<Instr> {
    [At(symbol), Set(DestD, RegM)]
  }

  /** `pop local|argument|this|that i`: R15 = RAM[pointer] + i. */
  function RelocatedAddress(pointer: string, index: string): seq<Instr> {
    [At(index), Set(DestD, RegA), At(pointer), Set(DestA, RegM), Set(DestD, DPlusA), At("R15"), Set(DestM, RegD)]
  }

  /** `pop temp|pointer i`: R15 = base + i. */
  function FixedAddress(base: string, index: string): seq<Instr> {
    [At(index), Set(DestD, RegA), At(base), Set(DestD, DPlusA), At("R15"), Set(DestM, RegD)]
  }

  /** `pop static i`: R15 = the static variable's address. */
  function StaticAddress(symbol: string): seq<Instr> {
    [At(symbol), Set(DestD, RegA), At("R15"), Set(DestM, RegD)]
  }

  /** The instructions that load the value `push segment index` pushes into D. */
  function PushSegmentCode(segment: string, index: string, progname: string): seq<Instr> {
    if segment == "constant" then ConstantLoad(index)
    else if segment in SegmentPointers then RelocatedLoad(SegmentPointers[segment], index)
    else if segment == "temp" then FixedLoad("5", index)
    else if segment == "pointer" then FixedLoad("3", index)
    else if segment == "static" then StaticLoad(StaticSymbol(progname, index))
    else []
  }

  /** The instructions that store the address `pop segment index` writes to in R15. */
  function PopSegmentCode(segment: string, index: string, progname: string): seq<Instr> {
    if segment in SegmentPointers then RelocatedAddress(SegmentPointers[segment], index)
    else if segment == "temp" then FixedAddress("5", index)
    else if segment == "pointer" then FixedAddress("3", index)
    else if segment == "static" then StaticAddress(StaticSymbol(progname, index))
    else []
  }

  /** Words added by `writePushPop` for each command and segment. */
  function PushPopWords(op: string, segment: string): nat {
    if op == "push" then
      if segment == "constant" || segment == "static" then 7
      else if segment in SegmentPointers then 11
      else if segment == "temp" || segment == "pointer" then 10
      else 0
    else if op == "pop" then
      if segment in SegmentPointers then 14
      else if segment == "temp" || segment == "pointer" then 13
      else if segment == "static" then 11
      else 0
    else 0
  }

  /** Everything `writePushPop(line, op, segment, index)` emits after its comment. */
  function PushPopCode(op: string, segment: string, index: string, progname: string): (r: seq<Instr>)
    ensures |r| == PushPopWords(op, segment)
  {
    if op == "push" then
      var load := PushSegmentCode(segment, index, progname);
      if load == [] then [] else load + PushDCode()
    else if op == "pop" then
      var address := PopSegmentCode(segment, index, progname);
      if address == [] then [] else address + Pop15Code()
    else []
  }

  /** The two `if` chains of `writeArithmetic` never both emit, and code is
      emitted exactly for the nine operator names. */
  lemma ExactlyOneChainEmits(op: string, w: nat)
    ensures FirstChain(op) == [] || SecondChain(op, w) == []
    ensures ArithmeticCode(op, w) != [] <==>
              op in ["add", "sub", "neg", "eq", "gt", "lt", "and", "or", "not"]
  {
  }

  /** Code is emitted for a push or pop exactly when the segment is one the
      writer knows for that direction; in particular `pop constant` (and any
      command other than push and pop) emits nothing beyond its comment. */
  lemma PushPopEmitsFor(op: string, segment: string, index: string, progname: string)
    ensures PushPopCode(op, segment, index, progname) != [] <==>
              (op == "push" && segment in ["constant", "local", "argument", "this", "that", "temp", "pointer", "static"]) ||
              (op == "pop" && segment in ["local", "argument", "this", "that", "temp", "pointer", "static"])
  {
  }

  /** `eq`, `lt` and `gt` emit exactly the comparison sequence, with a real
      jump condition. */
  lemma ComparisonCode(op: string, w: nat)
    requires op == "eq" || op == "lt" || op == "gt"
    ensures ArithmeticCode(op, w) == CompareCode(CompareJump(op), w)
    ensures CompareJump(op) != NoJump
  {
    assert FirstChain(op) == [];
  }

  /** The inline branch targets of the comparison sequence. Starting at
      address `w`, the first A-instruction loads `w + 13`, the address of the
      `@SP` that opens the true branch, and the second loads `w + 16`, the
      address just past the 16-word sequence. */
  lemma CompareCodeTargets(j: Jump, w: nat)
    ensures var c := CompareCode(j, w);
      && |c| == 16
      && c[6] == AInstr(NatToString(w + 13)) && c[7] == CInstr(NoDest, RegD, j)
      && c[13] == AInstr("SP")
      && c[11] == AInstr(NatToString(w + |c|)) && c[12] == CInstr(NoDest, Zero, JMP)
  {
  }

  // ---------------------------------------------------------------------
  // The literal lines each sequence renders to

  /** A sequence renders to the given lines when each of its instructions
      renders to the line in the same position. */
  lemma TextsOf(c: seq<Instr>, ts: seq<string>)
    requires |c| == |ts| && forall k :: 0 <= k < |c| ==> Render(c[k]) == ts[k]
    ensures Texts(c) == ts
  {
  }

  lemma PushDText()
    ensures Texts(PushDCode()) == ["  @SP", "  A=M", "  M=D", "  @SP", "  M=M+1"]
  {
    TextsOf(PushDCode(), ["  @SP", "  A=M", "  M=D", "  @SP", "  M=M+1"]);
  }

  lemma Pop15Text()
    ensures Texts(Pop15Code()) == ["  @SP", "  M=M-1", "  A=M", "  D=M", "  @R15", "  A=M", "  M=D"]
  {
    TextsOf(Pop15Code(), ["  @SP", "  M=M-1", "  A=M", "  D=M", "  @R15", "  A=M", "  M=D"]);
  }

  lemma HaltText()
    ensures Texts(HaltCode()) == ["  @__FINIS__", "  0;JMP"]
  {
    TextsOf(HaltCode(), ["  @__FINIS__", "  0;JMP"]);
  }

  /** The two-operand sequences: only the last line names the operator
      (`M=M+D`, `M=M-D`, `M=M&D`, `M=M|D`). */
  lemma BinaryText(op: Comp)
    ensures Texts(BinaryCode(op)) == ["  @SP", "  M=M-1", "  A=M", "  D=M", "  A=A-1"] + ["  M=" + CompText(op)]
  {
    var h := [At("SP"), Set(DestM, MMinusOne), Set(DestA, RegM), Set(DestD, RegM), Set(DestA, AMinusOne)];
    assert BinaryCode(op) == h + [Set(DestM, op)];
    PopTwoText(h);
    StoreText(op);
    TextsAppend(h, [Set(DestM, op)]);
  }

  /** The opening of the two-operand and comparison sequences: SP goes down
      and A points at the second cell from the top, with D the top. */
  lemma PopTwoText(c: seq<Instr>)
    requires c == [At("SP"), Set(DestM, MMinusOne), Set(DestA, RegM), Set(DestD, RegM), Set(DestA, AMinusOne)]
    ensures Texts(c) == ["  @SP", "  M=M-1", "  A=M", "  D=M", "  A=A-1"]
  {
    TextsOf(c, ["  @SP", "  M=M-1", "  A=M", "  D=M", "  A=A-1"]);
  }

  /** The one-operand sequences (`M=-M`, `M=!M`). */
  lemma UnaryText(op: Comp)
    ensures Texts(UnaryCode(op)) == ["  @SP", "  A=M", "  A=A-1"] + ["  M=" + CompText(op)]
  {
    var h := [At("SP"), Set(DestA, RegM), Set(DestA, AMinusOne)];
    assert UnaryCode(op) == h + [Set(DestM, op)];
    TextsOf(h, ["  @SP", "  A=M", "  A=A-1"]);
    StoreText(op);
    TextsAppend(h, [Set(DestM, op)]);
  }

  /** The closing store of the two-operand and one-operand sequences. */
  lemma StoreText(op: Comp)
    ensures Texts([Set(DestM, op)]) == ["  M=" + CompText(op)]
  {
    assert Render(Set(DestM, op)) == "  " + ("M" + "=") + CompText(op) == "  M=" + CompText(op);
  }

  /** The comparison sequence at address `w`, with its two computed targets
      and its jump condition. */
  lemma CompareText(j: Jump, w: nat)
    requires j != NoJump
    ensures Texts(CompareCode(j, w)) ==
      ["  @SP", "  M=M-1", "  A=M", "  D=M", "  A=A-1"] + ["  D=M-D"] +
      ["  @" + NatToString(w + 13), "  D;" + JumpText(j), "  @SP", "  A=M-1", "  M=0"] +
      ["  @" + NatToString(w + 16), "  0;JMP", "  @SP", "  A=M-1", "  M=-1"]
  {
    var c1 := [At("SP"), Set(DestM, MMinusOne), Set(DestA, RegM), Set(DestD, RegM),
               Set(DestA, AMinusOne), Set(DestD, MMinusD)];
    var c2 := [At(NatToString(w + 6 + 7)), CInstr(NoDest, RegD, j),
               At("SP"), Set(DestA, MMinusOne), Set(DestM, Zero)];
    var c3 := [At(NatToString(w + 11 + 5)), CInstr(NoDest, Zero, JMP),
               At("SP"), Set(DestA, MMinusOne), Set(DestM, MinusOne)];
    assert CompareCode(j, w) == c1 + c2 + c3;
    CompareSubText(c1);
    CompareFalseText(c2, j, w + 13);
    CompareTrueText(c3, w + 16);
    TextsAppend(c1, c2);
    TextsAppend(c1 + c2, c3);
  }

  lemma CompareSubText(c: seq<Instr>)
    requires c == [At("SP"), Set(DestM, MMinusOne), Set(DestA, RegM), Set(DestD, RegM),
                   Set(DestA, AMinusOne), Set(DestD, MMinusD)]
    ensures Texts(c) == ["  @SP", "  M=M-1", "  A=M", "  D=M", "  A=A-1"] + ["  D=M-D"]
  {
    var h := c[..5];
    assert c == h + [Set(DestD, MMinusD)];
    PopTwoText(h);
    TextsOf([Set(DestD, MMinusD)], ["  D=M-D"]);
    TextsAppend(h, [Set(DestD, MMinusD)]);
  }

  lemma CompareFalseText(c: seq<Instr>, j: Jump, t: nat)
    requires j != NoJump
    requires c == [At(NatToString(t)), CInstr(NoDest, RegD, j), At("SP"), Set(DestA, MMinusOne), Set(DestM, Zero)]
    ensures Texts(c) == ["  @" + NatToString(t), "  D;" + JumpText(j), "  @SP", "  A=M-1", "  M=0"]
  {
    TextsOf(c, ["  @" + NatToString(t), "  D;" + JumpText(j), "  @SP", "  A=M-1", "  M=0"]);
  }

  lemma CompareTrueText(c: seq<Instr>, t: nat)
    requires c == [At(NatToString(t)), CInstr(NoDest, Zero, JMP), At("SP"), Set(DestA, MMinusOne), Set(DestM, MinusOne)]
    ensures Texts(c) == ["  @" + NatToString(t), "  0;JMP", "  @SP", "  A=M-1", "  M=-1"]
  {
    TextsOf(c, ["  @" + NatToString(t), "  0;JMP", "  @SP", "  A=M-1", "  M=-1"]);
  }

  lemma ConstantLoadText(index: string)
    ensures Texts(ConstantLoad(index)) == ["  @" + index, "  D=A"]
  {
    TextsOf(ConstantLoad(index), ["  @" + index, "  D=A"]);
  }

  lemma RelocatedLoadText(pointer: string, index: string)
    ensures Texts(RelocatedLoad(pointer, index)) ==
      ["  @" + index, "  D=A", "  @" + pointer, "  A=M", "  A=D+A", "  D=M"]
  {
    TextsOf(RelocatedLoad(pointer, index), ["  @" + index, "  D=A", "  @" + pointer, "  A=M", "  A=D+A", "  D=M"]);
  }

  lemma FixedLoadText(base: string, index: string)
    ensures Texts(FixedLoad(base, index)) == ["  @" + index, "  D=A", "  @" + base, "  A=D+A", "  D=M"]
  {
    TextsOf(FixedLoad(base, index), ["  @" + index, "  D=A", "  @" + base, "  A=D+A", "  D=M"]);
  }

  lemma StaticLoadText(symbol: string)
    ensures Texts(StaticLoad(symbol)) == ["  @" + symbol, "  D=M"]
  {
    TextsOf(StaticLoad(symbol), ["  @" + symbol, "  D=M"]);
  }

  lemma RelocatedAddressText(pointer: string, index: string)
    ensures Texts(RelocatedAddress(pointer, index)) ==
      ["  @" + index, "  D=A", "  @" + pointer, "  A=M", "  D=D+A", "  @R15", "  M=D"]
  {
    TextsOf(RelocatedAddress(pointer, index),
            ["  @" + index, "  D=A", "  @" + pointer, "  A=M", "  D=D+A", "  @R15", "  M=D"]);
  }

  lemma FixedAddressText(base: string, index: string)
    ensures Texts(FixedAddress(base, index)) ==
      ["  @" + index, "  D=A", "  @" + base, "  D=D+A", "  @R15", "  M=D"]
  {
    TextsOf(FixedAddress(base, index), ["  @" + index, "  D=A", "  @" + base, "  D=D+A", "  @R15", "  M=D"]);
  }

  lemma StaticAddressText(symbol: string)
    ensures Texts(StaticAddress(symbol)) == ["  @" + symbol, "  D=A", "  @R15", "  M=D"]
  {
    TextsOf(StaticAddress(symbol), ["  @" + symbol, "  D=A", "  @R15", "  M=D"]);
  }

  /** Static symbols are distinct for distinct programs or indices: the last
      `.` of the symbol separates the program name from the index, as long as
      the index holds no `.` (a numeric index never does). */
  lemma StaticSymbolInjective(p1: string, i1: string, p2: string, i2: string)
    requires '.' !in i1 && '.' !in i2
    requires StaticSymbol(p1, i1) == StaticSymbol(p2, i2)
    ensures p1 == p2 && i1 == i2
  {
    var s := StaticSymbol(p1, i1);
    DotSeparates(p1, i1);
    DotSeparates(p2, i2);
    if |p1| != |p2| {
      assert false;
    }
    assert p1 == s[..|p1|] == p2;
    assert i1 == s[|p1| + 1..] == i2;
  }

  lemma DotSeparates(p: string, i: string)
    requires '.' !in i
    ensures var s := StaticSymbol(p, i);
      s[|p|] == '.' && forall k :: |p| < k < |s| ==> s[k] != '.'
  {
    var s := StaticSymbol(p, i);
    forall k | |p| < k < |s| ensures s[k] != '.' {
      assert s[k] == i[k - |p| - 1];
    }
  }

  lemma TextsCons(e: seq<Instr>)
    requires e != []
    ensures Texts(e) == [Render(e[0])] + Texts(e[1..])
    ensures Lines(e) == [Render(e[0]) + "\n"] + Lines(e[1..])
  {
    assert e == [e[0]] + e[1..];
    TextsAppend([e[0]], e[1..]);
    assert Texts([e[0]]) == [Render(e[0])];
    assert Lines([e[0]]) == [Render(e[0]) + "\n"];
  }

  lemma TextsAppend(x: seq<Instr>, y: seq<Instr>)
    ensures Texts(x + y) == Texts(x) + Texts(y)
    ensures Lines(x + y) == Lines(x) + Lines(y)
  {
    var t := Texts(x) + Texts(y);
    forall k | 0 <= k < |x + y| ensures Texts(x + y)[k] == t[k] {
      if k < |x| {
        assert (x + y)[k] == x[k];
      } else {
        assert (x + y)[k] == y[k - |x|];
      }
    }
    assert Texts(x + y) == t;
    NewlinesAppend(Texts(x), Texts(y));
  }

  lemma NewlinesAppend(a: seq<string>, b: seq<string>)
    ensures Newlines(a + b) == Newlines(a) + Newlines(b)
  {
    var n := Newlines(a) + Newlines(b);
    forall k | 0 <= k < |a + b| ensures Newlines(a + b)[k] == n[k] {
      if k < |a| {
        assert (a + b)[k] == a[k];
      } else {
        assert (a + b)[k] == b[k - |a|];
      }
    }
  }
}
