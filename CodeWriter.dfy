/**
 * The code writer: translates one parsed VM command at a time into Hack
 * assembly text, appended to the list of output lines `code`. `words` is the
 * address the next instruction will occupy; comments and labels take no
 * address. The ghost field `instrs` records every instruction written so
 * far, in address order, so that `instrs[a]` is the instruction at ROM
 * address `a` and the lemmas of StackEffects.dfy apply to it through
 * `Placed`. `Close` writes its halt loop without counting it, so the whole
 * program is `instrs + HaltCode()`, with the loop at address `words`.
 *
 * Where the source writes a run of `instruction` calls with literal text, the
 * model emits the list of Hack instructions those texts spell (`Emit`);
 * `Render` in Hack.dfy gives each instruction's text, and the lemmas in
 * Emission.dfy that end in `Text` state the literal lines of each sequence.
 */
module CodeWriter {
  import opened Text
  import opened Hack
  import opened Emission

  class CodeWriter {
    var code: seq<string>
    var words: nat
    ghost var instrs: seq<Instr>
    const progname: string

    /** `words` always counts exactly the instructions written. */
    ghost predicate Valid()
      reads this
    {
      words == |instrs|
    }

    constructor (progname: string)
      ensures Valid()
      ensures code == [] && words == 0 && instrs == []
      ensures this.progname == progname
    {
      code := [];
      words := 0;
      instrs := [];
      this.progname := progname;
    }

    /** `instruction`: the text of one real instruction on a line of its own,
        and one more word. */
    method Instruction(i: Instr)
      requires Valid()
      modifies this
      ensures Valid()
      ensures code == old(code) + [Render(i) + "\n"]
      ensures instrs == old(instrs) + [i]
      ensures words == old(words) + 1
    {
      code := code + [Render(i) + "\n"];
      instrs := instrs + [i];
      words := words + 1;
    }

    /** A run of `instruction` calls, one for each element of `e`, in order:
        the source writes such runs out line by line. The run occupies the
        ROM from the old word count on. */
    method Emit(e: seq<Instr>)
      requires Valid()
      modifies this
      ensures Valid()
      ensures code == old(code) + Lines(e)
      ensures instrs == old(instrs) + e
      ensures words == old(words) + |e|
      ensures Placed(instrs, old(words), e)
      decreases |e|
    {
      if e != [] {
        ghost var c0, i0 := code, instrs;
        Instruction(e[0]);
        Emit(e[1..]);
        TextsCons(e);
        AppendAssoc(c0, [Render(e[0]) + "\n"], Lines(e[1..]));
        AppendAssoc(i0, [e[0]], e[1..]);
        assert [e[0]] + e[1..] == e;
      }
      PlacedAppend(old(instrs), e);
    }

    /** Two runs of `instruction` calls, one after the other. */
    method Emit2(e1: seq<Instr>, e2: seq<Instr>)
      requires Valid()
      modifies this
      ensures Valid()
      ensures code == old(code) + Lines(e1 + e2)
      ensures instrs == old(instrs) + (e1 + e2)
      ensures words == old(words) + |e1 + e2|
      ensures Placed(instrs, old(words), e1 + e2)
    {
      Emit(e1);
      Emit(e2);
      TextsAppend(e1, e2);
      AppendAssoc(old(code), Lines(e1), Lines(e2));
      AppendAssoc(old(instrs), e1, e2);
      PlacedAppend(old(instrs), e1 + e2);
    }

    /** `writeComment`: a line that is not an instruction. */
    method WriteComment(line: string)
      requires Valid()
      modifies this
      ensures Valid()
      ensures code == old(code) + [line + "\n"]
      ensures instrs == old(instrs) && words == old(words)
    {
      code := code + [line + "\n"];
    }

    /** `pushD`: push the D register. */
    method PushD()
      requires Valid()
      modifies this
      ensures Valid()
      ensures code == old(code) + Lines(PushDCode())
      ensures instrs == old(instrs) + PushDCode()
      ensures words == old(words) + |PushDCode()|
    {
      Emit(PushDCode());
    }

    /** `pop15`: pop into the cell whose address R15 holds. */
    method Pop15()
      requires Valid()
      modifies this
      ensures Valid()
      ensures code == old(code) + Lines(Pop15Code())
      ensures instrs == old(instrs) + Pop15Code()
      ensures words == old(words) + |Pop15Code()|
    {
      Emit(Pop15Code());
    }

    /** `writeArithmetic`: the comment `// [w] line`, then the operator's
        code, placed at address `w`. The source's two `if` chains
        (add/sub/neg, then and/or/not/eq/lt/gt) are `FirstChain` and
        `SecondChain`; the second chain's jump targets come from the word
        count after the first. */
    method WriteArithmetic(line: string, op: string)
      requires Valid()
      modifies this
      ensures Valid()
      ensures code == old(code) + [CommentLine(old(words), line) + "\n"] +
                      Lines(ArithmeticCode(op, old(words)))
      ensures instrs == old(instrs) + ArithmeticCode(op, old(words))
      ensures Placed(instrs, old(words), ArithmeticCode(op, old(words)))
      ensures words == old(words) + ArithmeticWords(op)
    {
      WriteComment(CommentLine(words, line));
      var first := FirstChain(op);
      var second := SecondChain(op, words + |first|);
      ghost var all := ArithmeticCode(op, words);
      assert first + second == all;
      Emit2(first, second);
      AppendAssoc(old(code), [CommentLine(old(words), line) + "\n"], Lines(all));
    }

    /** `writePushPop`: the comment `// [w] line`, then the command's code,
        placed at address `w`. */
    method WritePushPop(line: string, op: string, segment: string, index: string)
      requires Valid()
      modifies this
      ensures Valid()
      ensures code == old(code) + [CommentLine(old(words), line) + "\n"] +
                      Lines(PushPopCode(op, segment, index, progname))
      ensures instrs == old(instrs) + PushPopCode(op, segment, index, progname)
      ensures Placed(instrs, old(words), PushPopCode(op, segment, index, progname))
      ensures words == old(words) + PushPopWords(op, segment)
    {
      WriteComment(CommentLine(words, line));
      if op == "push" {
        WritePush(segment, index);
      } else if op == "pop" {
        WritePop(segment, index);
      }
      PlacedAppend(old(instrs), PushPopCode(op, segment, index, progname));
    }

    /** The `push` branch of `writePushPop`: the value into D, then `pushD`. */
    method WritePush(segment: string, index: string)
      requires Valid()
      modifies this
      ensures Valid()
      ensures code == old(code) + Lines(PushPopCode("push", segment, index, progname))
      ensures instrs == old(instrs) + PushPopCode("push", segment, index, progname)
      ensures words == old(words) + PushPopWords("push", segment)
    {
      if segment == "constant" {
        Emit2(ConstantLoad(index), PushDCode());
      } else if segment in SegmentPointers {
        Emit2(RelocatedLoad(SegmentPointers[segment], index), PushDCode());
      } else if segment == "temp" {
        Emit2(FixedLoad("5", index), PushDCode());
      } else if segment == "pointer" {
        Emit2(FixedLoad("3", index), PushDCode());
      } else if segment == "static" {
        Emit2(StaticLoad(StaticSymbol(progname, index)), PushDCode());
      }
    }

    /** The `pop` branch of `writePushPop`: the target address into R15, then
        `pop15`. */
    method WritePop(segment: string, index: string)
      requires Valid()
      modifies this
      ensures Valid()
      ensures code == old(code) + Lines(PushPopCode("pop", segment, index, progname))
      ensures instrs == old(instrs) + PushPopCode("pop", segment, index, progname)
      ensures words == old(words) + PushPopWords("pop", segment)
    {
      if segment in SegmentPointers {
        Emit2(RelocatedAddress(SegmentPointers[segment], index), Pop15Code());
      } else if segment == "temp" {
        Emit2(FixedAddress("5", index), Pop15Code());
      } else if segment == "pointer" {
        Emit2(FixedAddress("3", index), Pop15Code());
      } else if segment == "static" {
        Emit2(StaticAddress(StaticSymbol(progname, index)), Pop15Code());
      }
    }

    /** `close`, without the file output: the halting loop. Its two
        instructions are appended directly, not through `Instruction`, so
        `words` and `instrs` are left as they were. */
    method Close()
      requires Valid()
      modifies this
      ensures Valid()
      ensures code == old(code) + [CommentLine(words, "Infinite loop") + "\n", "(__FINIS__)\n"] +
                      Lines(HaltCode())
      ensures instrs == old(instrs) && words == old(words)
      ensures Placed(instrs + HaltCode(), words, HaltCode())
    {
      PlacedAppend(instrs, HaltCode());
      code := code + [CommentLine(words, "Infinite loop") + "\n"];
      code := code + ["(__FINIS__)\n"];
      code := code + [Render(At("__FINIS__")) + "\n"];
      code := code + [Render(CInstr(NoDest, Zero, JMP)) + "\n"];
    }
  }
}
