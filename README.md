# HackTranslator core in Dafny

HackTranslator translates programs for the stack-based virtual machine of
"The Elements of Computing Systems" (chapters 7 and 8) into assembly for the
Hack computer. This project models its two core classes:

- `Parser` (Parser.py) reads a `.vm` file line by line. For each line it
  strips the trailing `//` comment and the surrounding whitespace, splits
  the command into fields, and classifies it as `C_COMMENT`,
  `C_ARITHMETIC`, `C_PUSH`/`C_POP`, and so on, or `C_ERROR`.
- `CodeWriter` (CodeWriter.py) appends, for each arithmetic or push/pop
  command, a comment `// [w] line` (where `w` is the address of the next
  instruction) and the Hack instructions that carry the command out. `close`
  appends the closing infinite loop.

The model has seven modules:

| file | module | what it holds |
|---|---|---|
| Text.dfy | `Text` | the Python string operations the translator uses: `rstrip`, `strip`, `split()`, `split('//')[0]`, `isnumeric`, printing an `int` |
| Spacing.dfy | `Spacing` | how `split()` separates fields by any amount of any whitespace |
| Hack.dfy | `Hack` | the Hack instructions the writer emits, their exact text (`Render`), and a 16-bit Hack machine (`Exec`, `Step`, `Run`) |
| Emission.dfy | `Emission` | the instruction sequences each writer method emits, as functions of the command and of the start address, and the literal lines they render to |
| CodeWriter.dfy | `CodeWriter` | class `CodeWriter`, whose field `code` is the list of output lines and `words` the word count; its methods are proved to append exactly the `Emission` sequences |
| StackEffects.dfy | `StackEffects` | what those sequences do to the VM stack when run on the Hack machine |
| Parser.dfy | `Parser` | the classification of a line (`Classify`), class `Parser` (the line cursor and `cmdParts`), and a round trip from command values to text and back |

`CodeWriter` also keeps a ghost list `instrs` of the instructions written so
far (`instrs[a]` is the instruction at ROM address `a`); it is tied to
`words` by the class invariant `Valid()`. The machine lemmas take the program
as a list of `Hack.Instr` placed at an address (`Placed`), and the writer's
methods state that the code they emit is `Placed` in `instrs` at the old word
count, so those lemmas apply to the writer's own output. How the assembler resolves symbols is a
parameter `sym`. It must map the predefined symbols (`SP`, `LCL`, `ARG`,
`THIS`, `THAT`, `R15`) to their addresses; `StandardSymbols` states this.

## Model

| member | source | states |
|---|---|---|
| CodeWriter.CodeWriter.constructor | CodeWriter.py:6-11 | a new writer has no lines, word count 0, and keeps the program name used for static symbols |
| CodeWriter.CodeWriter.Instruction | CodeWriter.py:176-179 | appends the instruction's text followed by a newline, records the instruction at address `words`, and adds exactly one word, keeping the word count equal to the number of instructions written |
| CodeWriter.CodeWriter.Emit | CodeWriter.py:176-179 | a run of `instruction` calls appends the lines of the given instructions in order, adds one word per instruction, and places the instructions in the ROM from the old word count on |
| CodeWriter.CodeWriter.WriteComment | CodeWriter.py:199-204 | appends the line and a newline; the word count is unchanged, since comments occupy no address |
| CodeWriter.CodeWriter.PushD | CodeWriter.py:181-187 | appends the five lines of `pushD` and adds five words |
| CodeWriter.CodeWriter.Pop15 | CodeWriter.py:189-197 | appends the seven lines of `pop15` and adds seven words |
| CodeWriter.CodeWriter.WriteArithmetic | CodeWriter.py:13-107 | appends the comment `// [w] line` for the word count `w` before the call, then the operator's code from both `if` chains, placed in the ROM at address `w`; the jump targets of `eq`/`lt`/`gt` are computed from that word count; the count grows by 6, 4, 16 or 0 words depending on the operator |
| CodeWriter.CodeWriter.WritePushPop | CodeWriter.py:109-174 | appends the comment `// [w] line`, then the code for the command and segment, placed in the ROM at address `w`; nothing else for an unknown command or segment (including `pop constant`) |
| CodeWriter.CodeWriter.WritePush | CodeWriter.py:112-142 | branch by branch in the source's order, the segment's load of the value into D followed by `pushD`; nothing for an unknown segment |
| CodeWriter.CodeWriter.WritePop | CodeWriter.py:143-174 | branch by branch in the source's order, the segment's store of the target address in R15 followed by `pop15`; nothing for `constant` or an unknown segment |
| CodeWriter.CodeWriter.Close | CodeWriter.py:206-214 | appends the comment, the label `(__FINIS__)`, `@__FINIS__` and `0;JMP` as plain lines, so the word count is unchanged; the halt loop sits at address `words` of the program `instrs + HaltCode()` |
| Emission.ArithmeticCode | CodeWriter.py:19-107 | the code of the two `if` chains, whose length is the word count of the operator |
| Emission.PushPopCode | CodeWriter.py:112-174 | the push/pop code, whose length is the word count of the command and segment |
| Emission.ExactlyOneChainEmits | CodeWriter.py:19-107 | characterises the definitions `FirstChain` (add, sub, neg) and `SecondChain` (and, or, not, eq, lt, gt): the two `if` chains never both emit code, and code is emitted exactly for the nine arithmetic operators |
| Emission.PushPopEmitsFor | CodeWriter.py:112-174 | code is emitted exactly for `push` to any of the eight segments and for `pop` to the seven segments other than `constant` |
| Emission.ComparisonCode | CodeWriter.py:57-107 | `eq`, `lt` and `gt` emit the same sequence, differing only in the jump condition `JEQ`, `JLT` or `JGT` |
| Emission.CompareCodeTargets | CodeWriter.py:57-73 | of the 16 instructions starting at address `w`, the first branch target is `w + 13` (the code that pushes true) and the second is `w + 16` (just past the sequence) |
| Emission.PushDText | CodeWriter.py:181-187 | the literal lines of `pushD` |
| Emission.Pop15Text | CodeWriter.py:189-197 | the literal lines of `pop15` |
| Emission.HaltText | CodeWriter.py:213-214 | the literal lines of the closing loop |
| Emission.BinaryText | CodeWriter.py:19-51 | the literal lines of `add`, `sub`, `and` and `or`, which differ only in the last line's operator |
| Emission.UnaryText | CodeWriter.py:33-56 | the literal lines of `neg` and `not` |
| Emission.CompareText | CodeWriter.py:57-107 | the literal lines of `eq`, `lt` and `gt` at address `w`: `@` of `w + 13` before the conditional jump and `@` of `w + 16` before `0;JMP` |
| Emission.ConstantLoadText | CodeWriter.py:113-116 | the lines `@index` and `D=A` of `push constant` |
| Emission.RelocatedLoadText | CodeWriter.py:117-124 | the lines of `push` from local, argument, this or that, with the segment's base-pointer symbol |
| Emission.FixedLoadText | CodeWriter.py:125-138 | the lines of `push` from temp (`@5`) or pointer (`@3`) |
| Emission.StaticLoadText | CodeWriter.py:139-142 | the lines `@progname.index` and `D=M` of `push static` |
| Emission.RelocatedAddressText | CodeWriter.py:144-152 | the lines of `pop` to local, argument, this or that, up to `M=D` saving the address in R15 |
| Emission.FixedAddressText | CodeWriter.py:153-168 | the lines of `pop` to temp or pointer, up to saving the address in R15 |
| Emission.StaticAddressText | CodeWriter.py:169-174 | the lines of `pop static`, up to saving the address in R15 |
| Emission.StaticSymbolInjective | CodeWriter.py:139-141 | the symbols `progname.index` are distinct for distinct program names or indices, as long as the index holds no `.` |
| StackEffects.PushDEffect | CodeWriter.py:181-187 | run on the machine, `pushD` stores D at `RAM[SP]`, increments SP and leaves D unchanged |
| StackEffects.Pop15Effect | CodeWriter.py:189-197 | `pop15` decrements SP and stores the old top of the stack at the address held in R15 |
| StackEffects.BinaryEffect | CodeWriter.py:19-51 | `add`, `sub`, `and` and `or` replace the second cell from the top by `x op y` (16-bit wrap-around, bitwise on the 16-bit patterns) and decrement SP |
| StackEffects.UnaryEffect | CodeWriter.py:33-56 | `neg` and `not` replace the top cell by `-y` (mod 2^16) or its bitwise complement; SP is unchanged |
| StackEffects.CompareEffect | CodeWriter.py:57-107 | `eq`, `lt` and `gt` replace the second cell from the top by -1 (true) or 0 (false), according to their jump condition on `x - y` mod 2^16, in 11 or 13 cycles; they then reach the address just past the sequence and decrement SP |
| StackEffects.SignedSub | CodeWriter.py:63 | when the difference fits in 16 bits, `D=M-D` is the two's-complement difference |
| StackEffects.CompareMeaning | CodeWriter.py:57-107 | when `x - y` does not overflow, the jump condition holds exactly when `x = y`, `x < y` or `x > y` on the signed values |
| StackEffects.CompareOverflow | CodeWriter.py:74-89 | when `x - y` overflows, `lt` gives a wrong answer: with `x = 20000` and `y = -20000` the jump for "less than" is taken |
| StackEffects.PushEffect | CodeWriter.py:112-142 | `push segment i` stores the segment's value at `RAM[SP]` and increments SP. The value is `i` for `constant`, `RAM[base + i]` for local/argument/this/that, `RAM[5 + i]` for temp, `RAM[3 + i]` for pointer, and the static variable's cell for static |
| StackEffects.PopEffect | CodeWriter.py:143-174 | `pop segment i` decrements SP and stores the old top at the segment address (same addresses as push); R15 is left holding that address |
| StackEffects.PopThenPush | CodeWriter.py:109-174 | `pop s i` followed by `push s i` restores SP and the stack, and leaves the segment cell holding a copy of the top, provided the cell is not SP, R15 or the segment's own base pointer |
| StackEffects.HaltLoops | CodeWriter.py:212-214 | with `(__FINIS__)` bound to the loop's address, the closing loop returns to its start every two cycles for ever, without changing RAM or D |
| Text.RStrip | Parser.py:76 | `rstrip()`: the longest prefix that does not end in whitespace; everything cut off is whitespace |
| Text.StripSpec | Parser.py:82 | `strip()` is empty exactly for all-whitespace input; otherwise it is a factor with whitespace cut off on both sides and none left at either end |
| Text.BeforeComment | Parser.py:82 | `split('//')[0]`: the longest prefix that contains no `//`, followed by `//` or by the end of the line |
| Text.BeforeCommentUnique | Parser.py:82 | that characterisation determines the prefix uniquely |
| Text.Fields | Parser.py:86 | `split()` yields non-empty fields that contain no whitespace |
| Text.FieldsOfJoin | Parser.py:86 | `split()` of fields joined by blanks returns the fields |
| Spacing.FieldsOfSpaced | Parser.py:86 | `split()` of words with any non-empty whitespace between them, and any whitespace before and after, returns the words |
| Text.FieldsKeepNonSpace | Parser.py:86 | the fields, concatenated, are exactly the line's non-whitespace characters in order |
| Text.NatToStringRoundTrip | CodeWriter.py:18 | the decimal text of a number reads back as that number (`int` of the numeral used in `@{...}` and `// [w]`) |
| Text.NatToStringInjective | CodeWriter.py:18 | distinct numbers print as distinct numerals |
| Parser.CommandFieldsSpec | Parser.py:82-86 | the fields of the stripped command are the fields of the line before its comment, and there are none exactly when the stripped command is empty |
| Parser.ClassifyByFields | Parser.py:79-86 | characterises the definition `Classify`: a line's type is `C_COMMENT` when it has no fields before its comment, and otherwise the type of those fields |
| Parser.TypeOfFieldsSpec | Parser.py:87-122 | characterises the definition `TypeOfFields`, which follows the source's branches: each type and each error reason, as an exact condition on the fields. One field gives arithmetic, return or error. Two give label, goto, if-goto or error. Three are checked in order: a non-numeric index, then an unknown segment, then the keyword. Four or more fields give no type |
| Parser.ClassifyRStrip | Parser.py:76 | the `rstrip` that `advance` applies does not change a line's fields or type |
| Parser.ParseFormat | Parser.py:79-122 | parsing the canonical text of a well-formed command, optionally followed by a `//` comment, yields that command's fields and index and its expected type |
| Parser.FunctionNameMustBeSegment | Parser.py:105-118 | a `function` or `call` line is accepted only when its name is a memory segment, so `function Main.main 2` is `C_ERROR` |
| Parser.Parser.constructor | Parser.py:22-28 | the parser starts before the first line, with no current command, and every line still unread |
| Parser.Parser.HasMoreLines | Parser.py:66-68 | true exactly when some line is still unread |
| Parser.Parser.Advance | Parser.py:70-77 | the next line, without trailing whitespace, becomes the current command, and one line fewer remains; callable only while lines remain |
| Parser.Parser.CommandType | Parser.py:79-122 | returns the line's type; records the fields when the command is not blank, and otherwise keeps the old fields |
| Parser.Parser.Arg0 | Parser.py:124-129 | the first recorded field, non-empty and free of whitespace |
| Parser.Parser.Arg1 | Parser.py:131-136 | the second recorded field, non-empty and free of whitespace |
| Parser.Parser.Arg2 | Parser.py:138-143 | the third recorded field, non-empty and free of whitespace |
| Parser.ReadFormat | Parser.py:70-122 | the `rstrip` of `advance` applied to the text of a well-formed command leaves a line that is not blank, whose fields are the command's and whose type is the expected one |
| Parser.ReadCommand | Parser.py:70-122 | `advance` and then `commandType` on the text of a well-formed command give its expected type and record its fields |

## Left out

- File input and output are outside the model:
  - the command line, the file-name checks and reading the file in `Parser.__init__`: the constructor takes the file's lines;
  - writing the output file in `close`: `code` is the output.
- The diagnostics `commandType` prints are not modelled as output. `C_ERROR` carries the reason instead (invalid command, index not numeric, invalid segment).
- vmt.py, the driver that connects the parser to the writer, is not part of this model. It is written against a later interface, with methods the modelled writer does not have (`setFilename`, `writeLabel` and others).
- Text.IsNumeric: accepts ASCII decimal digits only. Python's `str.isnumeric` also accepts other Unicode numeric characters, such as superscripts and non-Latin digits.
- Parser.Parser.Arg0: requires a recorded field. In the source, calling it before any non-blank command raises an exception, because `cmdParts` does not exist yet. The model starts `cmdParts` as the empty list. The same holds for Arg1 and Arg2, which the source would also fail on when there are fewer fields.
- Parser.Parser.Advance: requires a remaining line, as its documentation demands. In the source the call raises an index error otherwise.
- Hack.Resolve: an A-instruction value is the numeral modulo 2^16 or the symbol's address from the parameter `sym`. A Hack A-instruction carries only 15 bits, so the model accepts numerals it cannot hold: `push constant 40000` loads 40000 in the model (PushEffect), while the Hack assembler accepts only 0 to 32767. How the assembler allocates variables (including the static symbols `progname.index`) is not modelled; a missing symbol reads as 0.
- StackEffects.CompareEffect: requires the sequence to end below address 2^15 (32768), so that its two inline jump targets fit in the 15-bit value of a Hack A-instruction. CompareShapeHead, CompareShapeBranches and CompareCodeEffect carry the same bound.
- StackEffects.CompareMeaning: applies only when `x - y` does not overflow 16 bits. The emitted code compares through that difference, so with overflow `lt` and `gt` answer wrongly; CompareOverflow shows an instance. The model states this as the behaviour of the code as written.
- StackEffects.BinaryEffect: states the stack and SP after the command, not the scratch registers A and D. UnaryEffect, CompareEffect, PushEffect and PopEffect do the same.
- StackEffects.PopEffect: R15 is overwritten with the target address, and PopThenPush excludes targets at SP, R15 or the base pointer. A pop into those cells is covered by PopEffect alone.
- The bitwise operations are defined on the numbers 0 to 0xFFFF: `and` bit by bit, `not` as `0xFFFF - x`, and `or` by De Morgan's law.
- The program counter is unbounded, and the effect lemmas assume the code lies in the ROM at the running address (`Placed`).
- The source writes each instruction as a literal string. The model builds the same strings from instruction values (`Hack.Render`), and the `…Text` lemmas of `Emission` state the literal lines of every sequence. `Instruction` therefore takes an instruction value rather than arbitrary text.

## Notes on the code as written

- `function` and `call` lines pass the same checks as `push` and `pop`: the third field must be numeric, and the second must be one of the memory segments (Parser.py:105-118). So `function Main.main 2` is `C_ERROR`.
- A line of four or more fields reaches the end of `commandType` without a `return`, so it produces no command type (`Unclassified` in the model).
- A blank or comment-only line leaves the fields of the previous command in place (Parser.py:82-86).
- The parser accepts `pop constant i` as `C_POP`, but the writer emits only its comment.
- Indices of `temp` and `pointer` are not range-checked by either class (Parser.py:105-111, CodeWriter.py:125-138 and 153-168): `pop pointer 5` writes RAM[8] and `push temp 9` reads RAM[14]. The model follows the code; `PushEffect` and `PopEffect` give the address `5 + i` or `3 + i` for every `i`.
- The writer never checks that the inline jump targets `words + 7` and `words + 5` (CodeWriter.py:64 and 69, 81 and 86, 98 and 103) stay below 32768, the largest value an A-instruction can hold. A comparison placed near the end of a 32K ROM would get targets the assembler rejects.
- The parser also classifies label, goto, if-goto, function, call and return lines, but the modelled writer has no code for them.
