/**
 * The parser of one `.vm` file: a cursor over the file's lines, the
 * classification of the current line into a command type, and access to
 * the current command's fields. The classification is the pure function
 * `Classify`; the class `Parser` keeps the cursor and the fields of the last
 * command that was not blank.
 */
module Parser {
  import opened Text

  /** The nine arithmetic-logical commands, in the source's order. */
  const ArithmeticCommands: seq<string> := ["add", "sub", "neg", "eq", "gt", "lt", "and", "or", "not"]

  /** The eight memory segments, in the source's order. */
  const MemorySegments: seq<string> :=
    ["argument", "local", "static", "constant", "this", "that", "pointer", "temp"]

  /** Why a line is `C_ERROR`; each reason is a different diagnostic. */
  datatype ErrorReason = InvalidCommand | IndexNotNumeric | InvalidSegment

  /** The command types, `C_COMMENT` to `C_CALL` and `C_ERROR`. A line of
      four or more fields gets no type at all (`Unclassified`): the source
      falls off the end of `commandType` and returns `None`. */
  datatype CommandType =
    | CComment | CArithmetic | CReturn
    | CLabel | CGoto | CIf
    | CPush | CPop | CFunction | CCall
    | CError(reason: ErrorReason)
    | Unclassified

  /** The command proper: the line without its trailing `//` comment, with
      surrounding whitespace stripped. */
  function Command(line: string): string {
    Strip(BeforeComment(line))
  }

  /** The command's whitespace-separated fields. */
  function CommandFields(line: string): seq<string> {
    Fields(Command(line))
  }

  /** The type of a command from its fields: the number of fields decides
      the family, then the keyword, and for three fields the index is
      checked before the segment and both before the keyword. */
  function TypeOfFields(parts: seq<string>): CommandType {
    if |parts| == 1 then
      if parts[0] in ArithmeticCommands then CArithmetic
      else if parts[0] == "return" then CReturn
      else CError(InvalidCommand)
    else if |parts| == 2 then
      if parts[0] == "label" then CLabel
      else if parts[0] == "goto" then CGoto
      else if parts[0] == "if-goto" then CIf
      else CError(InvalidCommand)
    else if |parts| == 3 then
      if !IsNumeric(parts[2]) then CError(IndexNotNumeric)
      else if parts[1] !in MemorySegments then CError(InvalidSegment)
      else if parts[0] == "push" then CPush
      else if parts[0] == "pop" then CPop
      else if parts[0] == "function" then CFunction
      else if parts[0] == "call" then CCall
      else CError(InvalidCommand)
    else Unclassified
  }

  /** `commandType` of a current command `cmd`. */
  function Classify(cmd: string): CommandType {
    if Command(cmd) == [] then CComment else TypeOfFields(CommandFields(cmd))
  }

  /** Fields of the stripped command are those of the line before its
      comment, and there are none exactly when that part is blank. */
  lemma CommandFieldsSpec(line: string)
    ensures CommandFields(line) == Fields(BeforeComment(line))
    ensures Command(line) == [] <==> CommandFields(line) == []
  {
    FieldsOfStrip(BeforeComment(line));
    StripEmpty(BeforeComment(line));
    FieldsEmpty(BeforeComment(line));
  }

  /** The type of a line is the type of the fields before its comment,
      and `C_COMMENT` exactly when there are none. */
  lemma ClassifyByFields(line: string)
    ensures var parts := Fields(BeforeComment(line));
      Classify(line) == if parts == [] then CComment else TypeOfFields(parts)
  {
    CommandFieldsSpec(line);
  }

  /** The classification of non-empty fields, family by family and reason by
      reason: the field count decides the family (four or more fields get no
      type), and of three fields a non-numeric index is reported before an
      unknown segment, and both before an unknown keyword. */
  lemma TypeOfFieldsSpec(parts: seq<string>)
    ensures TypeOfFields(parts) != CComment
    ensures TypeOfFields(parts) == Unclassified <==> |parts| == 0 || |parts| > 3
    ensures TypeOfFields(parts) == CArithmetic <==> |parts| == 1 && parts[0] in ArithmeticCommands
    ensures TypeOfFields(parts) == CReturn <==> parts == ["return"]
    ensures TypeOfFields(parts) == CLabel <==> |parts| == 2 && parts[0] == "label"
    ensures TypeOfFields(parts) == CGoto <==> |parts| == 2 && parts[0] == "goto"
    ensures TypeOfFields(parts) == CIf <==> |parts| == 2 && parts[0] == "if-goto"
    ensures TypeOfFields(parts) == CError(IndexNotNumeric) <==> |parts| == 3 && !IsNumeric(parts[2])
    ensures TypeOfFields(parts) == CError(InvalidSegment) <==>
              |parts| == 3 && IsNumeric(parts[2]) && parts[1] !in MemorySegments
    ensures TypeOfFields(parts) == CError(InvalidCommand) <==>
              || (|parts| == 1 && parts[0] !in ArithmeticCommands && parts[0] != "return")
              || (|parts| == 2 && parts[0] !in ["label", "goto", "if-goto"])
              || (|parts| == 3 && IsNumeric(parts[2]) && parts[1] in MemorySegments &&
                  parts[0] !in ["push", "pop", "function", "call"])
    ensures TypeOfFields(parts) in {CPush, CPop, CFunction, CCall} ==>
              && |parts| == 3 && parts[1] in MemorySegments && IsNumeric(parts[2])
              && parts[0] == (match TypeOfFields(parts)
                              case CPush => "push" case CPop => "pop"
                              case CFunction => "function" case _ => "call")
  {
    if |parts| == 1 {
      assert parts == ["return"] <==> parts[0] == "return";
    }
  }

  /** Trailing whitespace cannot complete a `//`, so it either stays in the
      part before the comment or is cut off with the comment. */
  lemma BeforeCommentTrailingSpace(r: string, sp: string)
    requires AllSpace(sp)
    ensures || BeforeComment(r + sp) == BeforeComment(r)
            || (BeforeComment(r) == r && BeforeComment(r + sp) == r + sp)
  {
    var s, b := r + sp, BeforeComment(r);
    if |b| < |r| {
      assert s[..|b|] == b;
      assert s[|b|] == '/' && s[|b| + 1] == '/';
      BeforeCommentUnique(s, b);
    } else {
      assert s[..|s|] == s;
      forall k | 0 <= k < |s| && k + 1 < |s| ensures !(s[k] == '/' && s[k + 1] == '/') {
        if k + 1 < |r| {
          assert s[k] == r[k] && s[k + 1] == r[k + 1];
        } else if k + 1 == |r| {
          assert IsSpace(sp[0]) && s[k + 1] == sp[0];
        } else {
          assert IsSpace(sp[k - |r|]) && s[k] == sp[k - |r|];
        }
      }
      BeforeCommentUnique(s, s);
    }
  }

  /** The `rstrip` of `advance` does not change how a line parses. */
  lemma ClassifyRStrip(line: string)
    ensures CommandFields(RStrip(line)) == CommandFields(line)
    ensures Classify(RStrip(line)) == Classify(line)
  {
    var r, sp := RStripSplit(line);
    BeforeCommentTrailingSpace(r, sp);
    if BeforeComment(line) != BeforeComment(r) {
      FieldsTrailingSpace(r, sp);
    }
    CommandFieldsSpec(line);
    CommandFieldsSpec(r);
  }

  // ---------------------------------------------------------------------
  // Commands as values, and the parse of their text

  /** The commands of the VM language, with names as strings and indices as
      numbers. */
  datatype VmCommand =
    | Arithmetic(op: string)
    | Push(segment: string, index: nat)
    | Pop(segment: string, index: nat)
    | Label(name: string)
    | Goto(name: string)
    | IfGoto(name: string)
    | Function(name: string, nVars: nat)
    | Call(name: string, nArgs: nat)
    | Return

  /** A name that can stand as a field: non-empty, no whitespace, and no
      `/` (which could start a comment). */
  predicate Name(s: string) {
    s != [] && NoSpace(s) && forall k :: 0 <= k < |s| ==> s[k] != '/'
  }

  predicate WellFormed(c: VmCommand) {
    match c
    case Arithmetic(op) => op in ArithmeticCommands
    case Push(s, _) => Name(s)
    case Pop(s, _) => Name(s)
    case Label(l) => Name(l)
    case Goto(l) => Name(l)
    case IfGoto(l) => Name(l)
    case Function(f, _) => Name(f)
    case Call(f, _) => Name(f)
    case Return => true
  }

  /** The fields a command is written with. */
  function Tokens(c: VmCommand): seq<string> {
    match c
    case Arithmetic(op) => [op]
    case Push(s, i) => ["push", s, NatToString(i)]
    case Pop(s, i) => ["pop", s, NatToString(i)]
    case Label(l) => ["label", l]
    case Goto(l) => ["goto", l]
    case IfGoto(l) => ["if-goto", l]
    case Function(f, n) => ["function", f, NatToString(n)]
    case Call(f, n) => ["call", f, NatToString(n)]
    case Return => ["return"]
  }

  /** The canonical text of a command: its fields separated by blanks. */
  function Format(c: VmCommand): string {
    Join(Tokens(c))
  }

  /** The type the parser gives a well-formed command; the three-field
      commands need their second field to be a memory segment. */
  function ExpectedType(c: VmCommand): CommandType {
    match c
    case Arithmetic(_) => CArithmetic
    case Push(s, _) => if s in MemorySegments then CPush else CError(InvalidSegment)
    case Pop(s, _) => if s in MemorySegments then CPop else CError(InvalidSegment)
    case Label(_) => CLabel
    case Goto(_) => CGoto
    case IfGoto(_) => CIf
    case Function(f, _) => if f in MemorySegments then CFunction else CError(InvalidSegment)
    case Call(f, _) => if f in MemorySegments then CCall else CError(InvalidSegment)
    case Return => CReturn
  }

  /** The index of a numbered command. */
  function Index(c: VmCommand): nat
    requires c.Push? || c.Pop? || c.Function? || c.Call?
  {
    match c
    case Push(_, i) => i
    case Pop(_, i) => i
    case Function(_, n) => n
    case Call(_, n) => n
  }

  lemma NumeralIsName(n: nat)
    ensures Name(NatToString(n))
  {
    var s := NatToString(n);
    forall k | 0 <= k < |s| ensures !IsSpace(s[k]) && s[k] != '/' {
      assert IsDigit(s[k]);
    }
  }

  /** A keyword of lower-case letters and hyphens is a name. */
  lemma KeywordIsName(s: string)
    requires s != [] && forall k :: 0 <= k < |s| ==> 'a' <= s[k] <= 'z' || s[k] == '-'
    ensures Name(s)
  {
  }

  predicate AllNames(ws: seq<string>) {
    forall k :: 0 <= k < |ws| ==> Name(ws[k])
  }

  /** Names are fields free of `/`. */
  lemma AllNamesAreWords(ws: seq<string>)
    requires AllNames(ws)
    ensures Words(ws)
    ensures forall k, j :: 0 <= k < |ws| && 0 <= j < |ws[k]| ==> ws[k][j] != '/'
  {
    forall k | 0 <= k < |ws| ensures ws[k] != [] && NoSpace(ws[k]) {
      assert Name(ws[k]);
    }
  }

  lemma TokensAreNames(c: VmCommand)
    requires WellFormed(c)
    ensures AllNames(Tokens(c))
  {
    match c
    case Arithmetic(op) => KeywordIsName(op);
    case Push(_, i) => KeywordIsName("push"); NumeralIsName(i);
    case Pop(_, i) => KeywordIsName("pop"); NumeralIsName(i);
    case Label(_) => KeywordIsName("label");
    case Goto(_) => KeywordIsName("goto");
    case IfGoto(_) => KeywordIsName("if-goto");
    case Function(_, n) => KeywordIsName("function"); NumeralIsName(n);
    case Call(_, n) => KeywordIsName("call"); NumeralIsName(n);
    case Return => KeywordIsName("return");
  }

  /** Words free of `/` joined by blanks are free of `/`. */
  lemma {:induction false} JoinHasNoSlash(ws: seq<string>)
    requires forall k, j :: 0 <= k < |ws| && 0 <= j < |ws[k]| ==> ws[k][j] != '/'
    ensures forall k :: 0 <= k < |Join(ws)| ==> Join(ws)[k] != '/'
    decreases |ws|
  {
    if |ws| > 1 {
      JoinHasNoSlash(ws[1..]);
      var w, rest := ws[0], Join(ws[1..]);
      assert Join(ws) == w + " " + rest;
      forall k | 0 <= k < |Join(ws)| ensures Join(ws)[k] != '/' {
        if k < |w| {
          assert Join(ws)[k] == ws[0][k];
        } else if k > |w| {
          assert Join(ws)[k] == rest[k - |w| - 1];
        }
      }
    } else if |ws| == 1 {
      assert Join(ws) == ws[0];
      forall k | 0 <= k < |Join(ws)| ensures Join(ws)[k] != '/' {
        assert Join(ws)[k] == ws[0][k];
      }
    }
  }

  /** The fields before the comment of a formatted command are its tokens. */
  lemma FieldsOfFormat(c: VmCommand, comment: string)
    requires WellFormed(c)
    requires comment == [] || (|comment| >= 2 && comment[0] == '/' && comment[1] == '/')
    ensures Fields(BeforeComment(Format(c) + comment)) == Tokens(c) != []
  {
    TokensAreNames(c);
    AllNamesAreWords(Tokens(c));
    JoinHasNoSlash(Tokens(c));
    BeforeCommentOfCode(Format(c), comment);
    FieldsOfJoin(Tokens(c));
  }

  /** The tokens of a well-formed command have the expected type. */
  lemma TypeOfTokens(c: VmCommand)
    requires WellFormed(c)
    ensures TypeOfFields(Tokens(c)) == ExpectedType(c)
  {
  }

  /** Parsing the text of a well-formed command, optionally followed by a
      `//` comment, recovers the command: its fields are the command's
      fields, its type is the expected one, and the index field reads back
      as the command's index. */
  lemma ParseFormat(c: VmCommand, comment: string)
    requires WellFormed(c)
    requires comment == [] || (|comment| >= 2 && comment[0] == '/' && comment[1] == '/')
    ensures CommandFields(Format(c) + comment) == Tokens(c)
    ensures Classify(Format(c) + comment) == ExpectedType(c)
    ensures (c.Push? || c.Pop? || c.Function? || c.Call?) ==>
              DecimalValue(CommandFields(Format(c) + comment)[2]) == Index(c)
  {
    var line := Format(c) + comment;
    FieldsOfFormat(c, comment);
    CommandFieldsSpec(line);
    ClassifyByFields(line);
    TypeOfTokens(c);
    if c.Push? || c.Pop? || c.Function? || c.Call? {
      NatToStringRoundTrip(Index(c));
    }
  }

  /** The parser follows the code, not the VM language: a function's name is
      checked against the memory segments, so an ordinary declaration such
      as `function Main.main 2` is an error, and so is the matching `call`. */
  lemma FunctionNameMustBeSegment(f: string, n: nat, comment: string)
    requires Name(f)
    requires comment == [] || (|comment| >= 2 && comment[0] == '/' && comment[1] == '/')
    ensures Classify(Format(Function(f, n)) + comment) == CFunction <==> f in MemorySegments
    ensures Classify(Format(Call(f, n)) + comment) == CCall <==> f in MemorySegments
    ensures f !in MemorySegments ==>
              && Classify(Format(Function(f, n)) + comment) == CError(InvalidSegment)
              && Classify(Format(Call(f, n)) + comment) == CError(InvalidSegment)
  {
    ParseFormat(Function(f, n), comment);
    ParseFormat(Call(f, n), comment);
  }

  // ---------------------------------------------------------------------
  // The parser object

  class Parser {
    var lines: seq<string>
    var nLines: nat
    var currentLine: nat
    var currentCmd: string
    /** The fields of the last command `CommandType` found not blank; empty
        until there is one. */
    var cmdParts: seq<string>

    ghost predicate Valid()
      reads this
    {
      nLines == |lines| && currentLine <= nLines && Words(cmdParts)
    }

    /** The lines not yet read. */
    ghost function Remaining(): seq<string>
      requires Valid()
      reads this
    {
      lines[currentLine..]
    }

    /** A parser over the lines of a file, before its first line: there is
        no current command. */
    constructor (lines: seq<string>)
      ensures Valid()
      ensures this.lines == lines && nLines == |lines| && currentLine == 0
      ensures currentCmd == "" && cmdParts == []
      ensures Remaining() == lines
    {
      this.lines := lines;
      nLines := |lines|;
      currentLine := 0;
      currentCmd := "";
      cmdParts := [];
    }

    /** `hasMoreLines`: whether a line is left to read. */
    function HasMoreLines(): (b: bool)
      requires Valid()
      reads this
      ensures b <==> Remaining() != []
    {
      currentLine < nLines
    }

    /** `advance`: the next line, without trailing whitespace, becomes the
        current command. Only to be called while lines remain. */
    method Advance()
      requires Valid() && HasMoreLines()
      modifies this
      ensures Valid()
      ensures currentCmd == RStrip(old(Remaining())[0])
      ensures Remaining() == old(Remaining())[1..]
      ensures lines == old(lines) && nLines == old(nLines) && currentLine == old(currentLine) + 1
      ensures cmdParts == old(cmdParts)
    {
      currentCmd := RStrip(lines[currentLine]);
      currentLine := currentLine + 1;
    }

    /** `commandType`: classifies the current command (`Classify` follows
        the source's branches) and, unless it is blank, records its fields
        for the `Arg` accessors. */
    method CommandType() returns (t: CommandType)
      requires Valid()
      modifies this`cmdParts
      ensures Valid()
      ensures t == Classify(currentCmd)
      ensures Command(currentCmd) == [] ==> cmdParts == old(cmdParts)
      ensures Command(currentCmd) != [] ==> cmdParts == CommandFields(currentCmd)
      ensures lines == old(lines) && nLines == old(nLines) && currentLine == old(currentLine)
      ensures currentCmd == old(currentCmd)
    {
      t := Classify(currentCmd);
      if Command(currentCmd) != [] {
        cmdParts := CommandFields(currentCmd);
      }
    }

    /** `arg0`: the first field, the command's name. */
    function Arg0(): (r: string)
      requires Valid() && |cmdParts| >= 1
      reads this
      ensures r == cmdParts[0] && r != [] && NoSpace(r)
    {
      cmdParts[0]
    }

    /** `arg1`: the second field, the segment of a push or pop. */
    function Arg1(): (r: string)
      requires Valid() && |cmdParts| >= 2
      reads this
      ensures r == cmdParts[1] && r != [] && NoSpace(r)
    {
      cmdParts[1]
    }

    /** `arg2`: the third field, the index of a push or pop. */
    function Arg2(): (r: string)
      requires Valid() && |cmdParts| >= 3
      reads this
      ensures r == cmdParts[2] && r != [] && NoSpace(r)
    {
      cmdParts[2]
    }
  }

  /** Reading a well-formed command line: after `advance` and `commandType`,
      the type is the expected one and the accessors give back the command's
      fields. */
  method ReadCommand(p: Parser, c: VmCommand, comment: string) returns (t: CommandType)
    requires p.Valid() && p.HasMoreLines()
    requires WellFormed(c)
    requires comment == [] || (|comment| >= 2 && comment[0] == '/' && comment[1] == '/')
    requires p.lines[p.currentLine] == Format(c) + comment
    modifies p
    ensures p.Valid()
    ensures t == ExpectedType(c)
    ensures p.cmdParts == Tokens(c) != []
    ensures p.Arg0() == Tokens(c)[0]
  {
    p.Advance();
    ReadFormat(c, comment);
    t := p.CommandType();
  }

  /** What `advance` leaves of a formatted line classifies as the command's
      expected type and is not blank, and its fields are the command's. */
  lemma ReadFormat(c: VmCommand, comment: string)
    requires WellFormed(c)
    requires comment == [] || (|comment| >= 2 && comment[0] == '/' && comment[1] == '/')
    ensures var cmd := RStrip(Format(c) + comment);
      && Classify(cmd) == ExpectedType(c)
      && Command(cmd) != []
      && CommandFields(cmd) == Tokens(c) != []
  {
    var line := Format(c) + comment;
    ParseFormat(c, comment);
    ClassifyRStrip(line);
    FieldsOfFormat(c, comment);
    CommandFieldsSpec(RStrip(line));
  }
}
