/** Whole programs in text form: printing, the two-pass reader, and their round trip. */
module BytecodeLoad {
  import opened Bytecode
  import opened OpCodeNames
  import opened Machine
  import opened Records
  import opened BytecodeText

  /** How the C++ streams print and read doubles; nothing is assumed about them. */
  datatype Floats = Floats(show: real -> string, scan: string -> Option<real>)

  // ---------------------------------------------------------------------------------------------
  // Kinds of operands
  // ---------------------------------------------------------------------------------------------

  predicate TakesTarget(op: OpCode) {
    op.Jump? || op.JumpIfZero? || op.Call?
  }

  predicate TakesNumber(op: OpCode) {
    op.PushInt? || op.SetOnErrorHandler?
  }

  predicate TakesQuoted(op: OpCode) {
    op.PushStr? || op.InvokeBuiltin?
  }

  predicate TakesName(op: OpCode) {
    || op.LoadVar? || op.StoreVar? || op.ForSetup? || op.ForNext? || op.DimArray? || op.LoadArr? || op.StoreArr?
    || op.MatInit? || op.MatCopy? || op.MatLoadFromRec? || op.MatStoreToRec?
    || op.OpenFile? || op.OpenFileTry? || op.ReadRec? || op.ReadRecTry? || op.ReadRecU? || op.ReadRecUTry?
    || op.WriteRec? || op.WriteRecTry? || op.WriteRecU? || op.WriteRecUTry? || op.ReleaseRec?
    || op.ReadNext? || op.ReadNextTry? || op.ReadV? || op.ReadVTry? || op.WriteV? || op.WriteVTry?
    || op.ResolveDictAttr? || op.CloseFile?
  }

  /** The operand is of the kind its opcode prints. */
  predicate KindFits(ins: Instruction) {
    && (TakesTarget(ins.op) || TakesNumber(ins.op) ==> ins.operand.IntV?)
    && (TakesQuoted(ins.op) || TakesName(ins.op) ==> ins.operand.StrV?)
    && (ins.op.PushFlt? ==> ins.operand.FltV?)
  }

  predicate AllFit(program: seq<Instruction>) {
    forall i | 0 <= i < |program| :: KindFits(program[i])
  }

  // ---------------------------------------------------------------------------------------------
  // Printing
  // ---------------------------------------------------------------------------------------------

  function CallText(f: FuncRef): string {
    Decimal(f.namespaceId) + ", " + Decimal(f.functionId) + ", " + Decimal(f.argCount)
  }

  function OperandText(fl: Floats, ins: Instruction): string
    requires KindFits(ins)
  {
    if TakesTarget(ins.op) || TakesNumber(ins.op) then IntText(ins.operand.i)
    else if ins.op.PushFlt? then fl.show(ins.operand.d)
    else if TakesQuoted(ins.op) then Quote(ins.operand.s)
    else if TakesName(ins.op) then ins.operand.s
    else if ins.op.CallFunc? then CallText(ins.func)
    else ""
  }

  predicate HasOperand(op: OpCode) {
    TakesTarget(op) || TakesNumber(op) || op.PushFlt? || TakesQuoted(op) || TakesName(op) || op.CallFunc?
  }

  function InstructionText(fl: Floats, ins: Instruction): string
    requires KindFits(ins)
  {
    if HasOperand(ins.op) then OpName(ins.op) + " " + OperandText(fl, ins) else OpName(ins.op)
  }

  const META: string := "#BASICLINES:"

  function NumberList(ns: seq<int>): string {
    Join(seq(|ns|, i requires 0 <= i < |ns| => IntText(ns[i])), ',')
  }

  function Unlines(lines: seq<string>): string {
    if lines == [] then "" else lines[0] + "\n" + Unlines(lines[1..])
  }

  function Printed(fl: Floats, program: seq<Instruction>): (r: seq<string>)
    requires AllFit(program)
    ensures |r| == |program|
  {
    seq(|program|, i requires 0 <= i < |program| => InstructionText(fl, program[i]))
  }

  /** The line list as printed: no longer than the program. */
  function Kept(ns: seq<int>, size: nat): (r: seq<int>) {
    if size <= |ns| then ns[..size] else ns
  }

  /** The text of a program with the source line of each instruction. */
  function Serialize(fl: Floats, program: seq<Instruction>, sourceLines: seq<int>): string
    requires AllFit(program)
  {
    (if sourceLines == [] then "" else META + NumberList(Kept(sourceLines, |program|)) + "\n") + Unlines(Printed(fl, program))
  }

  /** Prints a program; an operand of another kind than its opcode prints is an error. */
  method SerializeText(fl: Floats, program: seq<Instruction>, sourceLines: seq<int>) returns (out: Option<string>)
    ensures out == if AllFit(program) then Some(Serialize(fl, program, sourceLines)) else None
  {
    hide InstructionText, NumberList, Join, KindFits;
    var text := "";
    if sourceLines != [] {
      var list := SerializeList(Kept(sourceLines, |program|));
      text := META + list + "\n";
    }
    ghost var header := text;
    assert program[..0] == [];
    for i := 0 to |program|
      invariant AllFit(program[..i])
      invariant text == header + Unlines(Printed(fl, program[..i]))
    {
      if !KindFits(program[i]) {
        return None;
      }
      assert program[..i + 1] == program[..i] + [program[i]];
      assert Printed(fl, program[..i + 1]) == Printed(fl, program[..i]) + [InstructionText(fl, program[i])];
      UnlinesSnoc(Printed(fl, program[..i]), InstructionText(fl, program[i]));
      text := text + InstructionText(fl, program[i]) + "\n";
    }
    assert program[..|program|] == program;
    return Some(text);
  }

  lemma {:induction false} UnlinesSnoc(lines: seq<string>, last: string)
    ensures Unlines(lines + [last]) == Unlines(lines) + last + "\n"
  {
    if lines != [] {
      UnlinesSnoc(lines[1..], last);
      assert (lines + [last])[1..] == lines[1..] + [last];
    }
  }

  method SerializeList(ns: seq<int>) returns (out: string)
    ensures out == NumberList(ns)
  {
    hide IntText;
    out := "";
    ghost var texts := seq(|ns|, i requires 0 <= i < |ns| => IntText(ns[i]));
    for i := 0 to |ns|
      invariant out == Join(texts[..i], ',')
    {
      assert texts[..i + 1] == texts[..i] + [texts[i]];
      if i > 0 {
        JoinSnoc(texts[..i], texts[i], ',');
        out := out + ",";
      }
      out := out + IntText(ns[i]);
    }
    assert texts[..|ns|] == texts;
  }

  // ---------------------------------------------------------------------------------------------
  // Reading one line
  // ---------------------------------------------------------------------------------------------

  datatype ParsedLine = ParsedLine(labelName: string, opcode: string, operand: string, sourceLine: nat)

  function WordSize(s: string): (k: nat)
    ensures k <= |s|
  {
    if s == "" || IsSpace(s[0]) then 0 else 1 + WordSize(s[1..])
  }

  function SplitWords(name: string, line: string): ParsedLine {
    var text := line[LeadingSpaces(line)..];
    var k := WordSize(text);
    ParsedLine(name, text[..k], Trimmed(text[k..]), 0)
  }

  function ParseLine(raw: string): ParsedLine {
    var line := Trimmed(raw);
    if line == "" || line[0] == '#' then ParsedLine("", "", "", 0)
    else
      match FindColon(line, false)
      case None => SplitWords("", line)
      case Some(c) =>
        var rest := Trimmed(line[c + 1..]);
        if rest == "" then ParsedLine(Trimmed(line[..c]), "", "", 0) else SplitWords(Trimmed(line[..c]), rest)
  }

  /** Pieces as `getline` delivers them: nothing after a final mark. */
  function Pieces(s: string, mark: char): seq<string> {
    var ps := Split(s, mark);
    if ps[|ps| - 1] == "" then ps[..|ps| - 1] else ps
  }

  function NonEmpty(ps: seq<string>): seq<string> {
    if ps == [] then []
    else (if Trimmed(ps[0]) == "" then [] else [Trimmed(ps[0])]) + NonEmpty(ps[1..])
  }

  function ReadCall(operand: string): Option<FuncRef> {
    var parts := NonEmpty(Pieces(operand, ','));
    if |parts| != 3 then None
    else
      var ns, id, n := ReadUint32(parts[0]), ReadUint32(parts[1]), ReadNonNegative(parts[2]);
      if ns.None? || id.None? || n.None? || n.value < 0 then None else Some(FuncRef(ns.value, id.value, n.value))
  }

  type Labels = map<string, nat>

  function IntInstruction(op: OpCode, n: Option<int>): Option<Instruction> {
    if n.None? then None else Some(WithInt(op, n.value))
  }

  function TextInstruction(op: OpCode, s: Option<string>): Option<Instruction> {
    if s.None? then None else Some(WithStr(op, s.value))
  }

  function ReadTarget(operand: string, labels: Labels): Option<int> {
    if ReadNonNegative(operand).Some? then ReadNonNegative(operand)
    else if operand in labels then Some(labels[operand])
    else None
  }

  function InstructionFor(fl: Floats, op: OpCode, operand: string, labels: Labels): Option<Instruction> {
    if TakesNumber(op) then IntInstruction(op, ReadInt(operand))
    else if TakesTarget(op) then IntInstruction(op, ReadTarget(operand, labels))
    else if op.PushFlt? then
      var d := fl.scan(operand);
      if d.None? then None else Some(Instruction(PushFlt, FltV(d.value), NO_FUNC))
    else if op.PushStr? then TextInstruction(op, Unquote(operand))
    else if TakesName(op) || op.InvokeBuiltin? then
      if operand == "" then None else TextInstruction(op, Unquote(operand))
    else if op.CallFunc? then
      var f := ReadCall(operand);
      if f.None? then None else Some(Invoke(f.value))
    else if operand == "" then Some(Plain(op))
    else None
  }

  function InstructionOf(fl: Floats, pl: ParsedLine, labels: Labels): Option<Instruction> {
    match FindName(pl.opcode)
    case None => None
    case Some(op) => InstructionFor(fl, op, pl.operand, labels)
  }

  // ---------------------------------------------------------------------------------------------
  // Printed lines read back
  // ---------------------------------------------------------------------------------------------

  /** Not empty, and no blank at either end. */
  predicate Visible(s: string) {
    s != "" && !IsBlank(s[0]) && !IsBlank(s[|s| - 1])
  }

  /** A name that survives being printed without quotes. */
  predicate NameOk(s: string) {
    Visible(s) && '\n' !in s && FindColon(s, false).None? && !Quoted(s)
  }

  predicate FitsInt(n: int) {
    INT_MIN <= n <= INT_MAX
  }

  /** The reader's view of a printed operand: it is visible, on one line and without a free colon. */
  predicate Clean(s: string) {
    Visible(s) && '\n' !in s && FindColon(s, false).None?
  }

  predicate CallFits(f: FuncRef) {
    f.namespaceId <= UINT32_MAX && f.functionId <= UINT32_MAX && f.argCount <= INT_MAX
  }

  /** An instruction whose line is read as its opcode and its printed operand. */
  predicate OneLine(fl: Floats, ins: Instruction) {
    && KindFits(ins)
    && (TakesName(ins.op) ==> ins.operand.s == "" || Clean(ins.operand.s))
    && (ins.op.PushFlt? ==> Clean(fl.show(ins.operand.d)))
  }

  /** The printed operand stands for the instruction's operand. */
  predicate OperandOk(fl: Floats, ins: Instruction)
    requires KindFits(ins)
  {
    if TakesNumber(ins.op) then FitsInt(ins.operand.i)
    else if TakesTarget(ins.op) then 0 <= ins.operand.i <= INT_MAX
    else if ins.op.PushFlt? then fl.scan(fl.show(ins.operand.d)) == Some(ins.operand.d)
    else if TakesQuoted(ins.op) then true
    else if TakesName(ins.op) then NameOk(ins.operand.s)
    else ins.operand == IntV(0)
  }

  /** An instruction that survives being printed on a line. */
  predicate Printable(fl: Floats, ins: Instruction) {
    && OneLine(fl, ins) && OperandOk(fl, ins)
    && if ins.op.CallFunc? then CallFits(ins.func) else ins.func == NO_FUNC
  }

  lemma {:induction false} WordTaken(w: string, rest: string)
    requires Word(w) && (rest == "" || IsSpace(rest[0]))
    ensures WordSize(w + rest) == |w|
    decreases |w|
  {
    if |w| == 1 {
      assert (w + rest)[1..] == rest;
      assert Letter(w[0]);
    } else {
      assert Letter(w[0]);
      assert forall i | 0 <= i < |w[1..]| :: w[1..][i] == w[i + 1];
      WordTaken(w[1..], rest);
      assert (w + rest)[1..] == w[1..] + rest;
    }
  }

  lemma {:induction false} TrimLeftSkips(blanks: string, s: string)
    requires (forall i | 0 <= i < |blanks| :: IsBlank(blanks[i])) && (s == "" || !IsBlank(s[0]))
    ensures TrimLeft(blanks + s) == s
    decreases |blanks|
  {
    if blanks == "" {
      assert blanks + s == s;
    } else {
      assert (blanks + s)[1..] == blanks[1..] + s;
      TrimLeftSkips(blanks[1..], s);
    }
  }

  /** Text that starts and ends with something visible is not trimmed. */
  lemma TrimmedSame(s: string)
    requires s == "" || (!IsBlank(s[0]) && !IsBlank(s[|s| - 1]))
    ensures Trimmed(s) == s && Trimmed(" " + s) == s
  {
    TrimLeftSkips("", s);
    assert "" + s == s;
    TrimLeftSkips(" ", s);
    var t := " " + s;
    if s != "" {
      assert t[|t| - 1] == s[|s| - 1];
    } else {
      assert t == " ";
      assert TrimRight(" ") == "" by { assert " "[..0] == ""; }
    }
  }

  lemma WordLetters(w: string)
    requires Word(w)
    ensures forall i | 0 <= i < |w| :: w[i] != '"' && w[i] != ':' && !IsBlank(w[i]) && !IsSpace(w[i]) && w[i] != '#' && w[i] != '\n'
  {
    forall i | 0 <= i < |w|
      ensures w[i] != '"' && w[i] != ':' && !IsBlank(w[i]) && !IsSpace(w[i]) && w[i] != '#' && w[i] != '\n'
    {
      assert Letter(w[i]);
    }
  }

  lemma LineScan(w: string, operand: string)
    requires Word(w) && Visible(operand)
    ensures var line := w + " " + operand;
            Trimmed(line) == line && line[0] != '#' && FindColon(line, false) == Shift(FindColon(operand, false), |w| + 1)
  {
    hide FindColon, TrimLeft, TrimRight, Word, Letter, Trimmed;
    var line := w + " " + operand;
    WordLetters(w);
    WordNotEmpty(w);
    assert line[0] == w[0];
    assert line[|line| - 1] == operand[|operand| - 1];
    TrimmedSame(line);
    ColonAfterWord(w, " " + operand);
    ColonAfterWord(" ", operand);
    assert line == w + (" " + operand);
  }

  lemma LineSplits(w: string, operand: string)
    requires Word(w) && Visible(operand)
    ensures SplitWords("", w + " " + operand) == ParsedLine("", w, operand, 0)
  {
    hide TrimLeft, TrimRight, Word, Letter, Trimmed, WordSize;
    var line, tail := w + " " + operand, " " + operand;
    WordLetters(w);
    WordNotEmpty(w);
    assert line[0] == w[0];
    assert LeadingSpaces(line) == 0;
    assert line[0..] == line == w + tail;
    WordTaken(w, tail);
    assert line[..|w|] == w && line[|w|..] == tail;
    TrimmedSame(operand);
  }

  /** A line of a word and a visible operand without a colon is read as just that. */
  lemma LineReads(w: string, operand: string)
    requires Word(w) && Visible(operand)
    ensures FindColon(operand, false).None? ==> ParseLine(w + " " + operand) == ParsedLine("", w, operand, 0)
    ensures FindColon(operand, false).Some? ==> |ParseLine(w + " " + operand).operand| < |operand|
  {
    hide FindColon, Word, Letter, Trimmed, SplitWords;
    var line := w + " " + operand;
    LineScan(w, operand);
    LineSplits(w, operand);
    if FindColon(operand, false).Some? {
      var c := FindColon(line, false).value;
      assert |line[c + 1..]| < |operand|;
      TrimmedShorter(line[c + 1..]);
      WordsShorter(Trimmed(line[..c]), Trimmed(line[c + 1..]));
    }
  }

  lemma WordNotEmpty(w: string)
    requires Word(w)
    ensures w != ""
  {
  }

  lemma {:induction false} TrimRightShorter(s: string)
    ensures |TrimRight(s)| <= |s|
  {
    if s != "" {
      TrimRightShorter(s[..|s| - 1]);
    }
  }

  lemma {:induction false} TrimLeftShorter(s: string)
    ensures |TrimLeft(s)| <= |s|
  {
    if s != "" {
      TrimLeftShorter(s[1..]);
    }
  }

  lemma TrimmedShorter(s: string)
    ensures |Trimmed(s)| <= |s|
  {
    TrimRightShorter(s);
    TrimLeftShorter(TrimRight(s));
  }

  lemma WordsShorter(name: string, line: string)
    ensures |SplitWords(name, line).operand| <= |line|
  {
    hide TrimLeft, TrimRight;
    var text := line[LeadingSpaces(line)..];
    TrimmedShorter(text[WordSize(text)..]);
  }

  /** A line of a word alone. */
  lemma WordReads(w: string)
    requires Word(w)
    ensures ParseLine(w) == ParsedLine("", w, "", 0)
  {
    hide FindColon, TrimLeft, TrimRight, Word, Letter;
    WordLetters(w);
    WordNotEmpty(w);
    TrimmedSame(w);
    ColonAfterWord(w, "");
    assert w + "" == w;
    FindColonEmpty();
    assert w[0..] == w;
    WordTaken(w, "");
    assert w[..|w|] == w && w[|w|..] == "";
    TrimmedSame("");
  }

  lemma FindColonEmpty()
    ensures FindColon("", false).None?
  {
  }

  lemma {:induction false} NoColonInPlain(s: string)
    requires forall i | 0 <= i < |s| :: s[i] != ':' && s[i] != '"'
    ensures FindColon(s, false).None?
  {
    ColonAfterWord(s, "");
    assert s + "" == s;
  }

  lemma NumberClean(n: int)
    ensures Clean(IntText(n))
  {
    hide IntText;
    IntTextPlain(n);
    var s := IntText(n);
    assert forall i | 0 <= i < |s| :: NumberChar(s[i]);
    assert NumberChar(s[0]) && NumberChar(s[|s| - 1]);
    NoColonInPlain(s);
  }

  lemma QuoteClean(s: string)
    ensures Clean(Quote(s))
  {
    hide FindColon;
    EscapeOneLine(s);
    NoColonInQuote(s);
    var q := Quote(s);
    assert q[0] == '"' && q[|q| - 1] == '"';
  }

  lemma CallClean(f: FuncRef)
    ensures Clean(CallText(f))
  {
    hide Decimal, FindColon;
    DecimalReads(f.namespaceId);
    DecimalReads(f.functionId);
    DecimalReads(f.argCount);
    var s := CallText(f);
    forall i | 0 <= i < |s|
      ensures IsDigit(s[i]) || s[i] == ',' || s[i] == ' '
    {
      CallChars(Decimal(f.namespaceId), Decimal(f.functionId), Decimal(f.argCount), i);
    }
    assert s[0] == Decimal(f.namespaceId)[0];
    assert s[|s| - 1] == Decimal(f.argCount)[|Decimal(f.argCount)| - 1];
    NoColonInPlain(s);
  }

  lemma CallChars(a: string, b: string, c: string, i: nat)
    requires i < |a + ", " + b + ", " + c|
    requires forall s | s in [a, b, c] :: forall k | 0 <= k < |s| :: IsDigit(s[k])
    ensures var ch := (a + ", " + b + ", " + c)[i]; IsDigit(ch) || ch == ',' || ch == ' '
  {
    assert [a, b, c][0] == a && [a, b, c][1] == b && [a, b, c][2] == c;
  }

  /** The three numbers of a CALL_FUNC operand come back, unless one is too large. */
  lemma CallReads(f: FuncRef)
    ensures ReadCall(CallText(f)) == if CallFits(f) then Some(f) else None
  {
    hide Decimal, ReadUint32, ReadNonNegative;
    var a, b, c := Decimal(f.namespaceId), Decimal(f.functionId), Decimal(f.argCount);
    DecimalReads(f.namespaceId);
    DecimalReads(f.functionId);
    DecimalReads(f.argCount);
    CallPieces(a, b, c);
    DecimalArguments(f.namespaceId);
    DecimalArguments(f.functionId);
    DecimalArguments(f.argCount);
  }

  lemma DecimalArguments(n: nat)
    ensures ReadUint32(Decimal(n)) == if n <= UINT32_MAX then Some(n) else None
    ensures ReadNonNegative(Decimal(n)) == if n <= INT_MAX then Some(n) else None
  {
    hide Decimal, ReadUint32, ReadNonNegative;
    IntTextReads(n);
    assert IntText(n) == Decimal(n);
  }

  lemma CallPieces(a: string, b: string, c: string)
    requires a != "" && b != "" && c != ""
    requires forall s | s in [a, b, c] :: forall k | 0 <= k < |s| :: IsDigit(s[k])
    ensures NonEmpty(Pieces(a + ", " + b + ", " + c, ',')) == [a, b, c]
  {
    hide Split, Join, Trimmed;
    assert [a, b, c][0] == a && [a, b, c][1] == b && [a, b, c][2] == c;
    var ps := [a, " " + b, " " + c];
    CallJoin(a, b, c);
    assert Free(ps, ',');
    SplitJoin(ps, ',');
    assert ps[2] != "";
    TrimmedSame(a);
    TrimmedSame(b);
    TrimmedSame(c);
    assert ps[1..] == [" " + b, " " + c] && ps[1..][1..] == [" " + c] && ps[1..][1..][1..] == [];
    assert NonEmpty([" " + c]) == [c];
    assert NonEmpty(ps[1..]) == [b] + [c];
  }

  lemma CallJoin(a: string, b: string, c: string)
    ensures Join([a, " " + b, " " + c], ',') == a + ", " + b + ", " + c
  {
    var ps := [a, " " + b, " " + c];
    assert ps[1..] == [" " + b, " " + c] && ps[1..][1..] == [" " + c];
    assert Join([" " + c], ',') == " " + c;
    assert Join(ps[1..], ',') == " " + b + "," + (" " + c);
  }

  /** The operand as the reader sees it: nothing, or a clean text. */
  function OperandRead(fl: Floats, ins: Instruction): string
    requires KindFits(ins)
  {
    if HasOperand(ins.op) then OperandText(fl, ins) else ""
  }

  lemma OperandClean(fl: Floats, ins: Instruction)
    requires OneLine(fl, ins) && HasOperand(ins.op)
    ensures OperandText(fl, ins) == "" || Clean(OperandText(fl, ins))
  {
    hide FindColon, IntText, Quote, CallText, Quoted, Visible, Clean;
    if TakesTarget(ins.op) || TakesNumber(ins.op) {
      NumberClean(ins.operand.i);
    } else if TakesQuoted(ins.op) {
      QuoteClean(ins.operand.s);
    } else if ins.op.CallFunc? {
      CallClean(ins.func);
    }
  }

  lemma CleanName(s: string)
    requires s == "" || Clean(s)
    ensures NameOk(s) <==> s != "" && !Quoted(s)
  {
    hide FindColon, Quoted;
  }

  lemma QuotedName(s: string)
    ensures Unquote(s) == Some(s) <==> !Quoted(s)
  {
    hide Unescape, Quoted;
    UnquoteShorter(s);
  }

  /** The operand of a one-line instruction gives the instruction exactly when it is printable. */
  lemma OperandExact(fl: Floats, ins: Instruction)
    requires OneLine(fl, ins)
    ensures InstructionFor(fl, ins.op, OperandRead(fl, ins), map[]) == Some(ins) <==> Printable(fl, ins)
  {
    hide FindColon, IntText, Quote, CallText, Visible, ReadInt, ReadNonNegative, ReadCall, Unquote, Quoted, Clean, NameOk, CallFits;
    if TakesTarget(ins.op) || TakesNumber(ins.op) {
      IntTextReads(ins.operand.i);
    } else if TakesQuoted(ins.op) {
      UnquoteQuote(ins.operand.s);
      QuoteNotEmpty(ins.operand.s);
    } else if TakesName(ins.op) {
      CleanName(ins.operand.s);
      QuotedName(ins.operand.s);
    } else if ins.op.CallFunc? {
      CallReads(ins.func);
    }
  }

  lemma QuoteNotEmpty(s: string)
    ensures Quote(s) != ""
  {
  }

  /** The line of a one-line instruction is read as its opcode and operand, and gives the instruction back
      exactly when it is printable. */
  lemma InstructionReads(fl: Floats, ins: Instruction)
    requires OneLine(fl, ins)
    ensures KindFits(ins)
    ensures ParseLine(InstructionText(fl, ins)) == ParsedLine("", OpName(ins.op), OperandRead(fl, ins), 0) && OpName(ins.op) != ""
    ensures InstructionOf(fl, ParseLine(InstructionText(fl, ins)), map[]) == Some(ins) <==> Printable(fl, ins)
    ensures '\n' !in InstructionText(fl, ins) && !(META <= Trimmed(InstructionText(fl, ins)))
  {
    hide FindColon, InstructionFor, ParseLine, OperandText, OpName, FindName, Word, Printable, Visible, Trimmed, OneLine;
    var w := OpName(ins.op);
    KindOfLine(fl, ins);
    NameIsWord(ins.op);
    WordNotEmpty(w);
    NameFound(w, ins.op);
    OperandExact(fl, ins);
    WordReads(w);
    BlankAfterWord(w);
    if HasOperand(ins.op) {
      var o := OperandText(fl, ins);
      OperandClean(fl, ins);
      if o != "" {
        LineReads(w, o);
      }
    }
    PlainLine(fl, ins);
  }

  lemma PlainLine(fl: Floats, ins: Instruction)
    requires OneLine(fl, ins) && KindFits(ins)
    ensures '\n' !in InstructionText(fl, ins) && !(META <= Trimmed(InstructionText(fl, ins)))
  {
    hide FindColon, OperandText, OpName, Word, Visible, Trimmed, OneLine;
    var w := OpName(ins.op);
    NameIsWord(ins.op);
    WordNotEmpty(w);
    WordLetters(w);
    assert META[0] == '#';
    TrimmedSame(w);
    if HasOperand(ins.op) {
      var o := OperandText(fl, ins);
      OperandClean(fl, ins);
      var line := w + " " + o;
      assert line[0] == w[0] != '#';
      assert '\n' !in line;
      if o == "" {
        BlankTrimmed(w);
      } else {
        LineScan(w, o);
      }
    }
  }

  lemma KindOfLine(fl: Floats, ins: Instruction)
    requires OneLine(fl, ins)
    ensures KindFits(ins)
  {
  }

  lemma KeepsOpcode(fl: Floats, op: OpCode, x: string, labels: Labels)
    ensures InstructionFor(fl, op, x, labels).Some? ==> InstructionFor(fl, op, x, labels).value.op == op
  {
    hide ReadInt, ReadTarget, ReadCall, Unquote, TakesName, TakesNumber, TakesTarget;
  }

  lemma NameInstruction(fl: Floats, op: OpCode, x: string, labels: Labels)
    requires TakesName(op)
    ensures InstructionFor(fl, op, x, labels) == if x == "" then None else TextInstruction(op, Unquote(x))
  {
    hide ReadInt, ReadTarget, ReadCall, Unquote;
  }

  lemma UnquoteShorter(s: string)
    ensures Unquote(s).Some? ==> |Unquote(s).value| <= |s|
    ensures Quoted(s) && Unquote(s).Some? ==> |Unquote(s).value| < |s|
  {
    hide Unescape;
    if Quoted(s) {
      UnescapeShorter(s[1..|s| - 1]);
    }
  }

  lemma BlankTrimmed(w: string)
    requires Word(w)
    ensures Trimmed(w + " " + "") == w
  {
    hide Word, Letter;
    WordLetters(w);
    WordNotEmpty(w);
    TrimmedSame(w);
    var t := w + " " + "";
    assert t[|t| - 1] == ' ' && t[..|t| - 1] == w;
    assert TrimRight(t) == TrimRight(w);
  }

  lemma BlankAfterWord(w: string)
    requires Word(w)
    ensures ParseLine(w + " " + "") == ParsedLine("", w, "", 0)
  {
    hide FindColon, Word, Letter, Trimmed, SplitWords;
    WordReads(w);
    BlankTrimmed(w);
    WordLetters(w);
    WordNotEmpty(w);
    TrimmedSame(w);
  }

  // ---------------------------------------------------------------------------------------------
  // Reading a program
  // ---------------------------------------------------------------------------------------------

  /** What the first pass collects: labels, lines with an opcode, and the line metadata. */
  datatype Pass = Pass(labels: Labels, parsed: seq<ParsedLine>, meta: seq<int>)

  const NO_LINES := Pass(map[], [], [])

  function ReadList(items: seq<string>): Option<seq<int>> {
    if items == [] then Some([])
    else
      var n, rest := ReadNonNegative(Trimmed(items[0])), ReadList(items[1..]);
      if n.None? || rest.None? then None else Some([n.value] + rest.value)
  }

  function ReadMeta(line: string): Option<seq<int>>
    requires META <= line
  {
    var csv := line[|META|..];
    if csv == "" then Some([]) else ReadList(Pieces(csv, ','))
  }

  function ReadLine(s: Pass, line: string, physical: nat): Option<Pass> {
    if META <= Trimmed(line) then
      var m := ReadMeta(Trimmed(line));
      if m.None? then None else Some(s.(meta := m.value))
    else
      var pl := ParseLine(line);
      Some(Pass(if pl.labelName != "" then s.labels[pl.labelName := |s.parsed|] else s.labels,
                if pl.opcode != "" then s.parsed + [pl.(sourceLine := physical)] else s.parsed,
                s.meta))
  }

  /** The first `k` lines. */
  function FirstPass(lines: seq<string>, k: nat): Option<Pass>
    requires k <= |lines|
  {
    if k == 0 then Some(NO_LINES)
    else
      match FirstPass(lines, k - 1)
      case None => None
      case Some(s) => ReadLine(s, lines[k - 1], k)
  }

  function SecondPass(fl: Floats, s: Pass, k: nat): (r: Option<seq<Instruction>>)
    requires k <= |s.parsed|
    ensures r.Some? ==> |r.value| == k
  {
    if k == 0 then Some([])
    else
      match SecondPass(fl, s, k - 1)
      case None => None
      case Some(done) =>
        var i := InstructionOf(fl, s.parsed[k - 1], s.labels);
        if i.None? then None else Some(done + [i.value])
  }

  predicate TargetOk(ins: Instruction, size: nat) {
    TakesTarget(ins.op) ==> ins.operand.IntV? && 0 <= ins.operand.i < size
  }

  predicate TargetsInRange(program: seq<Instruction>) {
    forall i | 0 <= i < |program| :: TargetOk(program[i], |program|)
  }

  datatype Loaded = Loaded(program: seq<Instruction>, labels: Labels, sourceLinePerInstr: seq<int>)

  function SourceLines(s: Pass): seq<int> {
    seq(|s.parsed|, i requires 0 <= i < |s.parsed| => s.parsed[i].sourceLine)
  }

  function Assemble(fl: Floats, s: Pass): Option<Loaded> {
    match SecondPass(fl, s, |s.parsed|)
    case None => None
    case Some(program) =>
      if s.meta != [] && |s.meta| != |program| then None
      else if !TargetsInRange(program) then None
      else Some(Loaded(program, s.labels, if s.meta != [] then s.meta else SourceLines(s)))
  }

  /** Reading a text; nothing when the reader raises an error. */
  function LoadText(fl: Floats, text: string): Option<Loaded> {
    var lines := Pieces(text, '\n');
    match FirstPass(lines, |lines|)
    case None => None
    case Some(s) => Assemble(fl, s)
  }

  class TextParser {
    var labelMap: Labels
    var intermediateLines: seq<ParsedLine>

    constructor () {
      labelMap, intermediateLines := map[], [];
    }

    method Parse(fl: Floats, text: string) returns (r: Option<Loaded>)
      modifies this
      ensures r == LoadText(fl, text)
    {
      hide ReadMeta, ParseLine, Trimmed, InstructionOf, Pieces, TargetOk;
      labelMap, intermediateLines := map[], [];
      var meta: seq<int> := [];
      var lines := Pieces(text, '\n');
      for k := 0 to |lines|
        invariant FirstPass(lines, k) == Some(Pass(labelMap, intermediateLines, meta))
      {
        var line := lines[k];
        if META <= Trimmed(line) {
          var m := ReadMeta(Trimmed(line));
          if m.None? {
            FirstPassFails(lines, k + 1, |lines|);
            return None;
          }
          meta := m.value;
        } else {
          var pl := ParseLine(line);
          if pl.labelName != "" {
            labelMap := labelMap[pl.labelName := |intermediateLines|];
          }
          if pl.opcode != "" {
            intermediateLines := intermediateLines + [pl.(sourceLine := k + 1)];
          }
        }
      }
      ghost var s := Pass(labelMap, intermediateLines, meta);
      var program: seq<Instruction> := [];
      for k := 0 to |intermediateLines|
        invariant SecondPass(fl, s, k) == Some(program)
      {
        var i := InstructionOf(fl, intermediateLines[k], labelMap);
        if i.None? {
          SecondPassFails(fl, s, k + 1, |s.parsed|);
          return None;
        }
        program := program + [i.value];
      }
      var sourceLines: seq<int>;
      if meta != [] {
        if |meta| != |program| {
          return None;
        }
        sourceLines := meta;
      } else {
        sourceLines := [];
        for k := 0 to |intermediateLines|
          invariant sourceLines == SourceLines(s)[..k]
        {
          sourceLines := sourceLines + [intermediateLines[k].sourceLine];
        }
        assert SourceLines(s)[..|intermediateLines|] == SourceLines(s);
      }
      for i := 0 to |program|
        invariant forall j | 0 <= j < i :: TargetOk(program[j], |program|)
      {
        if !TargetOk(program[i], |program|) {
          return None;
        }
      }
      return Some(Loaded(program, labelMap, sourceLines));
    }
  }

  lemma {:induction false} FirstPassFails(lines: seq<string>, j: nat, k: nat)
    requires j <= k <= |lines| && FirstPass(lines, j).None?
    ensures FirstPass(lines, k).None?
    decreases k
  {
    hide ReadLine;
    if j < k {
      FirstPassFails(lines, j, k - 1);
    }
  }

  lemma {:induction false} SecondPassFails(fl: Floats, s: Pass, j: nat, k: nat)
    requires j <= k <= |s.parsed| && SecondPass(fl, s, j).None?
    ensures SecondPass(fl, s, k).None?
    decreases k
  {
    hide InstructionOf;
    if j < k {
      SecondPassFails(fl, s, j, k - 1);
    }
  }

  // ---------------------------------------------------------------------------------------------
  // Labels
  // ---------------------------------------------------------------------------------------------

  /** Lines with an opcode among the first `k`: the instructions they become. */
  function InstructionsIn(lines: seq<string>, k: nat): nat
    requires k <= |lines|
  {
    if k == 0 then 0
    else InstructionsIn(lines, k - 1)
         + if META <= Trimmed(lines[k - 1]) || ParseLine(lines[k - 1]).opcode == "" then 0 else 1
  }

  predicate HasLabel(line: string, name: string) {
    name != "" && !(META <= Trimmed(line)) && ParseLine(line).labelName == name
  }

  /** `j` is the last of the first `k` lines with that label. */
  predicate LastLabel(lines: seq<string>, k: nat, name: string, j: nat) {
    j < k <= |lines| && HasLabel(lines[j], name) && forall i | j < i < k :: !HasLabel(lines[i], name)
  }

  /** A label stands for the index of the next instruction after its last occurrence, whatever blank,
      comment or metadata lines come between; other names are unknown. */
  lemma {:induction false} LabelsPoint(lines: seq<string>, k: nat)
    requires k <= |lines| && FirstPass(lines, k).Some?
    ensures var s := FirstPass(lines, k).value;
            && |s.parsed| == InstructionsIn(lines, k)
            && (forall name | name in s.labels :: exists j :: LastLabel(lines, k, name, j) && s.labels[name] == InstructionsIn(lines, j))
            && (forall name, j: nat | LastLabel(lines, k, name, j) :: name in s.labels)
    decreases k
  {
    hide ParseLine, Trimmed, ReadMeta;
    if k > 0 {
      LabelsPoint(lines, k - 1);
      var s0, s := FirstPass(lines, k - 1).value, FirstPass(lines, k).value;
      forall name | name in s.labels
        ensures exists j :: LastLabel(lines, k, name, j) && s.labels[name] == InstructionsIn(lines, j)
      {
        if HasLabel(lines[k - 1], name) {
          assert LastLabel(lines, k, name, k - 1);
        } else {
          var j :| LastLabel(lines, k - 1, name, j) && s0.labels[name] == InstructionsIn(lines, j);
          assert LastLabel(lines, k, name, j);
        }
      }
      forall name, j: nat | LastLabel(lines, k, name, j)
        ensures name in s.labels
      {
        if j < k - 1 {
          assert LastLabel(lines, k - 1, name, j);
        }
      }
    }
  }

  // ---------------------------------------------------------------------------------------------
  // Round trip
  // ---------------------------------------------------------------------------------------------

  lemma {:induction false} PiecesOfLines(lines: seq<string>)
    requires Free(lines, '\n')
    ensures Split(Unlines(lines), '\n') == lines + [""]
  {
    hide Split;
    if lines == [] {
      assert Split("", '\n') == [""] by { SplitHead("", "", '\n'); }
    } else {
      PiecesOfLines(lines[1..]);
      SplitHead(lines[0], Unlines(lines[1..]), '\n');
      assert lines[0] + ['\n'] + Unlines(lines[1..]) == Unlines(lines);
    }
  }

  predicate LineNumberOk(n: int) {
    0 <= n <= INT_MAX
  }

  predicate AllLineNumbersOk(ns: seq<int>) {
    forall i | 0 <= i < |ns| :: LineNumberOk(ns[i])
  }

  lemma {:induction false} ListReads(ns: seq<int>)
    ensures ReadList(seq(|ns|, i requires 0 <= i < |ns| => IntText(ns[i]))) == if AllLineNumbersOk(ns) then Some(ns) else None
  {
    hide IntText, ReadNonNegative, Trimmed, LineNumberOk;
    if ns != [] {
      var texts := seq(|ns|, i requires 0 <= i < |ns| => IntText(ns[i]));
      var rest := ns[1..];
      ListReads(rest);
      assert texts[1..] == seq(|rest|, i requires 0 <= i < |rest| => IntText(rest[i]));
      HeadReads(ns[0]);
      assert [ns[0]] + rest == ns;
      if AllLineNumbersOk(rest) && LineNumberOk(ns[0]) {
        assert forall i | 0 <= i < |ns| :: ns[i] == if i == 0 then ns[0] else rest[i - 1];
      } else if !AllLineNumbersOk(rest) {
        var i :| 0 <= i < |rest| && !LineNumberOk(rest[i]);
        assert !LineNumberOk(ns[i + 1]);
      }
    }
  }

  lemma HeadReads(n: int)
    ensures ReadNonNegative(Trimmed(IntText(n))) == if LineNumberOk(n) then Some(n) else None
  {
    hide IntText, ReadNonNegative, Trimmed;
    NumberClean(n);
    TrimmedSame(IntText(n));
    IntTextReads(n);
  }

  /** The printed line list is recognized, and read back when every number is in range. */
  lemma MetaReads(ns: seq<int>)
    ensures var line := META + NumberList(ns);
            && '\n' !in line && Trimmed(line) == line && META <= line
            && ReadMeta(line) == if AllLineNumbersOk(ns) then Some(ns) else None
  {
    hide IntText, ReadList, Trimmed, Join, Split;
    var texts := seq(|ns|, i requires 0 <= i < |ns| => IntText(ns[i]));
    var line, list := META + NumberList(ns), NumberList(ns);
    assert line[|META|..] == list;
    if ns == [] {
      JoinNothing();
      assert texts == [] && line == META;
      TrimmedSame(line);
    } else {
      forall i | 0 <= i < |texts|
        ensures ',' !in texts[i] && '\n' !in texts[i] && Visible(texts[i])
      {
        NumberClean(ns[i]);
        IntTextPlain(ns[i]);
      }
      SplitJoin(texts, ',');
      JoinEnds(texts);
      NoMarkInJoin(texts, ',', '\n');
      assert line[0] == '#' && line[|line| - 1] == list[|list| - 1];
      TrimmedSame(line);
      ListReads(ns);
    }
  }

  lemma JoinNothing()
    ensures Join([], ',') == ""
  {
  }

  lemma {:induction false} JoinEnds(texts: seq<string>)
    requires texts != [] && forall i | 0 <= i < |texts| :: Visible(texts[i])
    ensures var j := Join(texts, ','); Visible(j)
  {
    if |texts| > 1 {
      JoinEnds(texts[1..]);
      assert Join(texts, ',') == texts[0] + [','] + Join(texts[1..], ',');
    }
  }

  /** Printed lines, numbered from `first` on. */
  function Reread(fl: Floats, program: seq<Instruction>, first: nat): (r: seq<ParsedLine>)
    requires AllFit(program)
    ensures |r| == |program|
  {
    seq(|program|, i requires 0 <= i < |program| => ParseLine(InstructionText(fl, program[i])).(sourceLine := first + i))
  }

  predicate AllOneLine(fl: Floats, program: seq<Instruction>) {
    forall i | 0 <= i < |program| :: OneLine(fl, program[i])
  }

  predicate AllPrintable(fl: Floats, program: seq<Instruction>) {
    forall i | 0 <= i < |program| :: Printable(fl, program[i])
  }

  lemma OneLineFits(fl: Floats, program: seq<Instruction>)
    requires AllOneLine(fl, program)
    ensures AllFit(program)
  {
    hide KindFits, OneLine;
    forall i | 0 <= i < |program|
      ensures KindFits(program[i])
    {
      KindOfLine(fl, program[i]);
    }
  }

  /** The line list is absent, or long enough and readable. */
  predicate LinesFit(ns: seq<int>, size: nat) {
    ns == [] || (size <= |ns| && AllLineNumbersOk(ns[..size]))
  }

  /** Source lines after reading: those of the list, or the lines of the text itself. */
  function LinesBack(ns: seq<int>, size: nat): seq<int>
    requires LinesFit(ns, size)
  {
    if ns == [] then seq(size, i => i + 1) else ns[..size]
  }

  function Header(ns: seq<int>, size: nat): seq<string> {
    if ns == [] then [] else [META + NumberList(Kept(ns, size))]
  }

  lemma SerializeLines(fl: Floats, program: seq<Instruction>, ns: seq<int>)
    requires AllFit(program)
    ensures Serialize(fl, program, ns) == Unlines(Header(ns, |program|) + Printed(fl, program))
  {
    hide KindFits, InstructionText, NumberList;
    var head, rest := Header(ns, |program|), Printed(fl, program);
    if ns == [] {
      assert head + rest == rest;
      assert "" + Unlines(rest) == Unlines(rest);
    } else {
      assert (head + rest)[1..] == rest;
    }
  }

  lemma TextLines(fl: Floats, program: seq<Instruction>, ns: seq<int>)
    requires AllOneLine(fl, program) && AllFit(program)
    ensures Pieces(Serialize(fl, program, ns), '\n') == Header(ns, |program|) + Printed(fl, program)
  {
    hide OneLine, KindFits, InstructionText, NumberList, Trimmed, Split, ParseLine, InstructionOf, OpName, ReadMeta, Printable;
    var head, rest := Header(ns, |program|), Printed(fl, program);
    var lines := head + rest;
    MetaReads(Kept(ns, |program|));
    forall i | 0 <= i < |program|
      ensures '\n' !in rest[i]
    {
      InstructionReads(fl, program[i]);
    }
    assert Free(lines, '\n');
    PiecesOfLines(lines);
    SerializeLines(fl, program, ns);
    assert (lines + [""])[..|lines|] == lines;
  }

  lemma HeaderRead(ns: seq<int>, size: nat, lines: seq<string>)
    requires Header(ns, size) <= lines
    ensures FirstPass(lines, |Header(ns, size)|) ==
            if AllLineNumbersOk(Kept(ns, size)) then Some(Pass(map[], [], Kept(ns, size))) else None
  {
    hide NumberList, ReadMeta, Trimmed, ParseLine, LineNumberOk;
    MetaReads(Kept(ns, size));
    assert FirstPass(lines, 0) == Some(NO_LINES);
    if ns != [] {
      assert lines[0] == Header(ns, size)[0];
    }
  }

  lemma {:induction false} FirstPassReads(fl: Floats, program: seq<Instruction>, lines: seq<string>, ns: seq<int>, k: nat)
    requires k <= |program| && AllOneLine(fl, program) && AllFit(program)
    requires lines == Header(ns, |program|) + Printed(fl, program) && AllLineNumbersOk(Kept(ns, |program|))
    ensures var first := |Header(ns, |program|)|;
            FirstPass(lines, first + k) == Some(Pass(map[], Reread(fl, program, first + 1)[..k], Kept(ns, |program|)))
  {
    hide OneLine, Printable, KindFits, ParseLine, Trimmed, InstructionText, NumberList, ReadMeta, OpName, InstructionOf, LineNumberOk;
    var first := |Header(ns, |program|)|;
    var all := Reread(fl, program, first + 1);
    if k == 0 {
      HeaderRead(ns, |program|, lines);
      assert all[..0] == [];
    } else {
      FirstPassReads(fl, program, lines, ns, k - 1);
      assert lines[first + k - 1] == InstructionText(fl, program[k - 1]);
      InstructionReads(fl, program[k - 1]);
      assert all[..k] == all[..k - 1] + [all[k - 1]];
    }
  }

  lemma {:induction false} SecondPassReads(fl: Floats, program: seq<Instruction>, s: Pass, first: nat, k: nat)
    requires k <= |program| && AllOneLine(fl, program) && AllFit(program)
    requires s.parsed == Reread(fl, program, first) && s.labels == map[]
    ensures SecondPass(fl, s, k) == Some(program[..k]) <==> forall i | 0 <= i < k :: Printable(fl, program[i])
    decreases k
  {
    hide OneLine, Printable, KindFits, ParseLine, Trimmed, InstructionText, OpName, InstructionFor, FindName;
    if k > 0 {
      SecondPassReads(fl, program, s, first, k - 1);
      InstructionReads(fl, program[k - 1]);
      assert program[..k] == program[..k - 1] + [program[k - 1]];
      var done := SecondPass(fl, s, k - 1);
      if SecondPass(fl, s, k) == Some(program[..k]) {
        assert program[..k][..k - 1] == program[..k - 1];
        assert SecondPass(fl, s, k).value[..k - 1] == done.value;
      }
    }
  }

  lemma BackLines(fl: Floats, program: seq<Instruction>, ns: seq<int>, s: Pass)
    requires AllFit(program) && s.meta == Kept(ns, |program|) && AllLineNumbersOk(s.meta)
    requires s.parsed == Reread(fl, program, |Header(ns, |program|)| + 1)
    ensures LinesFit(ns, |program|) <==> s.meta == [] || |s.meta| == |program|
    ensures LinesFit(ns, |program|) ==> LinesBack(ns, |program|) == if s.meta != [] then s.meta else SourceLines(s)
  {
    hide KindFits, ParseLine, InstructionText, NumberList, LineNumberOk;
    if ns == [] {
      assert LinesBack(ns, |program|) == SourceLines(s);
    } else if s.meta == [] {
      assert program == [] && LinesBack(ns, |program|) == SourceLines(s);
    }
  }

  /** Round trip of whole programs whose instructions stay on their lines: the printed text is read back as
      the same instructions exactly when each is printable, every jump stays below the program's size and
      the line list fits; with printable instructions anything else is refused. */
  lemma OneLineRoundTrip(fl: Floats, program: seq<Instruction>, ns: seq<int>)
    requires AllOneLine(fl, program)
    ensures AllFit(program)
    ensures var back := LoadText(fl, Serialize(fl, program, ns));
            var fits := TargetsInRange(program) && LinesFit(ns, |program|);
            && (back.Some? && back.value.program == program <==> AllPrintable(fl, program) && fits)
            && (AllPrintable(fl, program) ==>
                  back == if fits then Some(Loaded(program, map[], LinesBack(ns, |program|))) else None)
  {
    hide OneLine, Printable, KindFits, InstructionText, NumberList, Trimmed, Split, ParseLine, InstructionOf, OpName, TargetOk,
         FirstPass, SecondPass, Pieces, LineNumberOk;
    OneLineFits(fl, program);
    TextLines(fl, program, ns);
    var kept, head := Kept(ns, |program|), Header(ns, |program|);
    var lines := head + Printed(fl, program);
    if AllLineNumbersOk(kept) {
      FirstPassReads(fl, program, lines, ns, |program|);
      var all := Reread(fl, program, |head| + 1);
      assert all[..|program|] == all;
      var s := Pass(map[], all, kept);
      SecondPassReads(fl, program, s, |head| + 1, |program|);
      assert program[..|program|] == program;
      BackLines(fl, program, ns, s);
    } else {
      HeaderRead(ns, |program|, lines);
      FirstPassFails(lines, |head|, |lines|);
    }
  }

  // ---------------------------------------------------------------------------------------------
  // Names printed without quotes
  // ---------------------------------------------------------------------------------------------

  lemma {:induction false} TrimRightPrefix(s: string)
    ensures TrimRight(s) <= s && (TrimRight(s) != "" ==> !IsBlank(TrimRight(s)[|TrimRight(s)| - 1]))
  {
    if s != "" && IsBlank(s[|s| - 1]) {
      TrimRightPrefix(s[..|s| - 1]);
    }
  }

  lemma {:induction false} TrimLeftVisible(s: string)
    requires s == "" || !IsBlank(s[|s| - 1])
    ensures TrimLeft(s) == "" || Visible(TrimLeft(s))
    ensures s != "" && IsBlank(s[0]) ==> |TrimLeft(s)| < |s|
  {
    if s != "" && IsBlank(s[0]) {
      if s[1..] != "" {
        assert s[1..][|s| - 2] == s[|s| - 1];
      }
      TrimLeftVisible(s[1..]);
    }
  }

  /** A trimmed text is empty or visible. */
  lemma TrimmedVisible(s: string)
    ensures Trimmed(s) == "" || Visible(Trimmed(s))
    ensures s != "" && IsBlank(s[0]) ==> |Trimmed(s)| < |s|
  {
    hide TrimLeft, TrimRight;
    TrimRightPrefix(s);
    var r := TrimRight(s);
    TrimLeftVisible(r);
    TrimLeftShorter(r);
    assert r != "" ==> r[0] == s[0];
  }

  /** Trimming a word and what follows it. */
  lemma TrimmedTail(w: string, t: string)
    requires Word(w)
    ensures exists u :: Trimmed(w + " " + t) == w + u && u <= " " + t
  {
    hide Word, Letter, TrimLeft, TrimRight;
    WordLetters(w);
    WordNotEmpty(w);
    TrimmedSame(w);
    var raw, tail := w + " " + t, " " + t;
    assert raw == w + tail;
    var r := TrimRight(raw);
    RightTrim(w, tail);
    TrimRightPrefix(raw);
    var u := r[|w|..];
    assert w + u == r by { assert r[..|w|] == raw[..|w|] == w; }
    assert u <= tail by { assert u == raw[|w|..|r|]; }
    assert r[0] == w[0];
    LeftTrim(r);
    assert Trimmed(raw) == w + u;
  }

  lemma {:induction false} RightTrim(w: string, t: string)
    requires w != "" && !IsBlank(w[|w| - 1])
    ensures |TrimRight(w + t)| >= |w|
    decreases |t|
  {
    if t == "" {
      assert w + t == w;
    } else {
      var shorter := t[..|t| - 1];
      RightTrim(w, shorter);
      assert (w + t)[..|w + t| - 1] == w + shorter;
    }
  }

  lemma LeftTrim(s: string)
    requires s != "" && !IsBlank(s[0])
    ensures TrimLeft(s) == s
  {
  }

  lemma TrimmedAll(t: string)
    requires |Trimmed(" " + t)| == |t|
    ensures Trimmed(" " + t) == t
  {
    hide TrimRight;
    var u := " " + t;
    TrimRightPrefix(u);
    var r := TrimRight(u);
    if r != "" {
      assert r[0] == u[0] == ' ';
      assert TrimLeft(r) == TrimLeft(r[1..]);
      LeftTrimWhole(r[1..]);
      assert r[1..] == t;
    } else {
      assert t == "";
    }
  }

  lemma LeftTrimWhole(s: string)
    ensures |TrimLeft(s)| <= |s| && (|TrimLeft(s)| == |s| ==> TrimLeft(s) == s)
  {
    if s != "" && IsBlank(s[0]) {
      TrimLeftShorter(s[1..]);
    }
  }

  lemma WholeTail(t: string, u: string)
    requires t != "" && u <= " " + t && FindColon(u, false).None?
    ensures |Trimmed(u)| <= |t| && (|Trimmed(u)| == |t| ==> Trimmed(u) == t && Visible(t) && FindColon(t, false).None?)
  {
    hide Trimmed, Visible;
    TrimmedVisible(u);
    TrimmedShorter(u);
    assert u != "" ==> u[0] == (" " + t)[0] == ' ';
    if |Trimmed(u)| == |t| {
      assert |u| == |" " + t|;
      assert u == " " + t;
      TrimmedAll(t);
      ColonAfterWord(" ", t);
    }
  }

  /** Whatever follows an opcode word on a line, the operand read is no longer, and it is all of it only
      when it is visible and without a free colon. */
  lemma OperandInside(w: string, t: string)
    requires Word(w) && t != ""
    ensures var x := ParseLine(w + " " + t).operand;
            |x| <= |t| && (|x| == |t| ==> x == t && Visible(t) && FindColon(t, false).None?)
  {
    hide FindColon, Word, Letter, Trimmed, Visible;
    TrimmedTail(w, t);
    var u :| Trimmed(w + " " + t) == w + u && u <= " " + t;
    var line := w + u;
    WordLetters(w);
    WordNotEmpty(w);
    assert line[0] == w[0];
    ColonAfterWord(w, u);
    var colon := FindColon(line, false);
    assert u != "" ==> u[0] == (" " + t)[0] == ' ';
    if colon.None? {
      assert LeadingSpaces(line) == 0;
      assert line[0..] == line;
      WordTaken(w, u);
      assert line[..|w|] == w && line[|w|..] == u;
      WholeTail(t, u);
    } else {
      hide SplitWords;
      var c := colon.value;
      assert c > |w|;
      TrimmedShorter(line[c + 1..]);
      WordsShorter(Trimmed(line[..c]), Trimmed(line[c + 1..]));
    }
  }

  lemma OperandShorter(line: string)
    ensures |ParseLine(line).operand| <= |line|
  {
    hide FindColon, Trimmed, SplitWords;
    TrimmedShorter(line);
    var t := Trimmed(line);
    WordsShorter("", t);
    if FindColon(t, false).Some? {
      var c := FindColon(t, false).value;
      TrimmedShorter(t[c + 1..]);
      WordsShorter(Trimmed(t[..c]), Trimmed(t[c + 1..]));
    }
  }

  /** Every collected line was read from some line of the text. */
  lemma {:induction false} ParsedFrom(lines: seq<string>, k: nat)
    requires k <= |lines| && FirstPass(lines, k).Some?
    ensures forall i | 0 <= i < |FirstPass(lines, k).value.parsed| ::
              exists j: nat :: j < k && FirstPass(lines, k).value.parsed[i] == ParseLine(lines[j]).(sourceLine := j + 1)
    decreases k
  {
    hide ParseLine, Trimmed, ReadMeta;
    if k > 0 {
      ParsedFrom(lines, k - 1);
      var before, after := FirstPass(lines, k - 1).value.parsed, FirstPass(lines, k).value.parsed;
      forall i | 0 <= i < |after|
        ensures exists j: nat :: j < k && after[i] == ParseLine(lines[j]).(sourceLine := j + 1)
      {
        if i < |before| {
          var j: nat :| j < k - 1 && before[i] == ParseLine(lines[j]).(sourceLine := j + 1);
        } else {
          assert after[i] == ParseLine(lines[k - 1]).(sourceLine := k - 1 + 1);
        }
      }
    }
  }

  lemma {:induction false} SecondAt(fl: Floats, s: Pass, k: nat, i: nat)
    requires i < k <= |s.parsed| && SecondPass(fl, s, k).Some?
    ensures InstructionOf(fl, s.parsed[i], s.labels) == Some(SecondPass(fl, s, k).value[i])
    decreases k
  {
    hide InstructionOf;
    if i < k - 1 {
      SecondAt(fl, s, k - 1, i);
    }
  }

  lemma {:induction false} PieceLength(s: string, mark: char, i: nat)
    requires i < |Split(s, mark)|
    ensures |Split(s, mark)[i]| <= |s|
  {
    if s != "" {
      var rest := Split(s[1..], mark);
      if s[0] == mark {
        if i > 0 {
          PieceLength(s[1..], mark, i - 1);
        }
      } else {
        PieceLength(s[1..], mark, i);
      }
    }
  }

  /** Every piece of a text lies within one of its lines. */
  lemma {:induction false} PieceOfLine(lines: seq<string>, j: nat) returns (k: nat, i: nat)
    requires j < |Split(Unlines(lines), '\n')|
    ensures k <= |lines|
    ensures k == |lines| ==> Split(Unlines(lines), '\n')[j] == ""
    ensures k < |lines| ==> i < |Split(lines[k], '\n')| && Split(Unlines(lines), '\n')[j] == Split(lines[k], '\n')[i]
  {
    hide Split;
    k, i := 0, j;
    if lines == [] {
      SplitHead("", "", '\n');
    } else {
      var rest := Unlines(lines[1..]);
      assert Unlines(lines) == lines[0] + ['\n'] + rest;
      SplitAppend(lines[0], rest, '\n');
      var n := |Split(lines[0], '\n')|;
      if j >= n {
        k, i := PieceOfLine(lines[1..], j - n);
        k := k + 1;
      }
    }
  }

  /** A name with a line break leaves no line whose operand is as long as the name. */
  lemma BrokenName(w: string, t: string, j: nat)
    requires Word(w) && '\n' in t && j < |Split(w + " " + t, '\n')|
    ensures |ParseLine(Split(w + " " + t, '\n')[j]).operand| < |t|
  {
    hide Split, ParseLine, Word;
    var p := FirstBreak(t);
    var a, b := t[..p], t[p + 1..];
    WordLetters(w);
    var head := w + " " + a;
    assert '\n' !in head;
    assert w + " " + t == head + ['\n'] + b by { assert t == a + ['\n'] + b; }
    SplitHead(head, b, '\n');
    if j == 0 {
      if a == "" {
        assert head == w + " " + "";
        BlankAfterWord(w);
      } else {
        OperandInside(w, a);
      }
    } else {
      PieceLength(b, '\n', j - 1);
      OperandShorter(Split(b, '\n')[j - 1]);
    }
  }

  lemma {:induction false} FirstBreak(s: string) returns (p: nat)
    requires '\n' in s
    ensures p < |s| && s[p] == '\n' && '\n' !in s[..p]
  {
    p := 0;
    while s[p] != '\n'
      invariant p < |s| && '\n' !in s[..p] && '\n' in s[p..]
      decreases |s| - p
    {
      assert s[p..] == [s[p]] + s[p + 1..];
      assert s[..p + 1] == s[..p] + [s[p]];
      p := p + 1;
    }
  }

  /** No line that a bad name leaves gives a name at least as long. */
  lemma BadNamePiece(w: string, t: string, i: nat, s: string)
    requires Word(w) && !NameOk(t) && |t| <= |s| && s != "" && i < |Split(w + " " + t, '\n')|
    ensures Unquote(ParseLine(Split(w + " " + t, '\n')[i]).operand) != Some(s)
  {
    hide Split, ParseLine, Word, FindColon, Unquote, Visible, Quoted;
    var x := ParseLine(Split(w + " " + t, '\n')[i]).operand;
    UnquoteShorter(x);
    if '\n' in t {
      BrokenName(w, t, i);
    } else {
      WordLetters(w);
      assert '\n' !in w + " " + t;
      SplitHead(w + " " + t, "", '\n');
      if t == "" {
        BlankAfterWord(w);
      } else {
        OperandInside(w, t);
      }
    }
  }

  lemma NameSource(fl: Floats, pl: ParsedLine, ins: Instruction, labels: Labels)
    requires TakesName(ins.op) && ins.operand.StrV? && InstructionOf(fl, pl, labels) == Some(ins)
    ensures FindName(pl.opcode) == Some(ins.op) && Unquote(pl.operand) == Some(ins.operand.s)
  {
    hide InstructionFor, FindName, Unquote, TakesName;
    KeepsOpcode(fl, FindName(pl.opcode).value, pl.operand, labels);
    NameInstruction(fl, ins.op, pl.operand, labels);
  }

  /** Neither does the line of any other instruction. */
  lemma GoodPiece(fl: Floats, ins: Instruction, i: nat, bad: Instruction, labels: Labels)
    requires OneLine(fl, ins) && (TakesName(ins.op) ==> NameOk(ins.operand.s))
    requires TakesName(bad.op) && bad.operand.StrV? && !NameOk(bad.operand.s) && bad.operand.s != ""
    requires KindFits(ins) && i < |Split(InstructionText(fl, ins), '\n')|
    ensures InstructionOf(fl, ParseLine(Split(InstructionText(fl, ins), '\n')[i]), labels) != Some(bad)
  {
    hide Split, ParseLine, FindName, InstructionOf, InstructionText, OpName, OneLine, TakesName, Unquote, NameOk;
    var text := InstructionText(fl, ins);
    InstructionReads(fl, ins);
    SplitHead(text, "", '\n');
    var pl := ParseLine(text);
    if InstructionOf(fl, pl, labels) == Some(bad) {
      NameSource(fl, pl, bad, labels);
      NameFound(pl.opcode, ins.op);
      NameOperand(fl, ins);
      assert false;
    }
  }

  lemma NameOperand(fl: Floats, ins: Instruction)
    requires KindFits(ins) && TakesName(ins.op) && NameOk(ins.operand.s)
    ensures Unquote(OperandRead(fl, ins)) == Some(ins.operand.s)
  {
    hide Visible, FindColon, Unescape;
  }

  predicate BadName(ins: Instruction)
    requires KindFits(ins)
  {
    TakesName(ins.op) && ins.operand.s != "" && !NameOk(ins.operand.s)
  }

  lemma {:induction false} LongestBad(program: seq<Instruction>, first: nat) returns (i: nat)
    requires AllFit(program) && first < |program| && BadName(program[first])
    ensures i < |program| && BadName(program[i])
    ensures forall k | 0 <= k < |program| && BadName(program[k]) :: |program[k].operand.s| <= |program[i].operand.s|
  {
    hide BadName, KindFits;
    FitNames(program);
    i := first;
    for j := 0 to |program|
      invariant i < |program| && BadName(program[i])
      invariant forall k | 0 <= k < j && BadName(program[k]) :: |program[k].operand.s| <= |program[i].operand.s|
    {
      if BadName(program[j]) && |program[j].operand.s| > |program[i].operand.s| {
        i := j;
      }
    }
  }

  lemma FitNames(program: seq<Instruction>)
    requires AllFit(program)
    ensures forall i | 0 <= i < |program| && BadName(program[i]) :: program[i].operand.StrV?
  {
  }

  /** Floating-point operands are printed as one visible word. */
  predicate FloatsClean(fl: Floats, program: seq<Instruction>)
    requires AllFit(program)
  {
    forall i | 0 <= i < |program| && program[i].op.PushFlt? :: Clean(fl.show(program[i].operand.d))
  }

  lemma HeaderPiece(line: string, i: nat)
    requires i < |Split(line, '\n')| && '\n' !in line && Trimmed(line) == line && META <= line
    ensures ParseLine(Split(line, '\n')[i]).operand == ""
  {
    hide Split, Trimmed;
    SplitHead(line, "", '\n');
    assert META[0] == '#';
    assert line[0] == '#';
  }

  lemma NoPiece()
    ensures ParseLine("").operand == "" && Unquote("") == Some("")
  {
  }

  /** A bad name is not read from any line of the text when no bad name is longer. */
  lemma NoSource(fl: Floats, program: seq<Instruction>, ns: seq<int>, bad: nat, j: nat, labels: Labels)
    requires AllFit(program) && FloatsClean(fl, program) && bad < |program| && BadName(program[bad])
    requires forall k | 0 <= k < |program| && BadName(program[k]) :: |program[k].operand.s| <= |program[bad].operand.s|
    requires j < |Split(Serialize(fl, program, ns), '\n')|
    ensures InstructionOf(fl, ParseLine(Split(Serialize(fl, program, ns), '\n')[j]), labels) != Some(program[bad])
  {
    hide Split, ParseLine, InstructionOf, InstructionText, Serialize, Unlines, NumberList, NameOk, Unquote, Clean, Trimmed;
    var ins := program[bad];
    assert KindFits(ins);
    var head := Header(ns, |program|);
    var lines := head + Printed(fl, program);
    var piece := Split(Serialize(fl, program, ns), '\n')[j];
    SerializeLines(fl, program, ns);
    NoPiece();
    var k, i := PieceOfLine(lines, j);
    if InstructionOf(fl, ParseLine(piece), labels) == Some(ins) {
      NameSource(fl, ParseLine(piece), ins, labels);
      if k < |head| {
        MetaReads(Kept(ns, |program|));
        HeaderPiece(lines[k], i);
        assert false;
      } else if k < |lines| {
        LinePiece(fl, program, k - |head|, i, ins, labels);
        assert false;
      }
    }
  }

  lemma LinePiece(fl: Floats, program: seq<Instruction>, k: nat, i: nat, bad: Instruction, labels: Labels)
    requires AllFit(program) && FloatsClean(fl, program) && KindFits(bad) && BadName(bad) && k < |program|
    requires BadName(program[k]) ==> |program[k].operand.s| <= |bad.operand.s|
    requires i < |Split(InstructionText(fl, program[k]), '\n')|
    ensures InstructionOf(fl, ParseLine(Split(InstructionText(fl, program[k]), '\n')[i]), labels) != Some(bad)
  {
    hide Split, ParseLine, InstructionOf, InstructionText, NameOk, Unquote, Clean, Visible, FindColon, Quoted, OpName;
    var ins := program[k];
    assert KindFits(ins);
    if TakesName(ins.op) && !NameOk(ins.operand.s) {
      NameIsWord(ins.op);
      NameLine(fl, ins);
      BadNamePiece(OpName(ins.op), ins.operand.s, i, bad.operand.s);
      var pl := ParseLine(Split(InstructionText(fl, ins), '\n')[i]);
      if InstructionOf(fl, pl, labels) == Some(bad) {
        NameSource(fl, pl, bad, labels);
      }
    } else {
      OkName(ins);
      GoodPiece(fl, ins, i, bad, labels);
    }
  }

  lemma OkName(ins: Instruction)
    requires KindFits(ins)
    ensures TakesName(ins.op) && NameOk(ins.operand.s) ==> Clean(ins.operand.s)
  {
    hide Visible, FindColon, Quoted;
  }

  lemma NameLine(fl: Floats, ins: Instruction)
    requires KindFits(ins) && TakesName(ins.op)
    ensures InstructionText(fl, ins) == OpName(ins.op) + " " + ins.operand.s
  {
    hide OpName;
  }

  /** A program with a bad name is not read back, however its lines fall. */
  lemma BadNameLost(fl: Floats, program: seq<Instruction>, ns: seq<int>, first: nat)
    requires AllFit(program) && FloatsClean(fl, program) && first < |program| && BadName(program[first])
    ensures var back := LoadText(fl, Serialize(fl, program, ns)); !(back.Some? && back.value.program == program)
  {
    hide Split, ParseLine, FirstPass, SecondPass, InstructionOf, InstructionText, Serialize, BadName, KindFits, FloatsClean, TargetOk;
    var text := Serialize(fl, program, ns);
    var back := LoadText(fl, text);
    if back.Some? && back.value.program == program {
      var bad := LongestBad(program, first);
      var lines := Pieces(text, '\n');
      var s := FirstPass(lines, |lines|).value;
      ParsedFrom(lines, |lines|);
      SecondAt(fl, s, |s.parsed|, bad);
      var j: nat :| j < |lines| && s.parsed[bad] == ParseLine(lines[j]).(sourceLine := j + 1);
      assert lines[j] == Split(text, '\n')[j];
      SourceLineIgnored(fl, ParseLine(lines[j]), j + 1, s.labels);
      NoSource(fl, program, ns, bad, j, s.labels);
      assert false;
    }
  }

  lemma SourceLineIgnored(fl: Floats, pl: ParsedLine, n: nat, labels: Labels)
    ensures InstructionOf(fl, pl.(sourceLine := n), labels) == InstructionOf(fl, pl, labels)
  {
    hide InstructionFor, FindName;
  }

  /** Round trip of every program that can be printed: the text is read back as the same instructions
      exactly when each is printable, every jump stays below the program's size and the line list fits;
      with printable instructions anything else is refused. */
  lemma RoundTrip(fl: Floats, program: seq<Instruction>, ns: seq<int>)
    requires AllFit(program) && FloatsClean(fl, program)
    ensures var back := LoadText(fl, Serialize(fl, program, ns));
            var fits := TargetsInRange(program) && LinesFit(ns, |program|);
            && (back.Some? && back.value.program == program <==> AllPrintable(fl, program) && fits)
            && (AllPrintable(fl, program) ==>
                  back == if fits then Some(Loaded(program, map[], LinesBack(ns, |program|))) else None)
  {
    hide LoadText, Serialize, KindFits, OneLine, BadName, Printable, Clean, LinesFit, TargetsInRange;
    if i: nat :| i < |program| && BadName(program[i]) {
      BadNameLost(fl, program, ns, i);
      BadNotPrintable(fl, program[i]);
    } else {
      forall i | 0 <= i < |program|
        ensures OneLine(fl, program[i])
      {
        NotBadOneLine(fl, program[i]);
      }
      OneLineRoundTrip(fl, program, ns);
    }
  }

  lemma BadNotPrintable(fl: Floats, ins: Instruction)
    requires KindFits(ins) && BadName(ins)
    ensures !Printable(fl, ins)
  {
    hide OneLine, NameOk;
  }

  lemma NotBadOneLine(fl: Floats, ins: Instruction)
    requires KindFits(ins) && !BadName(ins) && (ins.op.PushFlt? ==> Clean(fl.show(ins.operand.d)))
    ensures OneLine(fl, ins)
  {
    hide Visible, FindColon, Quoted;
  }
}
