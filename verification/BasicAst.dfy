/** Expressions and normalized statements of BASIC, with the rules the emitter enforces on them. */
module BasicAst {
  import opened Bytecode

  datatype BinaryOp =
    | AddOp | SubtractOp | MultiplyOp | DivideOp
    | EqualOp | NotEqualOp | LessThanOp | LessOrEqualOp | GreaterThanOp | GreaterOrEqualOp

  datatype Expr =
    | IntLiteral(n: int)
    | FloatLiteral(d: real)
    | StringLiteral(s: string)
    | Identifier(name: string)
    | Negate(operand: Expr)
    | Binary(op: BinaryOp, left: Expr, right: Expr)
    | Grouped(inner: Expr)
    | Subscript(arrayName: string, index: Expr)
    | AttributeAccess(recordName: string, attr: Expr, valueIndex: Option<Expr>)
    | DictField(token: string)
    | FunctionCall(builtin: string, args: seq<Expr>)

  /** A THEN or ELSE arm: a line number, one statement, or neither (which the emitter reports). */
  datatype BranchArm = LineArm(line: int) | InlineArm(stmt: Stmt) | EmptyArm

  datatype Stmt =
    | Let(variable: string, expr: Expr)
    | Input(prompt: Option<Expr>, variable: string)
    | ChainTo(program: Expr)
    | Goto(target: int)
    | Gosub(target: int)
    | ReturnStmt
    | For(variable: string, init: Expr, limit: Expr, step: Option<Expr>)
    | Next(variable: string)
    | If(condition: Expr, thenArm: BranchArm, elseArm: Option<BranchArm>)
    | Print(expr: Expr, suppressEol: bool)
    | Rem
    | Stop
    | End
    | Dim(variable: string, size: Expr)
    | LetArray(variable: string, index: Expr, value: Expr)
    | Clear
    | Open(file: Expr, fileVar: string, elseArm: Option<BranchArm>)
    | Read(into: string, fileVar: string, id: Expr, elseArm: Option<BranchArm>)
    | ReadU(into: string, fileVar: string, id: Expr, elseArm: Option<BranchArm>)
    | Write(value: Expr, fileVar: string, id: Expr, elseArm: Option<BranchArm>)
    | WriteU(value: Expr, fileVar: string, id: Expr, elseArm: Option<BranchArm>)
    | ReadNextId(into: string, fileVar: string, elseArm: Option<BranchArm>)
    | ReadVal(into: string, fileVar: string, id: Expr, attr: Expr, valueIndex: Option<Expr>, elseArm: Option<BranchArm>)
    | WriteVal(value: Expr, fileVar: string, id: Expr, attr: Expr, valueIndex: Option<Expr>, elseArm: Option<BranchArm>)
    | Close(fileVar: string)
    | Release(fileVar: string, id: Expr)
    | OnError(stop: bool, target: int)
    | MatFill(matName: string, expr: Expr)
    | MatAssign(matName: string, source: string)
    | MatRead(matName: string, fileVar: string, id: Expr, elseArm: Option<BranchArm>)
    | MatWrite(matName: string, fileVar: string, id: Expr, elseArm: Option<BranchArm>)

  datatype Line = Line(number: int, stmt: Stmt)

  // ---------------------------------------------------------------------------------------------
  // Names and builtins
  // ---------------------------------------------------------------------------------------------

  predicate IsStringVar(name: string) {
    name != "" && name[|name| - 1] == '$'
  }

  predicate IsIntVar(name: string) {
    name != "" && name[|name| - 1] == '%'
  }

  predicate IsAlpha(c: char) {
    'a' <= c <= 'z' || 'A' <= c <= 'Z'
  }

  predicate IsAlnum(c: char) {
    IsAlpha(c) || '0' <= c <= '9'
  }

  predicate IsReadOnlySystemName(canonical: string) {
    canonical == "@USERNO" || canonical == "@ACCOUNT" || canonical == "@LOGNAME" || canonical == "@DEFDATA"
  }

  predicate IsValidVariableName(token: string) {
    if token == "" then false
    else if token[0] == '@' then IsReadOnlySystemName(Uppercase(token))
    else
      IsAlpha(token[0]) &&
      var last := token[|token| - 1];
      var bodyEnd := if |token| > 1 && (last == '$' || last == '%') then |token| - 1 else |token|;
      forall i | 0 <= i < bodyEnd :: IsAlnum(token[i])
  }

  predicate IsArithmetic(op: BinaryOp) {
    op.AddOp? || op.SubtractOp? || op.MultiplyOp? || op.DivideOp?
  }

  /** Fewest and most arguments of a builtin. */
  function BuiltinArity(name: string): (r: Option<(nat, nat)>) {
    if name in ["DATE", "TIME", "STATUS"] then Some((0, 0))
    else if name == "RND" then Some((0, 1))
    else if name == "MOD" then Some((2, 2))
    else if name == "INDEX" then Some((2, 3))
    else if name == "FIELD" then Some((3, 3))
    else if name in ["OCONV", "ICONV"] then Some((2, 2))
    else if name == "CONVERT" then Some((3, 3))
    else if name in ["ABS", "SGN", "SEQ", "LEN", "TRIM", "LCASE", "UCASE", "SPACE", "INT", "SIN",
                     "COS", "TAN", "EXP", "LOG", "SYSTEM", "STR", "NUM"] then Some((1, 1))
    else None
  }

  const BASIC_NAMESPACE: nat := 2

  const FUNCTION_TABLE: seq<(string, nat)> := [
    ("ABS", 1), ("SGN", 1), ("SEQ", 1), ("LEN", 1), ("TRIM", 1), ("LCASE", 1), ("UCASE", 1), ("SPACE", 1),
    ("INT", 1), ("MOD", 2), ("SIN", 1), ("COS", 1), ("TAN", 1), ("EXP", 1), ("LOG", 1), ("DATE", 0),
    ("TIME", 0), ("SYSTEM", 1), ("INDEX", 3), ("FIELD", 3), ("STR", 1), ("OCONV", 2), ("ICONV", 2),
    ("NUM", 1), ("CONVERT", 3), ("RND", 0), ("RND", 1), ("STATUS", 0)]

  /** The function id of a builtin at an argument count: its place in the published table. */
  function FunctionId(name: string, argCount: nat, from: nat := 0): (r: Option<nat>)
    requires from <= |FUNCTION_TABLE|
    ensures r.Some? ==> from <= r.value < |FUNCTION_TABLE| && FUNCTION_TABLE[r.value] == (name, argCount)
    ensures r.None? ==> forall i | from <= i < |FUNCTION_TABLE| :: FUNCTION_TABLE[i] != (name, argCount)
    decreases |FUNCTION_TABLE| - from
  {
    if from == |FUNCTION_TABLE| then None
    else if FUNCTION_TABLE[from] == (name, argCount) then Some(from)
    else FunctionId(name, argCount, from + 1)
  }

  /** INDEX with two arguments is called with a third one equal to 1. */
  predicate ThirdArgImplied(name: string, got: nat) {
    name == "INDEX" && got == 2
  }

  function EffectiveArgs(name: string, got: nat): nat {
    if ThirdArgImplied(name, got) then got + 1 else got
  }

  predicate BuiltinCallOk(name: string, got: nat) {
    var bounds := BuiltinArity(name);
    bounds.Some? && bounds.value.0 <= got <= bounds.value.1 && FunctionId(name, EffectiveArgs(name, got)).Some?
  }

  function BuiltinRef(name: string, got: nat): (f: FuncRef)
    requires BuiltinCallOk(name, got)
    ensures f.argCount == EffectiveArgs(name, got)
  {
    var n := EffectiveArgs(name, got);
    FuncRef(BASIC_NAMESPACE, FunctionId(name, n).value, n)
  }

  /** Whether argument `i` of a builtin is emitted in numeric context. */
  predicate BuiltinArgInArithmetic(name: string, i: nat) {
    if name == "INDEX" || name == "FIELD" then i == 2
    else if name == "STR" then true
    else name !in ["OCONV", "ICONV", "CONVERT", "NUM", "SEQ", "LEN", "TRIM", "LCASE", "UCASE", "DATE", "TIME"]
  }

  // ---------------------------------------------------------------------------------------------
  // What the emitter accepts
  // ---------------------------------------------------------------------------------------------

  /** The emitter produces code for `e`; `inArith` marks operands of arithmetic. */
  predicate ExprOk(e: Expr, inArith: bool)
    decreases e, 1
  {
    match e
    case IntLiteral(_) => true
    case FloatLiteral(_) => true
    case StringLiteral(_) => true
    case DictField(token) => !inArith && token != ""
    case Identifier(name) => IsValidVariableName(name) && !(inArith && IsStringVar(name))
    case Negate(x) => ExprOk(x, true)
    case Binary(op, l, r) => ExprOk(l, IsArithmetic(op)) && ExprOk(r, IsArithmetic(op))
    case Grouped(x) => ExprOk(x, inArith)
    case Subscript(name, i) => IsValidVariableName(name) && !(inArith && IsStringVar(name)) && ExprOk(i, false)
    case AttributeAccess(name, a, v) =>
      IsValidVariableName(name) && ExprOk(a, false) && (v.Some? ==> ExprOk(v.value, false))
    case FunctionCall(name, args) => BuiltinCallOk(name, |args|) && ArgsOk(name, args, 0)
  }

  /** The arguments `args`, the first of which is argument `i` of the call, are all accepted. */
  predicate ArgsOk(name: string, args: seq<Expr>, i: nat)
    decreases args, 0
  {
    args == [] || (ExprOk(args[0], BuiltinArgInArithmetic(name, i)) && ArgsOk(name, args[1..], i + 1))
  }

  // ---------------------------------------------------------------------------------------------
  // File statements: evaluate arguments, perform one operation, store its value, or take the ELSE arm
  // ---------------------------------------------------------------------------------------------

  /** How one operand of a file operation is obtained: an expression, an expression resolved through
      the file's dictionary, a constant, or a whole array packed into a record. */
  datatype FileArg = ExprArg(e: Expr) | DictArg(e: Expr) | ConstArg(n: int) | PackArg(name: string)

  /** Where the value produced by a file operation goes. */
  datatype Sink = NoSink | VarSink(name: string) | ArraySink(name: string)

  predicate IsFile(s: Stmt) {
    s.Open? || s.Read? || s.ReadU? || s.Write? || s.WriteU? || s.ReadNextId? || s.ReadVal? || s.WriteVal? ||
    s.MatRead? || s.MatWrite?
  }

  function IndexArg(e: Option<Expr>): FileArg {
    if e.Some? then ExprArg(e.value) else ConstArg(0)
  }

  /** Operands in evaluation order. READV resolves a DICT field or a quoted name; WRITEV resolves a
      DICT field only at the top of a line, not inside an arm. */
  function FileArgs(s: Stmt, top: bool): seq<FileArg>
    requires IsFile(s)
  {
    match s
    case Open(f, _, _) => [ExprArg(f)]
    case Read(_, _, id, _) => [ExprArg(id)]
    case ReadU(_, _, id, _) => [ExprArg(id)]
    case Write(v, _, id, _) => [ExprArg(v), ExprArg(id)]
    case WriteU(v, _, id, _) => [ExprArg(v), ExprArg(id)]
    case ReadNextId(_, _, _) => []
    case ReadVal(_, _, id, at, vi, _) =>
      [ExprArg(id), if at.DictField? || at.StringLiteral? then DictArg(at) else ExprArg(at), IndexArg(vi)]
    case WriteVal(v, _, id, at, vi, _) =>
      [ExprArg(v), ExprArg(id), if top && at.DictField? then DictArg(at) else ExprArg(at), IndexArg(vi)]
    case MatRead(_, _, id, _) => [ExprArg(id)]
    case MatWrite(a, _, id, _) => [PackArg(a), ExprArg(id)]
  }

  function FileSink(s: Stmt): Sink
    requires IsFile(s)
  {
    match s
    case Read(t, _, _, _) => VarSink(t)
    case ReadU(t, _, _, _) => VarSink(t)
    case ReadNextId(t, _, _) => VarSink(t)
    case ReadVal(t, _, _, _, _, _) => VarSink(t)
    case MatRead(a, _, _, _) => ArraySink(a)
    case _ => NoSink
  }

  /** The opcode used without an ELSE arm. */
  function FileOp(s: Stmt): OpCode
    requires IsFile(s)
  {
    match s
    case Open(_, _, _) => OpenFile
    case Read(_, _, _, _) => ReadRec
    case ReadU(_, _, _, _) => ReadRecU
    case Write(_, _, _, _) => WriteRec
    case WriteU(_, _, _, _) => WriteRecU
    case ReadNextId(_, _, _) => ReadNext
    case ReadVal(_, _, _, _, _, _) => ReadV
    case WriteVal(_, _, _, _, _, _) => WriteV
    case MatRead(_, _, _, _) => ReadRec
    case MatWrite(_, _, _, _) => WriteRec
  }

  /** The opcode used with an ELSE arm: it pushes a success flag instead of failing. */
  function TryOp(op: OpCode): OpCode {
    match op
    case OpenFile => OpenFileTry
    case ReadRec => ReadRecTry
    case ReadRecU => ReadRecUTry
    case WriteRec => WriteRecTry
    case WriteRecU => WriteRecUTry
    case ReadNext => ReadNextTry
    case ReadV => ReadVTry
    case WriteV => WriteVTry
    case _ => op
  }

  predicate FileArgOk(a: FileArg) {
    (a.ExprArg? || a.DictArg?) ==> ExprOk(a.e, false)
  }

  predicate OptOk(e: Option<Expr>) {
    e.Some? ==> ExprOk(e.value, false)
  }

  predicate ArmOk(a: BranchArm) {
    match a
    case LineArm(_) => true
    case InlineArm(s) => StmtOk(s, false)
    case EmptyArm => false
  }

  /** The emitter produces code for the statement: at the top of a line, or inside an arm. */
  predicate StmtOk(s: Stmt, top: bool) {
    if IsFile(s) then
      && (s.MatRead? || s.MatWrite? ==> top)
      && (forall a | a in FileArgs(s, top) :: FileArgOk(a))
      && (s.elseArm.Some? ==> ArmOk(s.elseArm.value))
    else
      match s
      case Let(_, e) => ExprOk(e, false)
      case Input(p, _) => OptOk(p)
      case ChainTo(e) => ExprOk(e, false)
      case For(v, init, limit, step) =>
        top && !IsStringVar(v) && ExprOk(init, false) && ExprOk(limit, false) && OptOk(step)
      case Next(_) => top
      case If(c, t, e) => ExprOk(c, false) && ArmOk(t) && (e.Some? ==> ArmOk(e.value))
      case Print(e, _) => ExprOk(e, false)
      case Dim(_, e) => top && ExprOk(e, false)
      case LetArray(_, i, v) => top && ExprOk(i, false) && ExprOk(v, false)
      case Release(_, id) => ExprOk(id, false)
      case OnError(_, _) => top
      case MatFill(_, e) => top && ExprOk(e, false)
      case MatAssign(_, _) => top
      case _ => true
  }

  // ---------------------------------------------------------------------------------------------
  // What semantic analysis guarantees
  // ---------------------------------------------------------------------------------------------

  predicate ArmTargetsKnown(a: BranchArm, known: set<int>) {
    match a
    case LineArm(n) => n in known
    case InlineArm(s) => TargetsKnown(s, known)
    case EmptyArm => false
  }

  /** Every line number the statement can transfer to exists. */
  predicate TargetsKnown(s: Stmt, known: set<int>) {
    if IsFile(s) then s.elseArm.Some? ==> ArmTargetsKnown(s.elseArm.value, known)
    else
      match s
      case Goto(n) => n in known
      case Gosub(n) => n in known
      case OnError(stop, n) => stop || n in known
      case If(_, t, e) => ArmTargetsKnown(t, known) && (e.Some? ==> ArmTargetsKnown(e.value, known))
      case _ => true
  }

  function LineNumbers(p: seq<Line>): set<int> {
    set i | 0 <= i < |p| :: p[i].number
  }

  /** The program passed semantic analysis. */
  predicate Analyzed(p: seq<Line>) {
    forall i | 0 <= i < |p| :: TargetsKnown(p[i].stmt, LineNumbers(p))
  }
}
