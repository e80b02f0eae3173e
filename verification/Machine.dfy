/** The bytecode machine: what one instruction does to the operand stack, the GOSUB and FOR stacks,
    the variables and the outside world. Covers every opcode the BASIC emitter produces. */
module Machine {
  import opened Bytecode
  import BasicAst
  import Records

  // ---------------------------------------------------------------------------------------------
  // The outside world
  // ---------------------------------------------------------------------------------------------

  datatype IoKind = IoOpen | IoRead | IoReadU | IoWrite | IoWriteU | IoReadNext | IoReadV | IoWriteV
                  | IoRelease | IoClose | IoResolve

  /** Everything the program does that the outside can notice, in order. */
  datatype Event =
    | Printed(text: string)
    | InputTaken
    | BuiltinCalled(func: FuncRef, args: seq<Value>)
    | FileCalled(kind: IoKind, fileVar: string, args: seq<Value>)

  /** Answer of the file layer. `NotThere` stands for an unopened file variable or a missing file,
      record, attribute or cursor position; `Held` for a record locked by another session. */
  datatype IoAnswer = Got(v: Value) | NotThere | Held | Broken

  /** The parts of the system the machine calls. Answers may depend on the whole history of what the
      program did, so files, locks, the clock and the random source are all covered. `arith` and
      `compare` answer None where the runtime throws. */
  datatype Host = Host(
    arith: (OpCode, Value, Value) -> Option<Value>,
    compare: (Value, Value) -> Option<int>,
    toText: Value -> string,
    toInt: Value -> int,
    systemVar: (seq<Event>, string) -> Option<Value>,
    builtin: (seq<Event>, int, FuncRef, seq<Value>) -> Option<Value>,
    io: (seq<Event>, IoKind, string, seq<Value>) -> IoAnswer,
    input: seq<Event> -> Option<string>)

  // ---------------------------------------------------------------------------------------------
  // Machine state
  // ---------------------------------------------------------------------------------------------

  datatype Env = Env(vars: map<string, Value>, arrays: map<string, seq<Value>>, log: seq<Event>, status: int)

  datatype ForFrame = ForFrame(varName: string, limit: int, step: int, body: nat)

  datatype Vm = Vm(env: Env, stack: seq<Value>, ip: nat, calls: seq<nat>, fors: seq<ForFrame>, onError: Option<nat>)

  const LOADED := Vm(Env(map[], map[], [], 0), [], 0, [], [], None)

  datatype FaultKind = Underflow | OperandKind | Raised | NotModelled

  datatype Outcome =
    | Running(vm: Vm)
    | Halted(env: Env)
    | Fault(kind: FaultKind, env: Env)
    | Chained(program: string, env: Env)

  function Log(env: Env, e: Event): Env {
    env.(log := env.log + [e])
  }

  // ---------------------------------------------------------------------------------------------
  // Shared primitives of the runtime and of BASIC itself
  // ---------------------------------------------------------------------------------------------

  function Truth(b: bool): Value {
    IntV(if b then 1 else 0)
  }

  predicate IsArith(op: OpCode) {
    op.Add? || op.Sub? || op.Mul? || op.Div?
  }

  /** The four arithmetic operators and the six comparisons. */
  function Operate(h: Host, op: OpCode, a: Value, b: Value): Option<Value> {
    if IsArith(op) then h.arith(op, a, b)
    else
      match h.compare(a, b)
      case None => None
      case Some(c) =>
        Some(Truth(if op.Eq? then c == 0
                   else if op.Ne? then c != 0
                   else if op.Lt? then c < 0
                   else if op.Le? then c <= 0
                   else if op.Gt? then c > 0
                   else c >= 0))
  }

  function ReadVariable(h: Host, env: Env, name: string): Option<Value> {
    var fromSystem := if BasicAst.IsReadOnlySystemName(name) then h.systemVar(env.log, name) else None;
    if fromSystem.Some? then fromSystem
    else if name in env.vars then Some(env.vars[name])
    else None
  }

  /** An array cell, counting from one. */
  function ReadCell(env: Env, name: string, i: int): Option<Value> {
    if name in env.arrays && 1 <= i <= |env.arrays[name]| then Some(env.arrays[name][i - 1]) else None
  }

  function Extract(h: Host, rec: Value, attr: Value, valueIndex: Value): Value {
    var text := Records.Attr(h.toText(rec), h.toInt(attr));
    StrV(if h.toInt(valueIndex) > 0 then Records.ValueAt(text, h.toInt(valueIndex)) else text)
  }

  /** An updated environment, or the failure of the statement. */
  datatype Change = Done(env: Env) | Failed(env: Env)

  function StoreVariable(env: Env, name: string, v: Value): Change {
    if BasicAst.IsReadOnlySystemName(name) then Failed(env) else Done(env.(vars := env.vars[name := v]))
  }

  function Dimension(h: Host, env: Env, name: string, size: Value): Change {
    if BasicAst.IsReadOnlySystemName(name) || h.toInt(size) < 1 then Failed(env)
    else Done(env.(arrays := env.arrays[name := seq(h.toInt(size), _ => StrV(""))]))
  }

  function StoreCell(h: Host, env: Env, name: string, i: Value, v: Value): Change {
    var k := h.toInt(i);
    if BasicAst.IsReadOnlySystemName(name) || ReadCell(env, name, k).None? then Failed(env)
    else Done(env.(arrays := env.arrays[name := env.arrays[name][k - 1 := v]]))
  }

  /** The value a cell of array `name` takes when `v` is assigned: `%` arrays hold integers. */
  function ForArray(h: Host, name: string, v: Value): Value {
    if BasicAst.IsIntVar(name) then IntV(h.toInt(v)) else v
  }

  function FillArray(h: Host, env: Env, name: string, v: Value): Change {
    if BasicAst.IsReadOnlySystemName(name) || name !in env.arrays then Failed(env)
    else Done(env.(arrays := env.arrays[name := seq(|env.arrays[name]|, _ => ForArray(h, name, v))]))
  }

  function CopyArray(h: Host, env: Env, dst: string, src: string): Change {
    if BasicAst.IsReadOnlySystemName(dst) || dst !in env.arrays || src !in env.arrays ||
       |env.arrays[dst]| != |env.arrays[src]| then Failed(env)
    else
      var from := env.arrays[src];
      Done(env.(arrays := env.arrays[dst := seq(|from|, i requires 0 <= i < |from| => ForArray(h, dst, from[i]))]))
  }

  function LoadArray(h: Host, env: Env, name: string, raw: Value): Change {
    var lines := Records.Lines(h.toText(raw));
    if BasicAst.IsReadOnlySystemName(name) || name !in env.arrays || |env.arrays[name]| != |lines| then Failed(env)
    else
      Done(env.(arrays := env.arrays[name := seq(|lines|, i requires 0 <= i < |lines| => ForArray(h, name, StrV(lines[i])))]))
  }

  function PackArray(h: Host, env: Env, name: string): Option<Value> {
    if name !in env.arrays then None
    else
      var cells := env.arrays[name];
      Some(StrV(Records.Join(seq(|cells|, i requires 0 <= i < |cells| => h.toText(cells[i])), Records.NEWLINE)))
  }

  /** One call of the file layer. */
  datatype Answered = Answered(answer: IoAnswer, env: Env)

  function CallFiles(h: Host, env: Env, kind: IoKind, fileVar: string, args: seq<Value>): Answered {
    Answered(h.io(env.log, kind, fileVar, args), Log(env, FileCalled(kind, fileVar, args)))
  }

  /** A dictionary token becomes an attribute number, stays a token, or becomes 0 when unknown. */
  function ResolveDict(h: Host, env: Env, fileVar: string, token: Value): (r: (Value, Env)) {
    var a := CallFiles(h, env, IoResolve, fileVar, [StrV(h.toText(token))]);
    (if a.answer.Got? && !a.answer.v.FltV? then a.answer.v else IntV(0), a.env)
  }

  // ---------------------------------------------------------------------------------------------
  // File opcodes
  // ---------------------------------------------------------------------------------------------

  /** The file operation behind an opcode, in its failing or its trying form. */
  function IoOf(op: OpCode): Option<IoKind> {
    if op.OpenFile? || op.OpenFileTry? then Some(IoOpen)
    else if op.ReadRec? || op.ReadRecTry? then Some(IoRead)
    else if op.ReadRecU? || op.ReadRecUTry? then Some(IoReadU)
    else if op.WriteRec? || op.WriteRecTry? then Some(IoWrite)
    else if op.WriteRecU? || op.WriteRecUTry? then Some(IoWriteU)
    else if op.ReadNext? || op.ReadNextTry? then Some(IoReadNext)
    else if op.ReadV? || op.ReadVTry? then Some(IoReadV)
    else if op.WriteV? || op.WriteVTry? then Some(IoWriteV)
    else None
  }

  predicate IsTry(op: OpCode) {
    op.OpenFileTry? || op.ReadRecTry? || op.ReadRecUTry? || op.WriteRecTry? || op.WriteRecUTry? ||
    op.ReadNextTry? || op.ReadVTry? || op.WriteVTry?
  }

  predicate Reads(kind: IoKind) {
    kind.IoRead? || kind.IoReadU? || kind.IoReadNext? || kind.IoReadV?
  }

  function IoArity(kind: IoKind): nat {
    if kind.IoWrite? || kind.IoWriteU? then 2
    else if kind.IoReadNext? then 0
    else if kind.IoReadV? then 3
    else if kind.IoWriteV? then 4
    else 1
  }

  /** How a failing opcode and a trying opcode see an answer: success with a value, an ordinary miss
      (the trying form reports it through its flag), a lock conflict that ON ERROR may catch, or an
      error that always stops the program. */
  datatype Verdict = Success(v: Value) | Miss | Conflict | Stops

  /** The trying forms that turn every error into a miss. */
  predicate CatchesAll(kind: IoKind) {
    kind.IoOpen? || kind.IoReadNext? || kind.IoWriteV?
  }

  function Judge(kind: IoKind, trying: bool, answer: IoAnswer): Verdict {
    match answer
    case Got(v) => Success(v)
    case NotThere => if trying then Miss else Stops
    case Held =>
      if kind.IoRead? || kind.IoReadU? || kind.IoWrite? || kind.IoWriteU? then (if trying then Miss else Conflict)
      else if trying && CatchesAll(kind) then Miss
      else Stops
    case Broken => if trying && CatchesAll(kind) then Miss else Stops
  }

  // ---------------------------------------------------------------------------------------------
  // Data opcodes: pop operands, push results
  // ---------------------------------------------------------------------------------------------

  datatype Effect =
    | Push(vs: seq<Value>, env: Env)
    | Raise(env: Env)
    | Clash(env: Env)
    | Leave(program: string, env: Env)

  function PushIf(o: Option<Value>, env: Env): Effect {
    if o.Some? then Push([o.value], env) else Raise(env)
  }

  function Settle(c: Change): Effect {
    if c.Done? then Push([], c.env) else Raise(c.env)
  }

  predicate IsOperator(op: OpCode) {
    IsArith(op) || op.Eq? || op.Ne? || op.Lt? || op.Le? || op.Gt? || op.Ge?
  }

  predicate IsData(op: OpCode) {
    || op.PushInt? || op.PushFlt? || op.PushStr? || op.Drop? || op.PrintVal? || op.PrintEol? || op.InputStr?
    || op.CoerceInt? || op.DimArray? || op.LoadArr? || op.StoreArr? || op.MatInit? || op.MatCopy?
    || op.MatLoadFromRec? || op.MatStoreToRec? || op.ClearVars? || op.CallFunc? || op.ReleaseRec?
    || op.ExtractAttr? || op.ResolveDictAttr? || op.Chain? || op.CloseFile? || op.LoadVar? || op.StoreVar?
    || IsOperator(op) || IoOf(op).Some?
  }

  /** Opcodes whose operand is an integer, and those whose operand is a name or text. */
  predicate TakesInt(op: OpCode) {
    op.PushInt? || op.Jump? || op.JumpIfZero? || op.Call? || op.SetOnErrorHandler?
  }

  predicate TakesText(op: OpCode) {
    || op.PushStr? || op.ForSetup? || op.ForNext? || op.DimArray? || op.LoadArr? || op.StoreArr?
    || op.MatInit? || op.MatCopy? || op.MatLoadFromRec? || op.MatStoreToRec? || op.ReleaseRec?
    || op.ResolveDictAttr? || op.CloseFile? || op.LoadVar? || op.StoreVar? || IoOf(op).Some?
  }

  predicate OperandFits(ins: Instruction) {
    && (TakesInt(ins.op) ==> ins.operand.IntV?)
    && (ins.op.PushFlt? ==> ins.operand.FltV?)
    && (TakesText(ins.op) ==> ins.operand.StrV?)
  }

  /** Operands popped by a data opcode. */
  function Pops(ins: Instruction): nat {
    var op := ins.op;
    if op.CallFunc? then ins.func.argCount
    else if op.ExtractAttr? then 3
    else if op.StoreArr? || IsOperator(op) then 2
    else if op.Drop? || op.PrintVal? || op.CoerceInt? || op.DimArray? || op.LoadArr? || op.MatInit? ||
            op.MatLoadFromRec? || op.ReleaseRec? || op.ResolveDictAttr? || op.Chain? || op.StoreVar? then 1
    else if IoOf(op).Some? then IoArity(IoOf(op).value)
    else 0
  }

  /** Results pushed by a data opcode that completes. */
  function Pushes(ins: Instruction): nat {
    var op := ins.op;
    if op.PushInt? || op.PushFlt? || op.PushStr? || op.InputStr? || op.CoerceInt? || op.LoadArr? ||
       op.MatStoreToRec? || op.CallFunc? || op.ExtractAttr? || op.ResolveDictAttr? || op.LoadVar? || IsOperator(op) then 1
    else if IoOf(op).Some? then
      (if Reads(IoOf(op).value) then 1 else 0) + (if IsTry(op) then 1 else 0)
    else 0
  }

  function FirstBar(s: string): Option<nat> {
    if s == "" then None
    else if s[0] == '|' then Some(0)
    else match FirstBar(s[1..]) case None => None case Some(i) => Some(i + 1)
  }

  function Trimmed(s: string): string {
    TrimLeft(TrimRight(s))
  }

  predicate IsBlank(c: char) {
    c == ' ' || c == '\t' || c == '\r' || c == '\n'
  }

  function TrimLeft(s: string): string {
    if s != "" && IsBlank(s[0]) then TrimLeft(s[1..]) else s
  }

  function TrimRight(s: string): string {
    if s != "" && IsBlank(s[|s| - 1]) then TrimRight(s[..|s| - 1]) else s
  }

  function FileEffect(h: Host, op: OpCode, fileVar: string, args: seq<Value>, env: Env): Effect
    requires IoOf(op).Some?
  {
    var kind := IoOf(op).value;
    var a := CallFiles(h, env, kind, fileVar, args);
    match Judge(kind, IsTry(op), a.answer)
    case Success(v) => Push((if Reads(kind) then [v] else []) + (if IsTry(op) then [IntV(1)] else []), a.env)
    case Miss => Push((if Reads(kind) then [StrV("")] else []) + [IntV(0)], a.env)
    case Conflict => Clash(a.env)
    case Stops => Raise(a.env)
  }

  /** What a data opcode does with its operands, the deepest one first. */
  function DataEffect(h: Host, ins: Instruction, args: seq<Value>, env: Env): (r: Effect)
    requires IsData(ins.op) && OperandFits(ins) && |args| == Pops(ins)
    ensures r.Push? ==> |r.vs| == Pushes(ins)
  {
    var name := if ins.operand.StrV? then Uppercase(ins.operand.s) else "";
    if IsOperator(ins.op) then PushIf(Operate(h, ins.op, args[0], args[1]), env)
    else if IoOf(ins.op).Some? then FileEffect(h, ins.op, name, args, env)
    else if ins.op.PushInt? || ins.op.PushFlt? || ins.op.PushStr? then Push([ins.operand], env)
    else if ins.op.Drop? then Push([], env)
    else if ins.op.PrintVal? then Push([], Log(env, Printed(h.toText(args[0]))))
    else if ins.op.PrintEol? then Push([], Log(env, Printed("\n")))
    else if ins.op.InputStr? then
        var line := h.input(env.log);
        if line.None? then Raise(Log(env, InputTaken)) else Push([StrV(Trimmed(line.value))], Log(env, InputTaken))
    else if ins.op.CoerceInt? then Push([IntV(h.toInt(args[0]))], env)
    else if ins.op.DimArray? then Settle(Dimension(h, env, name, args[0]))
    else if ins.op.LoadArr? then PushIf(ReadCell(env, name, h.toInt(args[0])), env)
    else if ins.op.StoreArr? then Settle(StoreCell(h, env, name, args[1], args[0]))
    else if ins.op.MatInit? then Settle(FillArray(h, env, name, args[0]))
    else if ins.op.MatCopy? then
        var bar := FirstBar(ins.operand.s);
        if bar.None? || bar.value >= |ins.operand.s| then Raise(env)
        else Settle(CopyArray(h, env, Uppercase(ins.operand.s[..bar.value]), Uppercase(ins.operand.s[bar.value + 1..])))
    else if ins.op.MatLoadFromRec? then Settle(LoadArray(h, env, name, args[0]))
    else if ins.op.MatStoreToRec? then PushIf(PackArray(h, env, name), env)
    else if ins.op.ClearVars? then Push([], env.(vars := map[], arrays := map[]))
    else if ins.op.CallFunc? then
        PushIf(h.builtin(env.log, env.status, ins.func, args), Log(env, BuiltinCalled(ins.func, args)))
    else if ins.op.ReleaseRec? then
        var a := CallFiles(h, env, IoRelease, name, args);
        if a.answer.NotThere? then Raise(a.env) else Push([], a.env)
    else if ins.op.ExtractAttr? then Push([Extract(h, args[0], args[1], args[2])], env)
    else if ins.op.ResolveDictAttr? then
        var r := ResolveDict(h, env, name, args[0]);
        Push([r.0], r.1)
    else if ins.op.Chain? then
        var program := h.toText(args[0]);
        if program == "" then Raise(env) else Leave(program, env)
    else if ins.op.CloseFile? then Push([], CallFiles(h, env, IoClose, name, []).env)
    else if ins.op.LoadVar? then PushIf(ReadVariable(h, env, name), env)
    else Settle(StoreVariable(env, name, args[0]))
  }

  // ---------------------------------------------------------------------------------------------
  // One step and many steps
  // ---------------------------------------------------------------------------------------------

  const STATUS_LOCKED: int := 1

  /** A lock conflict sets STATUS and goes to the ON ERROR line, or stops the program. */
  function OnClash(m: Vm, env: Env): Outcome {
    var told := env.(status := STATUS_LOCKED);
    if m.onError.Some? then Running(m.(env := told, ip := m.onError.value)) else Fault(Raised, told)
  }

  function DataStep(h: Host, ins: Instruction, m: Vm): Outcome
    requires IsData(ins.op) && OperandFits(ins)
  {
    var n := Pops(ins);
    if |m.stack| < n then Fault(Underflow, m.env)
    else
      var kept, args := m.stack[..|m.stack| - n], m.stack[|m.stack| - n..];
      match DataEffect(h, ins, args, m.env)
      case Push(vs, env) => Running(m.(env := env, stack := kept + vs, ip := m.ip + 1))
      case Raise(env) => Fault(Raised, env)
      case Clash(env) => OnClash(m.(stack := kept), env)
      case Leave(program, env) => Chained(program, env)
  }

  /** A jump operand as an instruction address: negative operands wrap to addresses past any program. */
  function Target(n: int): nat {
    if n >= 0 then n else n % 0x1_0000_0000_0000_0000
  }

  /** NEXT: the loop variable is advanced before the limit is tested. */
  function Advance(h: Host, env: Env, f: ForFrame): int {
    (if f.varName in env.vars then h.toInt(env.vars[f.varName]) else 0) + f.step
  }

  predicate PastLimit(f: ForFrame, v: int) {
    if f.step > 0 then v > f.limit else v < f.limit
  }

  function ForNextStep(h: Host, name: string, m: Vm): Outcome {
    if m.fors == [] then Fault(Raised, m.env)
    else
      var f := m.fors[|m.fors| - 1];
      if (name != "" && f.varName != name) || BasicAst.IsReadOnlySystemName(f.varName) then Fault(Raised, m.env)
      else
        var v := Advance(h, m.env, f);
        var env := m.env.(vars := m.env.vars[f.varName := IntV(v)]);
        if PastLimit(f, v) then Running(m.(env := env, fors := m.fors[..|m.fors| - 1], ip := m.ip + 1))
        else Running(m.(env := env, ip := f.body))
  }

  function Step(h: Host, code: seq<Instruction>, m: Vm): Outcome {
    if m.ip >= |code| then Halted(m.env)
    else
      var ins := code[m.ip];
      var n := |m.stack|;
      if !OperandFits(ins) then Fault(OperandKind, m.env)
      else if IsData(ins.op) then DataStep(h, ins, m)
      else
        if ins.op.Halt? then Running(m.(ip := |code|))
        else if ins.op.Jump? then Running(m.(ip := Target(ins.operand.i)))
        else if ins.op.JumpIfZero? then
          if n < 1 then Fault(Underflow, m.env)
          else if !m.stack[n - 1].IntV? then Fault(Raised, m.env)
          else Running(m.(stack := m.stack[..n - 1], ip := if m.stack[n - 1].i == 0 then Target(ins.operand.i) else m.ip + 1))
        else if ins.op.Call? then Running(m.(calls := m.calls + [m.ip + 1], ip := Target(ins.operand.i)))
        else if ins.op.Return? then
          if m.calls == [] then Fault(Raised, m.env)
          else Running(m.(ip := m.calls[|m.calls| - 1], calls := m.calls[..|m.calls| - 1]))
        else if ins.op.ForSetup? then
          if n < 2 then Fault(Underflow, m.env)
          else
            var step, limit := h.toInt(m.stack[n - 1]), h.toInt(m.stack[n - 2]);
            if step == 0 then Fault(Raised, m.env)
            else Running(m.(stack := m.stack[..n - 2], ip := m.ip + 1,
                            fors := m.fors + [ForFrame(Uppercase(ins.operand.s), limit, step, m.ip + 1)]))
        else if ins.op.ForNext? then ForNextStep(h, Uppercase(ins.operand.s), m)
        else if ins.op.SetOnErrorHandler? then
          Running(m.(onError := if ins.operand.i <= 0 then None else Some(ins.operand.i), ip := m.ip + 1))
        else Fault(NotModelled, m.env)
  }

  /** The outcome after at most `n` steps. */
  function Exec(h: Host, code: seq<Instruction>, m: Vm, n: nat): Outcome
    decreases n
  {
    if n == 0 then Running(m)
    else
      match Step(h, code, m)
      case Running(m') => Exec(h, code, m', n - 1)
      case o => o
  }

  /** Running on from an outcome. */
  function Continue(h: Host, code: seq<Instruction>, o: Outcome, n: nat): Outcome {
    if o.Running? then Exec(h, code, o.vm, n) else o
  }

  lemma {:induction false} ExecAdd(h: Host, code: seq<Instruction>, m: Vm, a: nat, b: nat)
    ensures Exec(h, code, m, a + b) == Continue(h, code, Exec(h, code, m, a), b)
    decreases a
  {
    hide Step;
    if a != 0 {
      var o := Step(h, code, m);
      if o.Running? {
        ExecAdd(h, code, o.vm, a - 1, b);
      }
    }
  }
}
