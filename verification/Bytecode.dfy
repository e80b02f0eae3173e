/** Instructions of the bytecode machine, shared by the BASIC emitter, the runtime and the text form. */
module Bytecode {

  datatype Option<+T> = None | Some(value: T)

  /** A runtime value. Doubles are carried but never computed with in this model. */
  datatype Value = IntV(i: int) | FltV(d: real) | StrV(s: string)

  datatype OpCode =
    | Halt | PushInt | PushFlt | PushStr
    | Add | Sub | Mul | Div | Eq | Ne | Lt | Le | Gt | Ge
    | Concat | Dup | Drop
    | PrintInt | PrintStr | PrintVal | PrintEol
    | InputInt | InputStr | CoerceInt
    | Jump | JumpIfZero | Call | Return | ForSetup | ForNext
    | DimArray | LoadArr | StoreArr | MatInit | MatCopy | MatLoadFromRec | MatStoreToRec
    | ClearVars | AbsInt | SgnInt | SeqStr | InvokeBuiltin | CallFunc
    | OpenFile | OpenFileTry | ReadRec | ReadRecTry | ReadRecU | ReadRecUTry
    | WriteRec | WriteRecTry | WriteRecU | WriteRecUTry | ReleaseRec
    | ReadNext | ReadNextTry | ReadV | ReadVTry | WriteV | WriteVTry
    | ExtractAttr | ResolveDictAttr | Chain | CloseFile | SetOnErrorHandler
    | LoadVar | StoreVar | PrintChar | InputFlt | CoerceFlt | Mod

  datatype FuncRef = FuncRef(namespaceId: nat, functionId: nat, argCount: nat)

  const NO_FUNC := FuncRef(0, 0, 0)

  datatype Instruction = Instruction(op: OpCode, operand: Value, func: FuncRef)

  function Plain(op: OpCode): Instruction {
    Instruction(op, IntV(0), NO_FUNC)
  }

  function WithInt(op: OpCode, n: int): Instruction {
    Instruction(op, IntV(n), NO_FUNC)
  }

  function WithStr(op: OpCode, s: string): Instruction {
    Instruction(op, StrV(s), NO_FUNC)
  }

  function Invoke(f: FuncRef): Instruction {
    Instruction(CallFunc, IntV(0), f)
  }

  /** ASCII upper-casing of one character, as `toupper` in the C locale. */
  function UpperChar(c: char): (r: char) {
    if 'a' <= c <= 'z' then c - 32 as char else c
  }

  function Uppercase(s: string): (r: string)
    ensures |r| == |s|
  {
    seq(|s|, i requires 0 <= i < |s| => UpperChar(s[i]))
  }

  /** The runtime upper-cases names again; on names the emitter already upper-cased this does nothing. */
  lemma UppercaseTwice(s: string)
    ensures Uppercase(Uppercase(s)) == Uppercase(s)
  {
    var once, twice := Uppercase(s), Uppercase(Uppercase(s));
    forall i | 0 <= i < |s|
      ensures twice[i] == once[i]
    {
    }
  }
}
