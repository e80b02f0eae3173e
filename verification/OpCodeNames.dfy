/** Names of the opcodes in the text form of bytecode. */
module OpCodeNames {
  import opened Bytecode

  function StackName(op: OpCode): string {
    if op.Halt? then "HALT"
    else if op.PushInt? then "PUSH_INT"
    else if op.PushFlt? then "PUSH_FLT"
    else if op.PushStr? then "PUSH_STR"
    else if op.Concat? then "CONCAT"
    else if op.Dup? then "DUP"
    else "DROP"
  }

  function ArithmeticName(op: OpCode): string {
    if op.Add? then "ADD"
    else if op.Sub? then "SUB"
    else if op.Mul? then "MUL"
    else if op.Div? then "DIV"
    else "MOD"
  }

  function RelationName(op: OpCode): string {
    if op.Eq? then "EQ"
    else if op.Ne? then "NE"
    else if op.Lt? then "LT"
    else if op.Le? then "LE"
    else if op.Gt? then "GT"
    else "GE"
  }

  function PrintingName(op: OpCode): string {
    if op.PrintInt? then "PRINT_INT"
    else if op.PrintStr? then "PRINT_STR"
    else if op.PrintVal? then "PRINT_VAL"
    else if op.PrintEol? then "PRINT_EOL"
    else "PRINT_CHAR"
  }

  function InputName(op: OpCode): string {
    if op.InputInt? then "INPUT_INT"
    else if op.InputStr? then "INPUT_STR"
    else if op.InputFlt? then "INPUT_FLT"
    else if op.CoerceInt? then "COERCE_INT"
    else "COERCE_FLT"
  }

  function ControlName(op: OpCode): string {
    if op.Jump? then "JUMP"
    else if op.JumpIfZero? then "JZ"
    else if op.Call? then "CALL"
    else if op.Return? then "RETURN"
    else if op.ForSetup? then "FOR_SETUP"
    else if op.ForNext? then "FOR_NEXT"
    else if op.Chain? then "CHAIN"
    else "SET_ON_ERROR_HANDLER"
  }

  function StorageName(op: OpCode): string {
    if op.DimArray? then "DIM_ARRAY"
    else if op.LoadArr? then "LOAD_ARR"
    else if op.StoreArr? then "STORE_ARR"
    else if op.LoadVar? then "LOAD_VAR"
    else if op.StoreVar? then "STORE_VAR"
    else "CLEAR_VARS"
  }

  function MatrixName(op: OpCode): string {
    if op.MatInit? then "MAT_INIT"
    else if op.MatCopy? then "MAT_COPY"
    else if op.MatLoadFromRec? then "MAT_LOAD_FROM_REC"
    else "MAT_STORE_TO_REC"
  }

  function BuiltinName(op: OpCode): string {
    if op.AbsInt? then "ABS_INT"
    else if op.SgnInt? then "SGN_INT"
    else if op.SeqStr? then "SEQ_STR"
    else if op.InvokeBuiltin? then "INVOKE_BUILTIN"
    else if op.CallFunc? then "CALL_FUNC"
    else if op.ExtractAttr? then "EXTRACT_ATTR"
    else "RESOLVE_DICT_ATTR"
  }

  function FileName(op: OpCode): string {
    if op.OpenFile? then "OPEN_FILE"
    else if op.OpenFileTry? then "OPEN_FILE_TRY"
    else if op.CloseFile? then "CLOSE_FILE"
    else if op.ReadNext? then "READ_NEXT"
    else "READ_NEXT_TRY"
  }

  function FieldName(op: OpCode): string {
    if op.ReadV? then "READ_V"
    else if op.ReadVTry? then "READ_V_TRY"
    else if op.WriteV? then "WRITE_V"
    else "WRITE_V_TRY"
  }

  function ReadingName(op: OpCode): string {
    if op.ReadRec? then "READ_REC"
    else if op.ReadRecTry? then "READ_REC_TRY"
    else if op.ReadRecU? then "READ_REC_U"
    else "READ_REC_U_TRY"
  }

  function WritingName(op: OpCode): string {
    if op.WriteRec? then "WRITE_REC"
    else if op.WriteRecTry? then "WRITE_REC_TRY"
    else if op.WriteRecU? then "WRITE_REC_U"
    else if op.WriteRecUTry? then "WRITE_REC_U_TRY"
    else "RELEASE_REC"
  }

  predicate IsStack(op: OpCode) {
    op.Halt? || op.PushInt? || op.PushFlt? || op.PushStr? || op.Concat? || op.Dup? ||
    op.Drop?
  }

  predicate ArithmeticOp(op: OpCode) {
    op.Add? || op.Sub? || op.Mul? || op.Div? || op.Mod?
  }

  predicate IsRelation(op: OpCode) {
    op.Eq? || op.Ne? || op.Lt? || op.Le? || op.Gt? || op.Ge?
  }

  predicate IsPrinting(op: OpCode) {
    op.PrintInt? || op.PrintStr? || op.PrintVal? || op.PrintEol? || op.PrintChar?
  }

  predicate IsInput(op: OpCode) {
    op.InputInt? || op.InputStr? || op.InputFlt? || op.CoerceInt? || op.CoerceFlt?
  }

  predicate IsControl(op: OpCode) {
    op.Jump? || op.JumpIfZero? || op.Call? || op.Return? || op.ForSetup? || op.ForNext? ||
    op.Chain? || op.SetOnErrorHandler?
  }

  predicate IsStorage(op: OpCode) {
    op.DimArray? || op.LoadArr? || op.StoreArr? || op.LoadVar? || op.StoreVar? || op.ClearVars?
  }

  predicate IsMatrix(op: OpCode) {
    op.MatInit? || op.MatCopy? || op.MatLoadFromRec? || op.MatStoreToRec?
  }

  predicate BuiltinOpcode(op: OpCode) {
    op.AbsInt? || op.SgnInt? || op.SeqStr? || op.InvokeBuiltin? || op.CallFunc? || op.ExtractAttr? ||
    op.ResolveDictAttr?
  }

  predicate FileOpcode(op: OpCode) {
    op.OpenFile? || op.OpenFileTry? || op.CloseFile? || op.ReadNext? || op.ReadNextTry?
  }

  predicate IsField(op: OpCode) {
    op.ReadV? || op.ReadVTry? || op.WriteV? || op.WriteVTry?
  }

  predicate IsReading(op: OpCode) {
    op.ReadRec? || op.ReadRecTry? || op.ReadRecU? || op.ReadRecUTry?
  }

  function OpName(op: OpCode): (r: string) {
    if IsStack(op) then StackName(op)
    else if ArithmeticOp(op) then ArithmeticName(op)
    else if IsRelation(op) then RelationName(op)
    else if IsPrinting(op) then PrintingName(op)
    else if IsInput(op) then InputName(op)
    else if IsControl(op) then ControlName(op)
    else if IsStorage(op) then StorageName(op)
    else if IsMatrix(op) then MatrixName(op)
    else if BuiltinOpcode(op) then BuiltinName(op)
    else if FileOpcode(op) then FileName(op)
    else if IsField(op) then FieldName(op)
    else if IsReading(op) then ReadingName(op)
    else WritingName(op)
  }

  /** A number by which the names differ: their size and their last, second last and sixth last characters. */
  function Mark(s: string): int {
    if |s| < 2 then 0
    else ((|s| * 256 + s[|s| - 1] as int) * 256 + s[|s| - 2] as int) * 256 + if |s| < 6 then 0 else s[|s| - 6] as int
  }

  function Unmark1(n: int): OpCode {
    if n == 38094592 then Ge
    else if n == 38095872 then Le
    else if n == 38096384 then Ne
    else if n == 38880512 then Eq
    else if n == 39077632 then Gt
    else if n == 39078912 then Lt
    else if n == 39471616 then JumpIfZero
    else if n == 54678784 then Sub
    else if n == 54805504 then Add
    else if n == 54808320 then Mod
    else if n == 55334144 then Mul
    else if n == 55596288 then Dup
    else if n == 55986432 then Div
    else if n == 72109056 then Call
    else if n == 72371456 then Jump
    else if n == 72371968 then Drop
    else if n == 72633344 then Halt
    else Chain
  }

  function Unmark2(n: int): OpCode {
    if n == 105796178 then Return
    else if n == 106185027 then Concat
    else if n == 106323794 then ReadV
    else if n == 122836037 then SeqStr
    else if n == 122965570 then AbsInt
    else if n == 122965575 then SgnInt
    else if n == 123101010 then WriteV
    else if n == 138626369 then ReadRec
    else if n == 139608385 then LoadVar
    else if n == 139612737 then LoadArr
    else if n == 139613267 then PushStr
    else if n == 139741524 then MatInit
    else if n == 139742291 then PushFlt
    else if n == 139742803 then PushInt
    else if n == 139745362 then ForNext
    else if n == 140070996 then MatCopy
    else if n == 155403604 then WriteRec
    else CallFunc
  }

  function Unmark3(n: int): OpCode {
    if n == 155536462 then OpenFile
    else if n == 155992398 then PrintVal
    else if n == 155995982 then PrintEol
    else if n == 156259679 then ForSetup
    else if n == 156385618 then StoreVar
    else if n == 156389970 then StoreArr
    else if n == 156390478 then PrintStr
    else if n == 156390485 then InputStr
    else if n == 156519509 then InputFlt
    else if n == 156520014 then PrintInt
    else if n == 156520021 then InputInt
    else if n == 156522564 then ReadNext
    else if n == 156844383 then DimArray
    else if n == 172313669 then CloseFile
    else if n == 173162836 then PrintChar
    else if n == 173232722 then ClearVars
    else if n == 173296707 then CoerceFlt
    else CoerceInt
  }

  function Unmark4(n: int): OpCode {
    if n == 173367135 then ReadRecU
    else if n == 173625951 then ReadVTry
    else if n == 188958035 then ReleaseRec
    else if n == 190144351 then WriteRecU
    else if n == 190403167 then WriteVTry
    else if n == 206722132 then ExtractAttr
    else if n == 207180357 then ReadRecTry
    else if n == 223957573 then WriteRecTry
    else if n == 223957580 then OpenFileTry
    else if n == 223957592 then ReadNextTry
    else if n == 240011605 then InvokeBuiltin
    else if n == 240734815 then ReadRecUTry
    else if n == 257512031 then WriteRecUTry
    else if n == 272844116 then MatStoreToRec
    else if n == 289621327 then MatLoadFromRec
    else if n == 290608212 then ResolveDictAttr
    else SetOnErrorHandler
  }

  /** The only opcode whose name can have a given mark. */
  function Unmark(n: int): OpCode {
    if n < 105796178 then Unmark1(n)
    else if n < 155536462 then Unmark2(n)
    else if n < 173367135 then Unmark3(n)
    else Unmark4(n)
  }

  lemma StackMarks()
    ensures Mark(StackName(Halt)) == 72633344
    ensures Mark(StackName(PushInt)) == 139742803
    ensures Mark(StackName(PushFlt)) == 139742291
    ensures Mark(StackName(PushStr)) == 139613267
    ensures Mark(StackName(Concat)) == 106185027
    ensures Mark(StackName(Dup)) == 55596288
    ensures Mark(StackName(Drop)) == 72371968
  {
  }

  lemma StackTells(op: OpCode)
    requires IsStack(op)
    ensures Unmark(Mark(StackName(op))) == op
  {
    hide Mark, StackName;
    StackMarks();
  }

  lemma ArithmeticMarks()
    ensures Mark(ArithmeticName(Add)) == 54805504
    ensures Mark(ArithmeticName(Sub)) == 54678784
    ensures Mark(ArithmeticName(Mul)) == 55334144
    ensures Mark(ArithmeticName(Div)) == 55986432
    ensures Mark(ArithmeticName(Mod)) == 54808320
  {
  }

  lemma ArithmeticTells(op: OpCode)
    requires ArithmeticOp(op)
    ensures Unmark(Mark(ArithmeticName(op))) == op
  {
    hide Mark, ArithmeticName;
    ArithmeticMarks();
  }

  lemma RelationMarks()
    ensures Mark(RelationName(Eq)) == 38880512
    ensures Mark(RelationName(Ne)) == 38096384
    ensures Mark(RelationName(Lt)) == 39078912
    ensures Mark(RelationName(Le)) == 38095872
    ensures Mark(RelationName(Gt)) == 39077632
    ensures Mark(RelationName(Ge)) == 38094592
  {
  }

  lemma RelationTells(op: OpCode)
    requires IsRelation(op)
    ensures Unmark(Mark(RelationName(op))) == op
  {
    hide Mark, RelationName;
    RelationMarks();
  }

  lemma PrintingMarks()
    ensures Mark(PrintingName(PrintInt)) == 156520014
    ensures Mark(PrintingName(PrintStr)) == 156390478
    ensures Mark(PrintingName(PrintVal)) == 155992398
    ensures Mark(PrintingName(PrintEol)) == 155995982
    ensures Mark(PrintingName(PrintChar)) == 173162836
  {
  }

  lemma PrintingTells(op: OpCode)
    requires IsPrinting(op)
    ensures Unmark(Mark(PrintingName(op))) == op
  {
    hide Mark, PrintingName;
    PrintingMarks();
  }

  lemma InputMarks()
    ensures Mark(InputName(InputInt)) == 156520021
    ensures Mark(InputName(InputStr)) == 156390485
    ensures Mark(InputName(InputFlt)) == 156519509
    ensures Mark(InputName(CoerceInt)) == 173297219
    ensures Mark(InputName(CoerceFlt)) == 173296707
  {
  }

  lemma InputTells(op: OpCode)
    requires IsInput(op)
    ensures Unmark(Mark(InputName(op))) == op
  {
    hide Mark, InputName;
    InputMarks();
  }

  lemma ControlMarks()
    ensures Mark(ControlName(Jump)) == 72371456
    ensures Mark(ControlName(JumpIfZero)) == 39471616
    ensures Mark(ControlName(Call)) == 72109056
    ensures Mark(ControlName(Return)) == 105796178
    ensures Mark(ControlName(ForSetup)) == 156259679
    ensures Mark(ControlName(ForNext)) == 139745362
    ensures Mark(ControlName(Chain)) == 89016576
    ensures Mark(ControlName(SetOnErrorHandler)) == 340936001
  {
  }

  lemma ControlTells(op: OpCode)
    requires IsControl(op)
    ensures Unmark(Mark(ControlName(op))) == op
  {
    hide Mark, ControlName;
    ControlMarks();
  }

  lemma StorageMarks()
    ensures Mark(StorageName(DimArray)) == 156844383
    ensures Mark(StorageName(LoadArr)) == 139612737
    ensures Mark(StorageName(StoreArr)) == 156389970
    ensures Mark(StorageName(LoadVar)) == 139608385
    ensures Mark(StorageName(StoreVar)) == 156385618
    ensures Mark(StorageName(ClearVars)) == 173232722
  {
  }

  lemma StorageTells(op: OpCode)
    requires IsStorage(op)
    ensures Unmark(Mark(StorageName(op))) == op
  {
    hide Mark, StorageName;
    StorageMarks();
  }

  lemma MatrixMarks()
    ensures Mark(MatrixName(MatInit)) == 139741524
    ensures Mark(MatrixName(MatCopy)) == 140070996
    ensures Mark(MatrixName(MatLoadFromRec)) == 289621327
    ensures Mark(MatrixName(MatStoreToRec)) == 272844116
  {
  }

  lemma MatrixTells(op: OpCode)
    requires IsMatrix(op)
    ensures Unmark(Mark(MatrixName(op))) == op
  {
    hide Mark, MatrixName;
    MatrixMarks();
  }

  lemma BuiltinMarks()
    ensures Mark(BuiltinName(AbsInt)) == 122965570
    ensures Mark(BuiltinName(SgnInt)) == 122965575
    ensures Mark(BuiltinName(SeqStr)) == 122836037
    ensures Mark(BuiltinName(InvokeBuiltin)) == 240011605
    ensures Mark(BuiltinName(CallFunc)) == 155405900
    ensures Mark(BuiltinName(ExtractAttr)) == 206722132
    ensures Mark(BuiltinName(ResolveDictAttr)) == 290608212
  {
  }

  lemma BuiltinTells(op: OpCode)
    requires BuiltinOpcode(op)
    ensures Unmark(Mark(BuiltinName(op))) == op
  {
    hide Mark, BuiltinName;
    BuiltinMarks();
  }

  lemma FileMarks()
    ensures Mark(FileName(OpenFile)) == 155536462
    ensures Mark(FileName(OpenFileTry)) == 223957580
    ensures Mark(FileName(CloseFile)) == 172313669
    ensures Mark(FileName(ReadNext)) == 156522564
    ensures Mark(FileName(ReadNextTry)) == 223957592
  {
  }

  lemma FileTells(op: OpCode)
    requires FileOpcode(op)
    ensures Unmark(Mark(FileName(op))) == op
  {
    hide Mark, FileName;
    FileMarks();
  }

  lemma FieldMarks()
    ensures Mark(FieldName(ReadV)) == 106323794
    ensures Mark(FieldName(ReadVTry)) == 173625951
    ensures Mark(FieldName(WriteV)) == 123101010
    ensures Mark(FieldName(WriteVTry)) == 190403167
  {
  }

  lemma FieldTells(op: OpCode)
    requires IsField(op)
    ensures Unmark(Mark(FieldName(op))) == op
  {
    hide Mark, FieldName;
    FieldMarks();
  }

  lemma ReadingMarks()
    ensures Mark(ReadingName(ReadRec)) == 138626369
    ensures Mark(ReadingName(ReadRecTry)) == 207180357
    ensures Mark(ReadingName(ReadRecU)) == 173367135
    ensures Mark(ReadingName(ReadRecUTry)) == 240734815
  {
  }

  lemma ReadingTells(op: OpCode)
    requires IsReading(op)
    ensures Unmark(Mark(ReadingName(op))) == op
  {
    hide Mark, ReadingName;
    ReadingMarks();
  }

  lemma WritingMarks()
    ensures Mark(WritingName(WriteRec)) == 155403604
    ensures Mark(WritingName(WriteRecTry)) == 223957573
    ensures Mark(WritingName(WriteRecU)) == 190144351
    ensures Mark(WritingName(WriteRecUTry)) == 257512031
    ensures Mark(WritingName(ReleaseRec)) == 188958035
  {
  }

  lemma WritingTells(op: OpCode)
    requires !IsStack(op) && !ArithmeticOp(op) && !IsRelation(op) && !IsPrinting(op) && !IsInput(op) && !IsControl(op) && !IsStorage(op) && !IsMatrix(op) && !BuiltinOpcode(op) && !FileOpcode(op) && !IsField(op) && !IsReading(op)
    ensures Unmark(Mark(WritingName(op))) == op
  {
    hide Mark, WritingName;
    WritingMarks();
  }

  lemma MarkTells(op: OpCode)
    ensures Unmark(Mark(OpName(op))) == op
  {
    hide Mark, Unmark, StackName, ArithmeticName, RelationName, PrintingName, InputName, ControlName, StorageName, MatrixName, BuiltinName, FileName, FieldName, ReadingName, WritingName;
    if IsStack(op) {
      StackTells(op);
    } else if ArithmeticOp(op) {
      ArithmeticTells(op);
    } else if IsRelation(op) {
      RelationTells(op);
    } else if IsPrinting(op) {
      PrintingTells(op);
    } else if IsInput(op) {
      InputTells(op);
    } else if IsControl(op) {
      ControlTells(op);
    } else if IsStorage(op) {
      StorageTells(op);
    } else if IsMatrix(op) {
      MatrixTells(op);
    } else if BuiltinOpcode(op) {
      BuiltinTells(op);
    } else if FileOpcode(op) {
      FileTells(op);
    } else if IsField(op) {
      FieldTells(op);
    } else if IsReading(op) {
      ReadingTells(op);
    } else {
      WritingTells(op);
    }
  }

  predicate Letter(c: char) {
    'A' <= c <= 'Z' || c == '_'
  }

  predicate Word(s: string) {
    s != "" && forall i | 0 <= i < |s| :: Letter(s[i])
  }

  lemma StackWord(op: OpCode)
    ensures Word(StackName(op))
  {
  }

  lemma ArithmeticWord(op: OpCode)
    ensures Word(ArithmeticName(op))
  {
  }

  lemma RelationWord(op: OpCode)
    ensures Word(RelationName(op))
  {
  }

  lemma PrintingWord(op: OpCode)
    ensures Word(PrintingName(op))
  {
  }

  lemma InputWord(op: OpCode)
    ensures Word(InputName(op))
  {
  }

  lemma ControlWord(op: OpCode)
    ensures Word(ControlName(op))
  {
  }

  lemma StorageWord(op: OpCode)
    ensures Word(StorageName(op))
  {
  }

  lemma MatrixWord(op: OpCode)
    ensures Word(MatrixName(op))
  {
  }

  lemma BuiltinWord(op: OpCode)
    ensures Word(BuiltinName(op))
  {
    if op.InvokeBuiltin? || op.CallFunc? || op.ExtractAttr? {
      LongBuiltinWords();
    }
  }

  lemma LongBuiltinWords()
    ensures Word("INVOKE_BUILTIN") && Word("CALL_FUNC") && Word("EXTRACT_ATTR")
  {
  }

  lemma FileWord(op: OpCode)
    ensures Word(FileName(op))
  {
  }

  lemma FieldWord(op: OpCode)
    ensures Word(FieldName(op))
  {
  }

  lemma ReadingWord(op: OpCode)
    ensures Word(ReadingName(op))
  {
  }

  lemma WritingWord(op: OpCode)
    ensures Word(WritingName(op))
  {
  }

  /** Names are made of capitals and underscores. */
  lemma NameIsWord(op: OpCode)
    ensures Word(OpName(op))
  {
    hide Word, StackName, ArithmeticName, RelationName, PrintingName, InputName, ControlName, StorageName, MatrixName, BuiltinName, FileName, FieldName, ReadingName, WritingName;
    StackWord(op);
    ArithmeticWord(op);
    RelationWord(op);
    PrintingWord(op);
    InputWord(op);
    ControlWord(op);
    StorageWord(op);
    MatrixWord(op);
    BuiltinWord(op);
    FileWord(op);
    FieldWord(op);
    ReadingWord(op);
    WritingWord(op);
  }

  /** No two opcodes share a name. */
  lemma NamesDiffer(a: OpCode, b: OpCode)
    requires OpName(a) == OpName(b)
    ensures a == b
  {
    hide OpName, Unmark, Mark;
    MarkTells(a);
    MarkTells(b);
  }

  /** The opcode called `name`, if there is one. */
  function FindName(name: string): (r: Option<OpCode>)
    ensures r.Some? ==> OpName(r.value) == name
  {
    var op := Unmark(Mark(name));
    if OpName(op) == name then Some(op) else None
  }

  /** Reading a printed opcode name finds that opcode, and nothing else is an opcode name. */
  lemma NameFound(name: string, op: OpCode)
    ensures FindName(name) == Some(op) <==> name == OpName(op)
  {
    hide OpName, Unmark, Mark;
    MarkTells(op);
  }
}
