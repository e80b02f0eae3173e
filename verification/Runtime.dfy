/** The bytecode runtime as it works: an object that pops, pushes and jumps, one instruction at a time. */
module Runtime {
  import opened Bytecode
  import BasicAst
  import opened Machine

  class BytecodeRuntime {
    const program: seq<Instruction>
    var stack: seq<Value>
    var ip: nat
    var callStack: seq<nat>
    var forStack: seq<ForFrame>
    var variables: map<string, Value>
    var arrays: map<string, seq<Value>>
    var statusCode: int
    var onErrorIp: Option<nat>
    /** Everything done towards the outside so far. */
    var log: seq<Event>

    constructor (code: seq<Instruction>)
      ensures program == code && Now() == LOADED
    {
      program := code;
      stack, ip, callStack, forStack := [], 0, [], [];
      variables, arrays, statusCode, onErrorIp, log := map[], map[], 0, None, [];
    }

    function World(): Env
      reads this
    {
      Env(variables, arrays, log, statusCode)
    }

    function Now(): Vm
      reads this
    {
      Vm(World(), stack, ip, callStack, forStack, onErrorIp)
    }

    method SetWorld(env: Env)
      modifies this`variables, this`arrays, this`log, this`statusCode
      ensures World() == env
    {
      variables, arrays, log, statusCode := env.vars, env.arrays, env.log, env.status;
    }

    method PushValue(v: Value)
      modifies this`stack
      ensures stack == old(stack) + [v]
    {
      stack := stack + [v];
    }

    method PopValue() returns (v: Option<Value>)
      modifies this`stack
      ensures old(stack) == [] ==> v == None && stack == []
      ensures old(stack) != [] ==> v == Some(old(stack)[|old(stack)| - 1]) && stack == old(stack)[..|old(stack)| - 1]
    {
      if stack == [] {
        return None;
      }
      v := Some(stack[|stack| - 1]);
      stack := stack[..|stack| - 1];
    }

    /** Pops `n` operands; the deepest one comes first. */
    method PopOperands(n: nat) returns (ok: bool, args: seq<Value>)
      modifies this`stack
      ensures ok == (|old(stack)| >= n)
      ensures ok ==> |args| == n && old(stack) == stack + args
    {
      args := [];
      for i := 0 to n
        invariant |args| == i && old(stack) == stack + args
      {
        var v := PopValue();
        if v.None? {
          return false, args;
        }
        args := [v.value] + args;
      }
      ok := true;
    }

    method PushResults(vs: seq<Value>)
      modifies this`stack
      ensures stack == old(stack) + vs
    {
      for i := 0 to |vs|
        invariant stack == old(stack) + vs[..i]
      {
        PushValue(vs[i]);
        assert vs[..i + 1] == vs[..i] + [vs[i]];
      }
      assert vs[..|vs|] == vs;
    }

    /** STATUS tells that a record is locked; control goes to the ON ERROR line, or the program stops. */
    method HandleRecordLockConflict() returns (o: Outcome)
      modifies this`statusCode, this`ip
      ensures o == OnClash(old(Now()), old(World()))
      ensures o.Running? ==> o.vm == Now()
    {
      statusCode := STATUS_LOCKED;
      if onErrorIp.Some? {
        ip := onErrorIp.value;
        return Running(Now());
      }
      return Fault(Raised, World());
    }

    /** Opcodes that only use operands, variables and the outside. */
    method DataInstruction(h: Host, ins: Instruction) returns (o: Outcome)
      requires IsData(ins.op) && OperandFits(ins)
      modifies this
      ensures o == DataStep(h, ins, old(Now()))
      ensures o.Running? ==> o.vm == Now()
    {
      hide DataEffect, IsData, OperandFits, Pops, Pushes;
      var ok, args := PopOperands(Pops(ins));
      if !ok {
        return Fault(Underflow, World());
      }
      assert args == old(stack)[|old(stack)| - Pops(ins)..] && stack == old(stack)[..|old(stack)| - Pops(ins)];
      var effect := DataEffect(h, ins, args, World());
      match effect
      case Push(vs, env) =>
        SetWorld(env);
        PushResults(vs);
        ip := ip + 1;
        o := Running(Now());
      case Raise(env) =>
        SetWorld(env);
        o := Fault(Raised, env);
      case Clash(env) =>
        SetWorld(env);
        o := HandleRecordLockConflict();
      case Leave(name, env) =>
        SetWorld(env);
        o := Chained(name, env);
    }

    method NextInstruction(h: Host, name: string) returns (o: Outcome)
      modifies this
      ensures o == ForNextStep(h, name, old(Now()))
      ensures o.Running? ==> o.vm == Now()
    {
      if forStack == [] {
        return Fault(Raised, World());
      }
      var frame := forStack[|forStack| - 1];
      if name != "" && frame.varName != name {
        return Fault(Raised, World());
      }
      var current := if frame.varName in variables then h.toInt(variables[frame.varName]) else 0;
      var next := current + frame.step;
      if BasicAst.IsReadOnlySystemName(frame.varName) {
        return Fault(Raised, World());
      }
      variables := variables[frame.varName := IntV(next)];
      if (if frame.step > 0 then next > frame.limit else next < frame.limit) {
        forStack := forStack[..|forStack| - 1];
        ip := ip + 1;
      } else {
        ip := frame.body;
      }
      return Running(Now());
    }

    method ForInstruction(h: Host, name: string) returns (o: Outcome)
      modifies this
      ensures var m := old(Now());
              var n := |m.stack|;
              o == if n < 2 then Fault(Underflow, m.env)
                   else if h.toInt(m.stack[n - 1]) == 0 then Fault(Raised, m.env)
                   else Running(m.(stack := m.stack[..n - 2], ip := m.ip + 1,
                                   fors := m.fors + [ForFrame(name, h.toInt(m.stack[n - 2]), h.toInt(m.stack[n - 1]), m.ip + 1)]))
      ensures o.Running? ==> o.vm == Now()
    {
      var step := PopValue();
      if step.None? {
        return Fault(Underflow, World());
      }
      var limit := PopValue();
      if limit.None? {
        return Fault(Underflow, World());
      }
      if h.toInt(step.value) == 0 {
        return Fault(Raised, World());
      }
      forStack := forStack + [ForFrame(name, h.toInt(limit.value), h.toInt(step.value), ip + 1)];
      ip := ip + 1;
      assert stack == old(stack)[..|old(stack)| - 2];
      return Running(Now());
    }

    /** One instruction, as the step function of the machine prescribes it. */
    method StepOnce(h: Host) returns (o: Outcome)
      modifies this
      ensures o == Step(h, program, old(Now()))
      ensures o.Running? ==> o.vm == Now()
    {
      hide DataStep, IsData, Pops, Pushes, ForNextStep;
      if ip >= |program| {
        return Halted(World());
      }
      var ins := program[ip];
      if !OperandFits(ins) {
        return Fault(OperandKind, World());
      }
      if IsData(ins.op) {
        o := DataInstruction(h, ins);
        return;
      }
      if ins.op.Halt? {
        ip := |program|;
      } else if ins.op.Jump? {
        ip := Target(ins.operand.i);
      } else if ins.op.JumpIfZero? {
        var v := PopValue();
        if v.None? {
          return Fault(Underflow, World());
        }
        if !v.value.IntV? {
          return Fault(Raised, World());
        }
        ip := if v.value.i == 0 then Target(ins.operand.i) else ip + 1;
      } else if ins.op.Call? {
        callStack := callStack + [ip + 1];
        ip := Target(ins.operand.i);
      } else if ins.op.Return? {
        if callStack == [] {
          return Fault(Raised, World());
        }
        ip := callStack[|callStack| - 1];
        callStack := callStack[..|callStack| - 1];
      } else if ins.op.ForSetup? {
        o := ForInstruction(h, Uppercase(ins.operand.s));
        return;
      } else if ins.op.ForNext? {
        o := NextInstruction(h, Uppercase(ins.operand.s));
        return;
      } else if ins.op.SetOnErrorHandler? {
        onErrorIp := if ins.operand.i <= 0 then None else Some(ins.operand.i);
        ip := ip + 1;
      } else {
        return Fault(NotModelled, World());
      }
      return Running(Now());
    }

    /** At most `n` instructions. */
    method Run(h: Host, n: nat) returns (o: Outcome)
      modifies this
      ensures o == Exec(h, program, old(Now()), n)
    {
      hide Step;
      o := Running(Now());
      for i := 0 to n
        invariant o == Running(Now())
        invariant Exec(h, program, Now(), n - i) == Exec(h, program, old(Now()), n)
      {
        o := StepOnce(h);
        if !o.Running? {
          return;
        }
      }
    }
  }
}
