/** The interpreter object: registers and memory are fixed-size arrays, the
    flag and the input-exhausted byte are fields, and `Run` is the
    fetch/decode/execute loop. `Run` is proved to compute exactly what
    `Semantics.Exec` describes. */
module Vm {
  import opened Bytes
  import opened Isa
  import opened Semantics

  class VirtualMachine {
    const registers: array<u8>
    const memory: array<u8>
    var flag: u8
    var inputExhausted: u8  // `r#in`: 1 once IN has found no input left
    var input: seq<u8>

    ghost predicate Valid()
      reads this
    {
      && registers.Length == RegisterCount
      && memory.Length == MemorySize
      && flag <= 1
      && inputExhausted <= 1
    }

    /** The machine state as a value, given the locals of `Run`. */
    ghost function State(pc: nat, cursor: nat, output: seq<u8>): (m: Machine)
      reads this, registers, memory
    {
      Machine(registers[..], memory[..], flag, inputExhausted, input, cursor, pc, output)
    }

    constructor (memory: seq<u8>, input: seq<u8>)
      requires |memory| == MemorySize
      ensures Valid() && fresh(registers) && fresh(this.memory)
      ensures State(0, 0, []) == Initial(memory, input)
    {
      registers := new u8[RegisterCount](_ => 0);
      this.memory := new u8[MemorySize](i requires 0 <= i < MemorySize => memory[i]);
      flag := 0;
      inputExhausted := 0;
      this.input := input;
      new;
      assert registers[..] == seq(RegisterCount, _ => 0);
      assert this.memory[..] == memory;
    }

    /** A taken jump: `position` has already been advanced past the jump
        instruction. Stepping back by 2 cannot underflow; the backward
        displacement can, which is reported as `ok == false`. */
    method Jump(position: nat, parameter: u8) returns (ok: bool, target: nat)
      requires position >= 2
      ensures ok <==> position - 2 + Displacement(parameter) >= 0
      ensures ok ==> target == position - 2 + Displacement(parameter)
    {
      var p := position - 2;
      if parameter > 127 {
        var back := 256 - parameter as int;
        if p < back {
          return false, position;
        }
        p := p - back;
      } else {
        p := p + parameter as int;
      }
      return true, p;
    }

    /** INC ... OR, then the flag update for the written register. */
    method ExecuteRegisterOperation(op: u8, parameter: u8, ghost pc: nat, ghost cursor: nat, ghost output: seq<u8>)
      requires Valid() && WritesRegister(op)
      requires Semantics.Valid(State(pc, cursor, output))
      modifies registers, this`flag
      ensures Valid()
      ensures State(pc, cursor, output) == WriteRegister(old(State(pc, cursor, output)), op, parameter)
    {
      var rx := Rx(parameter);
      var ry := Ry(parameter);
      if op == INC {
        registers[rx] := WrappingAdd(registers[rx], 1);
      } else if op == DEC {
        registers[rx] := WrappingSub(registers[rx], 1);
      } else if op == MOV {
        registers[rx] := registers[ry];
      } else if op == MOVC {
        registers[0] := parameter;
      } else if op == LSL {
        registers[rx] := ShiftLeft(registers[rx]);
      } else if op == LSR {
        registers[rx] := ShiftRight(registers[rx]);
      } else if op == ADD {
        registers[rx] := WrappingAdd(registers[rx], registers[ry]);
      } else if op == SUB {
        registers[rx] := WrappingSub(registers[rx], registers[ry]);
      } else if op == XOR {
        registers[rx] := Xor(registers[rx], registers[ry]);
      } else {
        registers[rx] := Or(registers[rx], registers[ry]);
      }
      var index := if op == MOVC then 0 else rx;
      flag := if registers[index] == 0 then 1 else 0;
    }

    /** JMP, JZ, JNZ, JFE with `pc` already advanced past the instruction:
        the new instruction pointer, or `ok == false` when a taken backward
        jump would go below address 0. */
    method ExecuteBranch(op: u8, parameter: u8, pc: nat) returns (ok: bool, pc': nat)
      requires IsBranch(op) && pc >= 2
      ensures ok <==> !BranchTaken(op, flag, inputExhausted) || pc - 2 + Displacement(parameter) >= 0
      ensures ok ==> pc' == if BranchTaken(op, flag, inputExhausted) then pc - 2 + Displacement(parameter) else pc
    {
      ok, pc' := true, pc;
      if op == JMP {
        ok, pc' := Jump(pc, parameter);
      } else if op == JZ {
        if flag == 1 {
          ok, pc' := Jump(pc, parameter);
        }
      } else if op == JNZ {
        if flag == 0 {
          ok, pc' := Jump(pc, parameter);
        }
      } else {
        if inputExhausted == 1 {
          ok, pc' := Jump(pc, parameter);
        }
      }
    }

    /** One decoded instruction, `pc` already advanced past it: the
        `match` of `run` followed by the flag update (which RET and the
        panics never reach). */
    method Execute(op: u8, parameter: u8, pc: nat, cursor: nat, output: seq<u8>)
      returns (pc': nat, cursor': nat, output': seq<u8>, stopped: bool, reason: Halt)
      requires Valid() && pc >= 2
      requires Semantics.Valid(State(pc, cursor, output))
      modifies this, registers
      ensures Valid() && input == old(input)
      ensures var r := Semantics.Execute(old(State(pc, cursor, output)), op, parameter);
        && stopped == r.Stop?
        && State(pc', cursor', output') == r.state
        && (stopped ==> reason == r.reason)
    {
      pc', cursor', output', stopped, reason := pc, cursor, output, false, Finished;
      if WritesRegister(op) {
        ExecuteRegisterOperation(op, parameter, pc, cursor, output);
        return;
      }
      if IsBranch(op) {
        var ok;
        ok, pc' := ExecuteBranch(op, parameter, pc);
        if !ok {
          return pc, cursor', output', true, Panic(JumpUnderflow);
        }
      } else if op == RET {
        return pc', cursor', output', true, Finished;
      } else if op == IN {
        if cursor < |input| {
          var v := input[cursor];
          cursor' := cursor + 1;
          if parameter as int >= registers.Length {
            return pc', cursor', output', true, Panic(InRegisterOutOfRange);
          }
          registers[parameter as int] := v;
        } else {
          inputExhausted := 1;
        }
      } else if op == OUT {
        output' := output + [registers[Rx(parameter)]];
      }
      flag := 0;
    }

    /** One iteration of the `run` loop: fetch, decode and execute the
        instruction at `pc`, or report why the loop stops. */
    method Cycle(pc: nat, cursor: nat, output: seq<u8>)
      returns (pc': nat, cursor': nat, output': seq<u8>, stopped: bool, reason: Halt)
      requires Valid()
      requires Semantics.Valid(State(pc, cursor, output))
      modifies this, registers
      ensures Valid() && input == old(input)
      ensures var r := Step(old(State(pc, cursor, output)));
        && stopped == r.Stop?
        && State(pc', cursor', output') == r.state
        && (stopped ==> reason == r.reason)
    {
      pc', cursor', output', stopped := pc, cursor, output, true;
      if pc >= memory.Length {
        reason := NoMoreInstructions;
      } else if memory[pc] == 0 {
        reason := UndefinedInstruction;
      } else if pc + 1 >= memory.Length {
        reason := NoParameter;
      } else {
        var op, parameter := memory[pc], memory[pc + 1];
        assert Step(State(pc, cursor, output)) == Semantics.Execute(State(pc + 2, cursor, output), op, parameter);
        pc', cursor', output', stopped, reason := Execute(op, parameter, pc + 2, cursor, output);
      }
    }

    /** Executes at most `fuel` instructions from address 0 with a fresh
        input cursor, returning the bytes written by OUT and how the run
        ended. Registers, flag and input-exhausted byte are left as `Exec`
        says. */
    method Run(fuel: nat) returns (output: seq<u8>, outcome: Outcome)
      requires Valid()
      modifies this, registers
      ensures Valid() && input == old(input)
      ensures var r := Exec(old(State(0, 0, [])), fuel);
        && outcome == r.outcome
        && output == r.state.output
        && registers[..] == r.state.registers
        && flag == r.state.flag
        && inputExhausted == r.state.inputExhausted
    {
      ghost var result := Exec(State(0, 0, []), fuel);
      var pc: nat := 0;
      var cursor: nat := 0;
      output := [];
      var remaining := fuel;
      var stopped := false;
      var reason := Finished;
      ghost var current := State(pc, cursor, output);
      while remaining > 0 && !stopped
        invariant Valid() && input == old(input)
        invariant current == State(pc, cursor, output)
        invariant Semantics.Valid(current)
        invariant !stopped ==> Exec(current, remaining) == result
        invariant stopped ==> Final(current, Halted(reason)) == result
        decreases remaining
      {
        ghost var before, beforeFuel := current, remaining;
        pc, cursor, output, stopped, reason := Cycle(pc, cursor, output);
        current := Step(before).state;
        remaining := remaining - 1;
        ExecStep(before, beforeFuel, current, remaining);
      }
      outcome := if stopped then Halted(reason) else OutOfFuel;
    }
  }

  /** Lines 151-152 of `main` without the file I/O: build a machine from a
      256-byte image and an input, then run it. */
  method Interpret(image: seq<u8>, input: seq<u8>, fuel: nat) returns (output: seq<u8>, outcome: Outcome)
    requires |image| == MemorySize
    ensures var r := Exec(Initial(image, input), fuel);
      output == r.state.output && outcome == r.outcome
  {
    var vm := new VirtualMachine(image, input);
    output, outcome := vm.Run(fuel);
  }
}
