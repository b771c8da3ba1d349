/** The virtual machine as a state transition system: the machine state as
    a value, one fetch/decode/execute step, and a run bounded by fuel
    (one unit per instruction). The class in module `Vm` is proved against
    these definitions. */
module Semantics {
  import opened Bytes
  import opened Isa

  /** Why execution stopped. The first four are the interpreter's own
      terminations; `Panic` is a Rust run-time failure. */
  datatype Halt =
    | NoMoreInstructions   // fetch position outside memory
    | UndefinedInstruction // opcode byte 0
    | NoParameter          // opcode in the last memory byte
    | Finished             // RET
    | Panic(fault: Fault)

  datatype Fault =
    | InRegisterOutOfRange // IN consumed a byte but its parameter is >= 16
    | JumpUnderflow        // a backward jump below address 0

  /** The whole machine: the object's fields plus the locals of `run`
      (the instruction pointer, the input cursor, the bytes written). */
  datatype Machine = Machine(
    registers: seq<u8>,
    memory: seq<u8>,
    flag: u8,
    inputExhausted: u8,
    input: seq<u8>,
    cursor: nat,
    pc: nat,
    output: seq<u8>)

  predicate Valid(m: Machine)
  {
    && |m.registers| == RegisterCount
    && |m.memory| == MemorySize
    && m.flag <= 1
    && m.inputExhausted <= 1
    && m.cursor <= |m.input|
  }

  /** The state at the start of `run`. */
  function Initial(memory: seq<u8>, input: seq<u8>): (m: Machine)
    requires |memory| == MemorySize
    ensures Valid(m)
    ensures forall i :: 0 <= i < |m.registers| ==> m.registers[i] == 0
    ensures m.memory == memory && m.input == input
    ensures m.flag == 0 && m.inputExhausted == 0
    ensures m.pc == 0 && m.cursor == 0 && m.output == []
  {
    Machine(seq(RegisterCount, _ => 0), memory, 0, 0, input, 0, 0, [])
  }

  datatype StepResult =
    | Next(state: Machine)
    | Stop(state: Machine, reason: Halt)

  /** The value a register operation stores into `WrittenRegister(op, parameter)`,
      given the operands `x` = registers[rx] and `y` = registers[ry]. */
  function RegisterResult(op: u8, x: u8, y: u8, parameter: u8): (v: u8)
    requires WritesRegister(op)
  {
    if op == INC then WrappingAdd(x, 1)
    else if op == DEC then WrappingSub(x, 1)
    else if op == MOV then y
    else if op == MOVC then parameter
    else if op == LSL then ShiftLeft(x)
    else if op == LSR then ShiftRight(x)
    else if op == ADD then WrappingAdd(x, y)
    else if op == SUB then WrappingSub(x, y)
    else if op == XOR then Xor(x, y)
    else Or(x, y)
  }

  /** INC ... OR: one register is written and the flag reports whether the
      stored value is zero; nothing else changes. */
  function WriteRegister(m: Machine, op: u8, parameter: u8): (n: Machine)
    requires Valid(m) && WritesRegister(op)
    ensures Valid(n)
    ensures n == m.(registers := n.registers, flag := n.flag)
  {
    var w := WrittenRegister(op, parameter);
    var v := RegisterResult(op, m.registers[Rx(parameter)], m.registers[Ry(parameter)], parameter);
    m.(registers := m.registers[w := v], flag := if v == 0 then 1 else 0)
  }

  predicate IsBranch(op: u8)
  {
    op == JMP || op == JZ || op == JNZ || op == JFE
  }

  /** Whether a branch instruction is taken, given the flag and the
      input-exhausted byte. */
  predicate BranchTaken(op: u8, flag: u8, inputExhausted: u8)
  {
    || op == JMP
    || (op == JZ && flag == 1)
    || (op == JNZ && flag == 0)
    || (op == JFE && inputExhausted == 1)
  }

  /** JMP, JZ, JNZ, JFE. `m.pc` has already been advanced past the
      instruction, so its own address is `m.pc - 2`. Only the instruction
      pointer and the flag can change. */
  function Branch(m: Machine, op: u8, parameter: u8): (r: StepResult)
    requires Valid(m) && m.pc >= 2 && IsBranch(op)
    ensures Valid(r.state)
    ensures r.state == m.(pc := r.state.pc, flag := r.state.flag)
  {
    if !BranchTaken(op, m.flag, m.inputExhausted) then Next(m.(flag := 0))
    else
      var target := m.pc - 2 + Displacement(parameter);
      if target < 0 then Stop(m, Panic(JumpUnderflow))
      else Next(m.(pc := target, flag := 0))
  }

  /** IN: consumes the next input byte into `registers[parameter]` (the
      whole byte selects the register), or records that the input is
      exhausted. The registers, cursor, flag and input-exhausted byte are
      all that can change. */
  function Input(m: Machine, parameter: u8): (r: StepResult)
    requires Valid(m)
    ensures Valid(r.state)
    ensures r.state == m.(registers := r.state.registers, cursor := r.state.cursor,
                          inputExhausted := r.state.inputExhausted, flag := r.state.flag)
    ensures r.state.cursor == m.cursor || r.state.cursor == m.cursor + 1
    ensures r.state.inputExhausted == m.inputExhausted || r.state.inputExhausted == 1
  {
    if m.cursor < |m.input| then
      var consumed := m.(cursor := m.cursor + 1);
      if parameter as int < RegisterCount then
        Next(consumed.(registers := m.registers[parameter as int := m.input[m.cursor]], flag := 0))
      else Stop(consumed, Panic(InRegisterOutOfRange))
    else Next(m.(inputExhausted := 1, flag := 0))
  }

  /** Executes one decoded instruction; `m.pc` is already advanced by 2. */
  function Execute(m: Machine, op: u8, parameter: u8): (r: StepResult)
    requires Valid(m) && m.pc >= 2
    ensures Valid(r.state)
    ensures r.state.memory == m.memory && r.state.input == m.input
    ensures r.state.cursor == m.cursor || r.state.cursor == m.cursor + 1
    ensures r.state.inputExhausted == m.inputExhausted || r.state.inputExhausted == 1
    ensures m.output <= r.state.output && |r.state.output| <= |m.output| + 1
  {
    if WritesRegister(op) then Next(WriteRegister(m, op, parameter))
    else if IsBranch(op) then Branch(m, op, parameter)
    else if op == RET then Stop(m, Finished)
    else if op == IN then Input(m, parameter)
    else if op == OUT then Next(m.(output := m.output + [m.registers[Rx(parameter)]], flag := 0))
    else Next(m.(flag := 0))
  }

  /** One iteration of the interpreter loop. Whatever happens, memory and
      input are untouched, the cursor moves by at most one, the input
      exhausted byte is only ever set, the output only gains at most one
      byte, and the state stays valid (so the flag stays 0 or 1). */
  function Step(m: Machine): (r: StepResult)
    requires Valid(m)
    ensures Valid(r.state)
    ensures r.state.memory == m.memory && r.state.input == m.input
    ensures r.state.cursor == m.cursor || r.state.cursor == m.cursor + 1
    ensures r.state.inputExhausted == m.inputExhausted || r.state.inputExhausted == 1
    ensures m.output <= r.state.output && |r.state.output| <= |m.output| + 1
  {
    if m.pc >= |m.memory| then Stop(m, NoMoreInstructions)
    else if m.memory[m.pc] == 0 then Stop(m, UndefinedInstruction)
    else if m.pc + 1 >= |m.memory| then Stop(m, NoParameter)
    else Execute(m.(pc := m.pc + 2), m.memory[m.pc], m.memory[m.pc + 1])
  }

  datatype Outcome = Halted(reason: Halt) | OutOfFuel

  datatype Final = Final(state: Machine, outcome: Outcome)

  /** Runs at most `fuel` instructions. The invariants of `Step` hold over
      the whole run. */
  function Exec(m: Machine, fuel: nat): (r: Final)
    requires Valid(m)
    ensures Valid(r.state)
    ensures r.state.memory == m.memory && r.state.input == m.input
    ensures m.cursor <= r.state.cursor
    ensures r.state.inputExhausted == m.inputExhausted || r.state.inputExhausted == 1
    ensures m.output <= r.state.output
    decreases fuel, 1
  {
    if fuel == 0 then Final(m, OutOfFuel) else Resume(Step(m), fuel - 1)
  }

  /** Continues a run after one step: stops with its reason, or runs on. */
  function Resume(s: StepResult, fuel: nat): (r: Final)
    requires Valid(s.state)
    ensures Valid(r.state)
    ensures r.state.memory == s.state.memory && r.state.input == s.state.input
    ensures s.state.cursor <= r.state.cursor
    ensures r.state.inputExhausted == s.state.inputExhausted || r.state.inputExhausted == 1
    ensures s.state.output <= r.state.output
    decreases fuel + 1, 0
  {
    match s
    case Next(n) => Exec(n, fuel)
    case Stop(n, h) => Final(n, Halted(h))
  }

  /** One unfolding of `Exec`, stated for the state after the step. */
  lemma ExecStep(m: Machine, fuel: nat, n: Machine, rest: nat)
    requires Valid(m) && fuel == rest + 1 && n == Step(m).state
    ensures Step(m).Next? ==> Exec(m, fuel) == Exec(n, rest)
    ensures Step(m).Stop? ==> Exec(m, fuel) == Final(n, Halted(Step(m).reason))
  {
  }
}
