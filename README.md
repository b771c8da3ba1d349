# A verified model of a 16-register bytecode interpreter

The system is a small virtual machine. It loads a 256-byte memory image
and a byte stream of input, then repeatedly fetches a two-byte instruction
(opcode, parameter) at the instruction pointer. It executes the instruction
on sixteen 8-bit registers and a single zero flag, and appends the bytes
emitted by `OUT` to an output stream. It stops when the program returns
(`RET`), when the instruction pointer leaves memory, when it meets the
undefined opcode 0, or when an opcode sits in the last memory byte with no
parameter after it. The parameter byte encodes two register numbers (low
and high nibble), a constant (`MOVC`), a signed jump displacement relative
to the jump instruction's own address, or, for `IN`, a whole-byte register
number. A second machine byte, `r#in`, becomes 1 once `IN` finds the input
exhausted, and `JFE` branches on it.

The model has two layers.

- `Semantics` describes the machine as a value (`Machine`). It has one
  fetch/decode/execute step (`Step`) and a run bounded by fuel (`Exec`),
  where one unit of fuel is one instruction.
- `Vm` is the interpreter object itself. It is a class with fixed-size
  arrays for the registers and memory and fields for the flag,
  the input-exhausted byte and the input. `Run` is its fetch/decode/execute
  loop, proved to compute exactly what `Exec` describes. `Jump` is the
  relative-jump helper.

`Bytes` holds the 8-bit register arithmetic and `Isa` the opcode numbers and
parameter decoding. `Properties` proves the behaviour of the instruction set
against the step function: register effects, jump targets, the flag rule,
`IN`/`OUT`, the halt conditions, and run-level facts such as halting being
final, input exhaustion being sticky and a self-jump never halting.

Behaviour of the code worth noting:

- Memory is always 256 bytes, zero-filled past the program. A program of
  at most 254 bytes therefore never stops on "no more instructions" or
  "no parameter" at its end. A 255-byte program whose last byte is fetched
  as an opcode runs it with parameter 0 (the one zero-filled byte). If that
  instruction moves on to address 256 (it is not `RET`, not a taken jump
  and does not panic), the next fetch stops on "no more instructions"
  (`Properties.LastInstructionFallsOff`; `Properties.LastByteRunsOffTheEnd`
  traces one such program). `RET` there finishes instead, and `JMP` there
  is `JMP 0`, which never halts.
  An empty program stops at once on the undefined opcode 0
  (`Properties.EmptyProgramIsUndefined`). A one-byte program runs its
  opcode with parameter 0: `RET` alone finishes (`Properties.ReturnOnlyProgram`),
  while `JMP` alone is a jump to itself and never halts
  (`Properties.JumpOnlyProgramRunsForever`).
- The instruction pointer is not always even. A jump with an odd
  displacement lands on a parameter byte and fetches it as an opcode
  (`Properties.OddInstructionPointer`).
- `RET` leaves the loop before the flag update, so it is the only
  completed instruction that does not touch the flag.
- Every other instruction, unknown opcodes included, clears the flag
  unless it is one of the ten register operations.

## Model

| member | source | states |
|---|---|---|
| Bytes.WrappingAdd | src/main.rs:104 | `+=` on a `u8` register: the sum, minus 256 when it exceeds 255 |
| Bytes.WrappingSub | src/main.rs:105 | `-=` on a `u8` register: the difference, plus 256 when it is negative |
| Bytes.ShiftLeft | src/main.rs:82 | `<< 1` on a `u8`: twice the value, minus 256 when bit 7 was set |
| Bytes.ShiftRight | src/main.rs:83 | `>> 1` on a `u8`: half the value, rounded down |
| Bytes.Xor | src/main.rs:106 | `^=` on a `u8`: every bit of the result is the exclusive or of the operands' bits |
| Bytes.Or | src/main.rs:107 | the bitwise-or assignment on a `u8`: every bit of the result is set exactly when either operand's bit is |
| Bytes.BitwiseIdentities | src/main.rs:106-107 | XOR of a register with itself is 0; XOR and OR with 0 and OR with itself leave it unchanged |
| Isa.WritesRegisterIsMembership | src/main.rs:24 | an opcode updates the flag from a register exactly when it is in the ten-element list of register operations |
| Isa.Rx | src/main.rs:74 | the first operand is a register index below 16 |
| Isa.Ry | src/main.rs:75 | the second operand is a register index below 16 |
| Isa.DecodeIsNibbleSplit | src/main.rs:74-75 | the two operands are the low and high nibble: together they recover the parameter byte |
| Isa.Displacement | src/main.rs:134-138 | a jump parameter is a two's-complement displacement in -128..127, congruent to the byte modulo 256 |
| Isa.WrittenRegister | src/main.rs:121 | the register line 121 picks for the flag test (0 for MOVC, `rx` otherwise, as its body reads) is always a valid index |
| Semantics.Initial | src/main.rs:35-45 | a new machine has all registers zero, flag and `r#in` zero, the given memory and input, and starts at address 0 with nothing consumed or written |
| Semantics.WriteRegister | src/main.rs:78-107 | a register operation changes only the register file and the flag, and keeps the machine well formed |
| Semantics.Branch | src/main.rs:84-99 | a branch changes only the instruction pointer and the flag (or stops on underflow) |
| Semantics.Input | src/main.rs:108-113 | IN changes only registers, input cursor, `r#in` and flag; the cursor advances by at most one and `r#in` is only ever set |
| Semantics.Execute | src/main.rs:77-129 | executing an instruction keeps memory and input, moves the cursor by at most one, only sets `r#in`, and appends at most one output byte |
| Semantics.Step | src/main.rs:51-129 | one loop iteration, including the three fetch terminations, keeps memory and input, moves the cursor by at most one, only sets `r#in`, and appends at most one output byte |
| Semantics.Exec | src/main.rs:50-130 | over a whole run memory and input are unchanged, the cursor never moves back, `r#in` is only ever set, and the output only grows |
| Vm.VirtualMachine.constructor | src/main.rs:35-43 | the new object holds zeroed registers, the given memory and input, and flag and `r#in` zero, i.e. exactly `Semantics.Initial` |
| Vm.VirtualMachine.Jump | src/main.rs:132-139 | a taken jump lands at the jump's own address plus the signed displacement, and fails exactly when that is below 0 |
| Vm.VirtualMachine.ExecuteRegisterOperation | src/main.rs:120-126 | the register update of INC ... OR followed by the flag update leaves the object in the state `Semantics.WriteRegister` describes |
| Vm.VirtualMachine.ExecuteBranch | src/main.rs:85-99 | JZ, JNZ and JFE jump exactly under their conditions and JMP always; the result is the target or the next instruction, and fails only for a taken jump below 0 |
| Vm.VirtualMachine.Execute | src/main.rs:77-129 | the `match` plus flag update leave the object, cursor and output exactly as `Semantics.Execute` says, and stop exactly when it does, with its reason |
| Vm.VirtualMachine.Cycle | src/main.rs:51-76 | one loop iteration agrees with `Semantics.Step`: the same new state, and a stop exactly when it stops, with its reason |
| Vm.VirtualMachine.Run | src/main.rs:44-131 | the loop returns the output and the halt reason of `Semantics.Exec` and leaves registers, flag and `r#in` as `Exec` says |
| Vm.Interpret | src/main.rs:151-152 | building a machine from an image and running it yields the output and outcome of `Exec` from the initial state |
| Properties.RegisterOperationEffect | src/main.rs:78-83 | a register operation advances by 2, writes only the written register (the others, memory, output, cursor and `r#in` unchanged) with the value of its `Bytes` operation, and sets the flag exactly when that value is 0 |
| Properties.IncDecWrapAround | src/main.rs:78-79 | INC of 255 gives 0 with flag 1; DEC of 0 gives 255 with flag 0 |
| Properties.StepAdvance | src/main.rs:72 | a step that continues moves the pointer to the jump target if a branch is taken, and by 2 otherwise |
| Properties.JumpTarget | src/main.rs:132-139 | a taken jump moves forward by the parameter if it is at most 127, back by 256 minus the parameter otherwise, and stops with an underflow exactly when that is below address 0 |
| Properties.BranchNotTaken | src/main.rs:85-99 | a conditional jump whose condition fails only advances by 2 and clears the flag |
| Properties.FlagAfterStep | src/main.rs:120-129 | after a continuing step the flag is 1 exactly when a register operation left its written register at 0 |
| Properties.InputEffect | src/main.rs:108-113 | IN stores the next input byte in `registers[parameter]` and consumes it, or with no input left sets `r#in` to 1 and changes no register |
| Properties.OutputEffect | src/main.rs:114-116 | OUT appends exactly `registers[rx]`, advances by 2, clears the flag and changes nothing else; every other step leaves the output unchanged |
| Properties.ReturnEffect | src/main.rs:100-103 | RET stops with `Finished`, the pointer past it, and the flag and everything else as before |
| Properties.UnknownOpcodeIsNoOp | src/main.rs:117 | opcodes 0x12 to 0xFF only advance by 2 and clear the flag |
| Properties.HaltReasons | src/main.rs:51-103 | a step stops exactly on a fetch outside memory, opcode 0, a missing parameter, RET, a taken jump below 0, or IN consuming a byte for a register index of 16 or more |
| Properties.ExecAdditive | src/main.rs:50-130 | running for a+b instructions equals running for a and, if fuel ran out, b more |
| Properties.HaltIsFinal | src/main.rs:50-130 | once a run halts, more fuel gives the same final state and reason |
| Properties.SelfJumpRunsForever | src/main.rs:84 | JMP with displacement 0 never halts and writes nothing |
| Properties.InputExhaustionIsSticky | src/main.rs:95-99 | once `r#in` is 1 it stays 1, and every JFE reached afterwards is taken and, unless it underflows, moves the pointer by its displacement |
| Properties.ConsumedInputStaysConsumed | src/main.rs:108-113 | once the input is consumed it stays so, and every later IN only sets `r#in` |
| Properties.Image | src/main.rs:148-149 | the 256-byte image holds the program bytes followed by zeros |
| Properties.EchoConstant | src/main.rs:81-116 | the program MOVC k; OUT r0; RET finishes and writes exactly the byte k |
| Properties.EmptyProgramIsUndefined | src/main.rs:59-62 | an empty program stops at once on the undefined opcode and writes nothing |
| Properties.ReturnOnlyProgram | src/main.rs:100-103 | the one-byte program RET runs with parameter 0, finishes and writes nothing |
| Properties.JumpOnlyProgramRunsForever | src/main.rs:132-139 | the one-byte program JMP is JMP 0 and never halts, writing nothing |
| Properties.LastInstructionFallsOff | src/main.rs:51-72 | an instruction at address 254 that continues without a taken jump moves the pointer to 256, and the next step stops on no more instructions |
| Properties.LastByteRunsOffTheEnd | src/main.rs:51-72 | in the 255-byte program made of `JMP 127`, 125 zeros, `JMP 127`, 125 zeros and `INC`, the two jumps reach the `INC` at address 254, which runs with parameter 0, and after 4 instructions the run has stopped on no more instructions |
| Properties.OddInstructionPointer | src/main.rs:132-139 | JMP 1 at address 0 leaves the instruction pointer at the odd address 1, whose byte then runs as `INC` with parameter 0, reaching address 3 with register 0 at 1 |

## Left out

- `main`'s argument parsing and file reading are not modelled. The image is a 256-byte sequence (`Properties.Image` builds it from a program's bytes), and the input is a sequence.
- A short read from `file.read` is not modelled; the image is taken to hold the whole program, up to 256 bytes.
- The output file is a sequence of bytes. File creation and write failures, which panic through `unwrap`, are not modelled.
- The diagnostic lines printed on termination are not modelled. Each becomes a `Halt` reason.
- Vm.VirtualMachine.Run: a program may loop forever. The model runs at most `fuel` instructions and reports `OutOfFuel` otherwise; it says nothing about a run longer than its fuel.
- Bytes.WrappingAdd: models the release-build `u8` wraparound; a debug build panics on overflow instead. The same holds for WrappingSub.
- Vm.VirtualMachine.Jump: a backward jump below address 0 underflows the `usize` instruction pointer. This is modelled as the halt `Panic(JumpUnderflow)` with the machine state left as before the jump. A debug build panics there. In a release build the pointer wraps to a huge value, the flag is cleared, and the very next fetch stops with "There are no more instructions"; the output written is the same in both builds.
- Semantics.Input: `IN` with a parameter of 16 or more indexes past the register array once a byte is read. This is modelled as the halt `Panic(InRegisterOutOfRange)`, after the byte has been consumed; with the input already exhausted no register is indexed and no panic occurs.
