/** The instruction set: opcode numbers, the opcodes that write a register,
    and the decoding of an instruction's parameter byte. */
module Isa {
  import opened Bytes

  const INC: u8 := 0x1
  const DEC: u8 := 0x2
  const MOV: u8 := 0x3
  const MOVC: u8 := 0x4
  const LSL: u8 := 0x5
  const LSR: u8 := 0x6
  const JMP: u8 := 0x7
  const JZ: u8 := 0x8
  const JNZ: u8 := 0x9
  const JFE: u8 := 0xA
  const RET: u8 := 0xB
  const ADD: u8 := 0xC
  const SUB: u8 := 0xD
  const XOR: u8 := 0xE
  const OR: u8 := 0xF
  const IN: u8 := 0x10
  const OUT: u8 := 0x11

  /** The ten opcodes after which the flag reports whether the written
      register is zero. */
  const RegisterOperations: seq<u8> := [INC, DEC, MOV, MOVC, LSL, LSR, ADD, SUB, XOR, OR]

  const RegisterCount: nat := 16
  const MemorySize: nat := 256

  /** Membership in `RegisterOperations`, written as the two opcode ranges
      it covers. */
  predicate WritesRegister(op: u8)
  {
    INC <= op <= LSR || ADD <= op <= OR
  }

  lemma WritesRegisterIsMembership(op: u8)
    ensures WritesRegister(op) <==> op in RegisterOperations
  {
  }

  /** First register operand: the low four bits of the parameter
      (`parameter & 0xf`). */
  function Rx(parameter: u8): (r: nat)
    ensures r < RegisterCount
  {
    parameter as int % 16
  }

  /** Second register operand: the high four bits of the parameter
      (`parameter >> 4 & 0xf`). */
  function Ry(parameter: u8): (r: nat)
    ensures r < RegisterCount
  {
    parameter as int / 16
  }

  /** The two operands together recover the parameter byte. */
  lemma DecodeIsNibbleSplit(parameter: u8)
    ensures parameter as int == 16 * Ry(parameter) + Rx(parameter)
  {
  }

  /** The parameter byte read as a two's-complement signed displacement. */
  function Displacement(parameter: u8): (d: int)
    ensures -128 <= d < 128
    ensures (d - parameter as int) % 256 == 0
  {
    if parameter > 127 then parameter as int - 256 else parameter as int
  }

  /** The register an operation writes: 0 for MOVC, `Rx` otherwise. */
  function WrittenRegister(op: u8, parameter: u8): (w: nat)
    ensures w < RegisterCount
  {
    if op == MOVC then 0 else Rx(parameter)
  }
}
