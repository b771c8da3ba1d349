/** What one step of the machine does, opcode family by opcode family, how
    runs compose, and how small programs behave. */
module Properties {
  import opened Bytes
  import opened Isa
  import opened Semantics

  /** A register operation writes exactly one register (index 0 for MOVC,
      `rx` otherwise) with the value `RegisterResult` gives (whose parts
      are specified in `Bytes`), sets the flag iff that value is zero,
      advances the instruction pointer by two and changes nothing else. */
  lemma RegisterOperationEffect(m: Machine)
    requires Valid(m) && m.pc + 1 < MemorySize && WritesRegister(m.memory[m.pc])
    ensures var op, p := m.memory[m.pc], m.memory[m.pc + 1];
      var w := WrittenRegister(op, p);
      var n := Step(m).state;
      && Step(m).Next?
      && n.pc == m.pc + 2
      && n.memory == m.memory && n.output == m.output
      && n.cursor == m.cursor && n.inputExhausted == m.inputExhausted
      && (forall i :: 0 <= i < RegisterCount && i != w ==> n.registers[i] == m.registers[i])
      && n.registers[w] == RegisterResult(op, m.registers[Rx(p)], m.registers[Ry(p)], p)
      && n.flag == (if n.registers[w] == 0 then 1 else 0)
  {
  }

  /** A step that does not stop moves the instruction pointer by two,
      unless it is a taken jump, which moves it by the signed parameter
      relative to the jump instruction itself. */
  lemma StepAdvance(m: Machine)
    requires Valid(m) && Step(m).Next?
    ensures m.pc + 1 < MemorySize
    ensures var op, p := m.memory[m.pc], m.memory[m.pc + 1];
      Step(m).state.pc == if IsBranch(op) && BranchTaken(op, m.flag, m.inputExhausted)
                          then m.pc + Displacement(p) else m.pc + 2
  {
  }

  /** Where a taken jump at address `m.pc` lands: forward by `parameter`
      when it is at most 127, otherwise back by `256 - parameter`, which
      fails when that would pass below address 0. */
  lemma JumpTarget(m: Machine)
    requires Valid(m) && m.pc + 1 < MemorySize
    requires IsBranch(m.memory[m.pc]) && BranchTaken(m.memory[m.pc], m.flag, m.inputExhausted)
    ensures var p := m.memory[m.pc + 1];
      && (p <= 127 ==> Step(m) == Next(m.(pc := m.pc + p as int, flag := 0)))
      && (p > 127 && m.pc >= 256 - p as int ==> Step(m) == Next(m.(pc := m.pc - (256 - p as int), flag := 0)))
      && (p > 127 && m.pc < 256 - p as int ==> Step(m).Stop? && Step(m).reason == Panic(JumpUnderflow))
  {
  }

  /** A conditional jump that is not taken only clears the flag and moves
      on to the next instruction. */
  lemma BranchNotTaken(m: Machine)
    requires Valid(m) && m.pc + 1 < MemorySize
    requires IsBranch(m.memory[m.pc]) && !BranchTaken(m.memory[m.pc], m.flag, m.inputExhausted)
    ensures m.memory[m.pc] != JMP
    ensures Step(m) == Next(m.(pc := m.pc + 2, flag := 0))
  {
  }

  /** After every instruction that does not stop the machine, the flag is 1
      exactly when the instruction is a register operation and the register
      it wrote is zero. */
  lemma FlagAfterStep(m: Machine)
    requires Valid(m) && Step(m).Next?
    ensures m.pc + 1 < MemorySize
    ensures var op, p := m.memory[m.pc], m.memory[m.pc + 1];
      var n := Step(m).state;
      n.flag == if WritesRegister(op) && n.registers[WrittenRegister(op, p)] == 0 then 1 else 0
  {
  }

  /** IN: with input left, the next byte goes into `registers[parameter]`
      and the cursor advances (a parameter above 15 is an out-of-bounds
      panic); with none left, the registers stay as they are and the input
      is marked exhausted. */
  lemma InputEffect(m: Machine)
    requires Valid(m) && m.pc + 1 < MemorySize && m.memory[m.pc] == IN
    ensures var p := m.memory[m.pc + 1];
      && (m.cursor < |m.input| && p as int < RegisterCount ==>
            Step(m) == Next(m.(registers := m.registers[p as int := m.input[m.cursor]],
                               cursor := m.cursor + 1, pc := m.pc + 2, flag := 0)))
      && (m.cursor < |m.input| && p as int >= RegisterCount ==>
            Step(m).Stop? && Step(m).reason == Panic(InRegisterOutOfRange))
      && (m.cursor == |m.input| ==>
            Step(m) == Next(m.(inputExhausted := 1, pc := m.pc + 2, flag := 0)))
  {
  }

  /** OUT appends the one byte `registers[rx]` and otherwise only advances
      and clears the flag; no other step changes the output. */
  lemma OutputEffect(m: Machine)
    requires Valid(m)
    ensures m.pc + 1 < MemorySize && m.memory[m.pc] == OUT ==>
      Step(m) == Next(m.(output := m.output + [m.registers[Rx(m.memory[m.pc + 1])]],
                         pc := m.pc + 2, flag := 0))
    ensures Step(m).state.output ==
      if m.pc + 1 < MemorySize && m.memory[m.pc] == OUT
      then m.output + [m.registers[Rx(m.memory[m.pc + 1])]]
      else m.output
  {
  }

  /** RET stops the machine with the instruction pointer past it and the
      flag as it was: the loop is left before the flag update. */
  lemma ReturnEffect(m: Machine)
    requires Valid(m) && m.pc + 1 < MemorySize && m.memory[m.pc] == RET
    ensures Step(m) == Stop(m.(pc := m.pc + 2), Finished)
  {
  }

  /** INC of 255 gives 0 and sets the flag; DEC of 0 gives 255 and clears
      it. */
  lemma IncDecWrapAround(m: Machine)
    requires Valid(m) && m.pc + 1 < MemorySize
    ensures var op, rx := m.memory[m.pc], Rx(m.memory[m.pc + 1]);
      var n := Step(m).state;
      && (op == INC && m.registers[rx] == 255 ==> n.registers[rx] == 0 && n.flag == 1)
      && (op == DEC && m.registers[rx] == 0 ==> n.registers[rx] == 255 && n.flag == 0)
  {
  }

  /** Opcodes 0x12 to 0xFF are no-operations apart from clearing the flag. */
  lemma UnknownOpcodeIsNoOp(m: Machine)
    requires Valid(m) && m.pc + 1 < MemorySize && m.memory[m.pc] > OUT
    ensures Step(m) == Next(m.(pc := m.pc + 2, flag := 0))
  {
  }

  /** The exact conditions for each way a step can stop. */
  lemma HaltReasons(m: Machine)
    requires Valid(m)
    ensures var s := Step(m);
      && (s.Stop? && s.reason == NoMoreInstructions <==> m.pc >= MemorySize)
      && (s.Stop? && s.reason == UndefinedInstruction <==> m.pc < MemorySize && m.memory[m.pc] == 0)
      && (s.Stop? && s.reason == NoParameter <==> m.pc == MemorySize - 1 && m.memory[m.pc] != 0)
      && (s.Stop? && s.reason == Finished <==> m.pc + 1 < MemorySize && m.memory[m.pc] == RET)
      && (s.Stop? && s.reason == Panic(InRegisterOutOfRange) <==>
            m.pc + 1 < MemorySize && m.memory[m.pc] == IN && m.cursor < |m.input|
            && m.memory[m.pc + 1] as int >= RegisterCount)
      && (s.Stop? && s.reason == Panic(JumpUnderflow) <==>
            m.pc + 1 < MemorySize && IsBranch(m.memory[m.pc])
            && BranchTaken(m.memory[m.pc], m.flag, m.inputExhausted)
            && m.pc + Displacement(m.memory[m.pc + 1]) < 0)
  {
  }

  /** Running for `a + b` instructions is running for `a`, then, if that
      did not stop, for `b` more. */
  lemma {:induction false} ExecAdditive(m: Machine, a: nat, b: nat)
    requires Valid(m)
    ensures Exec(m, a + b) ==
      var r := Exec(m, a);
      if r.outcome.OutOfFuel? then Exec(r.state, b) else r
    decreases a
  {
    if a == 0 {
      assert a + b == b;
    } else {
      var s := Step(m);
      ExecStep(m, a, s.state, a - 1);
      ExecStep(m, a + b, s.state, a - 1 + b);
      if s.Next? {
        ExecAdditive(s.state, a - 1, b);
        assert a + b - 1 == a - 1 + b;
      }
    }
  }

  /** Once a run has halted, more fuel changes nothing: fuel only bounds
      how long it is observed. */
  lemma HaltIsFinal(m: Machine, a: nat, b: nat)
    requires Valid(m) && Exec(m, a).outcome.Halted? && a <= b
    ensures Exec(m, b) == Exec(m, a)
  {
    ExecAdditive(m, a, b - a);
  }

  /** A jump to itself (JMP with parameter 0) never halts. */
  lemma {:induction false} SelfJumpRunsForever(m: Machine, fuel: nat)
    requires Valid(m) && m.pc + 1 < MemorySize
    requires m.memory[m.pc] == JMP && m.memory[m.pc + 1] == 0
    ensures Exec(m, fuel).outcome == OutOfFuel
    ensures Exec(m, fuel).state.output == m.output
    decreases fuel
  {
    if fuel > 0 {
      var n := m.(flag := 0);
      assert Step(m) == Next(n);
      ExecStep(m, fuel, n, fuel - 1);
      SelfJumpRunsForever(n, fuel - 1);
    }
  }

  /** Once the input is exhausted it stays so, and from then on every JFE
      that is reached jumps by its displacement (or stops on underflow). */
  lemma InputExhaustionIsSticky(m: Machine, fuel: nat)
    requires Valid(m) && m.inputExhausted == 1
    ensures var n := Exec(m, fuel).state;
      && n.inputExhausted == 1
      && (n.pc + 1 < MemorySize && n.memory[n.pc] == JFE ==>
            && BranchTaken(JFE, n.flag, n.inputExhausted)
            && (Step(n).Next? ==> Step(n).state.pc == n.pc + Displacement(n.memory[n.pc + 1])))
  {
    var n := Exec(m, fuel).state;
    if n.pc + 1 < MemorySize && n.memory[n.pc] == JFE && Step(n).Next? {
      StepAdvance(n);
    }
  }

  /** Once every input byte is consumed, every later IN leaves the
      registers unchanged and sets the input-exhausted byte. */
  lemma ConsumedInputStaysConsumed(m: Machine, fuel: nat)
    requires Valid(m) && m.cursor == |m.input|
    ensures var n := Exec(m, fuel).state;
      && n.cursor == |n.input|
      && (n.pc + 1 < MemorySize && n.memory[n.pc] == IN ==>
            Step(n) == Next(n.(inputExhausted := 1, pc := n.pc + 2, flag := 0)))
  {
  }

  /** The 256-byte image `main` builds: the program file's bytes followed
      by zeros. */
  function Image(program: seq<u8>): (image: seq<u8>)
    requires |program| <= MemorySize
    ensures |image| == MemorySize
    ensures forall i :: 0 <= i < |program| ==> image[i] == program[i]
    ensures forall i :: |program| <= i < MemorySize ==> image[i] == 0
  {
    program + seq(MemorySize - |program|, _ => 0)
  }

  /** `MOVC k; OUT r0; RET` writes exactly the byte `k` and finishes,
      whatever the input. */
  lemma EchoConstant(k: u8, input: seq<u8>, fuel: nat)
    requires fuel >= 3
    ensures var r := Exec(Initial(Image([MOVC, k, OUT, 0x00, RET, 0x00]), input), fuel);
      r.outcome == Halted(Finished) && r.state.output == [k]
  {
    var image := Image([MOVC, k, OUT, 0x00, RET, 0x00]);
    var m0 := Initial(image, input);
    assert image[0] == MOVC && image[1] == k && image[2] == OUT && image[3] == 0;
    assert image[4] == RET && image[5] == 0;
    var m1 := m0.(registers := m0.registers[0 := k], pc := 2, flag := if k == 0 then 1 else 0);
    assert Step(m0) == Next(m1);
    var m2 := m1.(output := [k], pc := 4, flag := 0);
    assert Step(m1) == Next(m2);
    var m3 := m2.(pc := 6);
    assert Step(m2) == Stop(m3, Finished);
    ExecStep(m0, 3, m1, 2);
    ExecStep(m1, 2, m2, 1);
    ExecStep(m2, 1, m3, 0);
    HaltIsFinal(m0, 3, fuel);
  }

  /** An empty program file leaves memory all zeros, so the very first
      opcode is undefined and nothing is written. */
  lemma EmptyProgramIsUndefined(input: seq<u8>, fuel: nat)
    requires fuel >= 1
    ensures var r := Exec(Initial(Image([]), input), fuel);
      r.outcome == Halted(UndefinedInstruction) && r.state.output == []
  {
    var m0 := Initial(Image([]), input);
    assert Exec(m0, 1).outcome == Halted(UndefinedInstruction);
    HaltIsFinal(m0, 1, fuel);
  }

  /** A one-byte program runs its opcode with parameter 0: `RET` alone
      finishes at once and writes nothing. */
  lemma ReturnOnlyProgram(input: seq<u8>, fuel: nat)
    requires fuel >= 1
    ensures var r := Exec(Initial(Image([RET]), input), fuel);
      r.outcome == Halted(Finished) && r.state.output == []
  {
    var m0 := Initial(Image([RET]), input);
    ReturnEffect(m0);
    ExecStep(m0, 1, m0.(pc := 2), 0);
    HaltIsFinal(m0, 1, fuel);
  }

  /** `JMP` alone is `JMP 0`, a jump to itself: it never halts. */
  lemma JumpOnlyProgramRunsForever(input: seq<u8>, fuel: nat)
    ensures var r := Exec(Initial(Image([JMP]), input), fuel);
      r.outcome == OutOfFuel && r.state.output == []
  {
    var m0 := Initial(Image([JMP]), input);
    SelfJumpRunsForever(m0, fuel);
  }

  /** An instruction at address 254 takes its parameter from the last
      memory byte. If it neither stops nor takes a jump, the pointer moves
      to 256 and the next fetch finds no more instructions. */
  lemma LastInstructionFallsOff(m: Machine)
    requires Valid(m) && m.pc == MemorySize - 2 && Step(m).Next?
    requires !(IsBranch(m.memory[m.pc]) && BranchTaken(m.memory[m.pc], m.flag, m.inputExhausted))
    ensures Step(m).state.pc == MemorySize
    ensures Step(Step(m).state) == Stop(Step(m).state, NoMoreInstructions)
  {
    StepAdvance(m);
  }

  /** A 255-byte program leaves only `memory[255]` zero-filled, and that
      byte is the parameter of an opcode at address 254. Here `JMP 127`
      twice reaches address 254, whose `INC` runs with parameter 0, and the
      next fetch at address 256 finds no more instructions. */
  lemma LastByteRunsOffTheEnd(input: seq<u8>)
    ensures var program := [JMP, 127] + seq(125, _ => 0) + [JMP, 127] + seq(125, _ => 0) + [INC];
      |program| == MemorySize - 1 &&
      Exec(Initial(Image(program), input), 4).outcome == Halted(NoMoreInstructions)
  {
    var program := [JMP, 127] + seq(125, _ => 0) + [JMP, 127] + seq(125, _ => 0) + [INC];
    var image := Image(program);
    assert image[0] == JMP && image[1] == 127;
    assert image[127] == JMP && image[128] == 127;
    assert image[254] == INC && image[255] == 0;
    var m0 := Initial(image, input);
    var m1 := m0.(pc := 127);
    var m2 := m0.(pc := 254);
    var m3 := m2.(registers := m2.registers[0 := 1], pc := 256);
    JumpTarget(m0);
    JumpTarget(m1);
    RegisterOperationEffect(m2);
    assert Step(m2) == Next(m3);
    ExecStep(m0, 4, m1, 3);
    ExecStep(m1, 3, m2, 2);
    ExecStep(m2, 2, m3, 1);
    ExecStep(m3, 1, m3, 0);
  }

  /** The instruction pointer need not stay even: `JMP 1` lands on its own
      parameter byte, which is then fetched as the opcode `INC` with the
      zero-filled byte 0 as its parameter. */
  lemma OddInstructionPointer(input: seq<u8>)
    ensures Exec(Initial(Image([JMP, 0x01]), input), 1).state.pc == 1
    ensures var n := Exec(Initial(Image([JMP, 0x01]), input), 2).state;
      n.pc == 3 && n.registers[0] == 1
  {
    var image := Image([JMP, 0x01]);
    assert image[0] == JMP && image[1] == INC && image[2] == 0;
    var m0 := Initial(image, input);
    var m1 := m0.(pc := 1);
    JumpTarget(m0);
    RegisterOperationEffect(m1);
    var m2 := Step(m1).state;
    assert m2.pc == 3 && m2.registers[0] == 1;
    ExecStep(m0, 1, m1, 0);
    ExecStep(m0, 2, m1, 1);
    ExecStep(m1, 1, m2, 0);
  }
}
