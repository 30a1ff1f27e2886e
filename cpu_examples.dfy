/// The unit tests of `src/cpu/mod.rs` restated as lemmas about the model:
/// the program counter steps, and the three-instruction program that stores
/// 1 at zero-page address 1.
module CpuExamples {
  import opened Outcome
  import opened Words
  import opened Status
  import opened Alu
  import opened Bus
  import opened Cpu
  import opened CpuProperties

  /// `advance_pc_1`, `advance_pc_2` and `advance_pc_3` from PC 0 land on 1,
  /// 3 and 6.
  lemma PcAdvancesInSteps(st: State)
    requires st.pc == 0
    ensures AdvancePc(st, 1) == Ok(st.(pc := 1))
    ensures AdvancePc(st.(pc := 1), 2) == Ok(st.(pc := 3))
    ensures AdvancePc(st.(pc := 3), 3) == Ok(st.(pc := 6))
  {
    AdvancePcAdds(st, 1);
    AdvancePcAdds(st.(pc := 1), 2);
    AdvancePcAdds(st.(pc := 3), 3);
  }

  // AND #$00, ORA #$01, STA $01 run from a freshly reset system with PC at
  // 0x8000.

  const PROGRAM: seq<Word> := [0x29, 0x00, 0x09, 0x01, 0x85, 0x01]

  /// The system after `new_resetted`, PC moved to 0x8000 and the program
  /// copied to the cartridge.
  function Start(): (st: State)
    ensures st.Valid()
  {
    State(0, 0, 0, 0x8000, 0, 0, Zeroes(RAM_SIZE_BYTES), Pushed(Zeroes(CART_SIZE_BYTES), PROGRAM))
  }

  /// A byte of the program, as the CPU loads it.
  lemma LoadProgramByte(st: State, i: nat)
    requires st.Valid() && st.cart == Start().cart && i < |PROGRAM|
    ensures Cpu.Load(st, 0x8000 + i as bv16) == Ok(PROGRAM[i])
  {
    var at := 0x8000 + i as bv16;
    assert (at - 0x8000) as int == i;
  }

  /// `alternate_exec` from its three stages.
  lemma StepFrom(st: State, instr: Word, op: Operand, st1: State, pc: DoubleWord)
    requires st.Valid()
    requires ResolveOperand(st, instr) == Ok(op)
    requires Operate(st, instr, op) == Ok(st1)
    requires CheckedDoubleAdd(st1.pc, op.pcOffset) == Ok(pc)
    ensures Step(st, instr) == Ok(st1.(pc := pc))
  {
  }

  /// `advance_exec` from the opcode and its execution.
  lemma AdvanceExecFrom(st: State, instr: Word, r: State)
    requires st.Valid()
    requires Cpu.Load(st, st.pc) == Ok(instr)
    requires Step(st, instr) == Ok(r)
    ensures AdvanceExec(st) == Ok(r)
  {
  }

  /// AND #$00 sets Z; the result is dropped, so A stays 0.
  lemma FirstInstruction()
    ensures AdvanceExec(Start()) == Ok(Start().(p := Z_BIT, pc := 0x8002))
  {
    var st := Start();
    LoadProgramByte(st, 0);
    LoadProgramByte(st, 1);
    var op := Operand(Some(0), Some(0), 2);
    assert ResolveOperand(st, 0x29) == Ok(op);
    GroupOneAnd(st, op);
    assert FlagsZN(0, 0) == Z_BIT;
    StepFrom(st, 0x29, op, st.(p := Z_BIT), 0x8002);
    AdvanceExecFrom(st, 0x29, st.(p := Z_BIT, pc := 0x8002));
  }

  /// ORA #$01 puts 1 in A and clears Z.
  lemma SecondInstruction()
    ensures AdvanceExec(Start().(p := Z_BIT, pc := 0x8002))
         == Ok(Start().(a := 1, p := 0, pc := 0x8004))
  {
    var st := Start().(p := Z_BIT, pc := 0x8002);
    LoadProgramByte(st, 2);
    LoadProgramByte(st, 3);
    var op := Operand(Some(1), Some(1), 2);
    assert ResolveOperand(st, 0x09) == Ok(op);
    GroupOneOra(st, op);
    assert FlagsZN(Z_BIT, 1) == 0;
    StepFrom(st, 0x09, op, st.(a := 1, p := 0), 0x8004);
    AdvanceExecFrom(st, 0x09, Start().(a := 1, p := 0, pc := 0x8004));
  }

  /// STA $01 stores A in RAM cell 1.
  lemma ThirdInstruction()
    ensures var st := Start().(a := 1, p := 0, pc := 0x8004);
            AdvanceExec(st) == Ok(st.(ram := st.ram[1 := 1], pc := 0x8006))
  {
    var st := Start().(a := 1, p := 0, pc := 0x8004);
    LoadProgramByte(st, 4);
    LoadProgramByte(st, 5);
    var op := Operand(Some(0), Some(1), 2);
    assert ZeropageAddress(st) == Ok(1);
    assert ResolveOperand(st, 0x85) == Ok(op);
    assert RamIndex(1) == 1;
    var st1 := st.(ram := st.ram[1 := 1]);
    assert Operate(st, 0x85, op) == Ok(st1);
    StepFrom(st, 0x85, op, st1, 0x8006);
    AdvanceExecFrom(st, 0x85, st1.(pc := 0x8006));
  }

  /// `run_programm_for(program, 3)` followed by `load(0x01)` gives 1, and
  /// PC has moved past the six bytes.
  lemma RunStoresOne()
    ensures Run(Start(), 3).Ok?
    ensures Cpu.Load(Run(Start(), 3).value, 1) == Ok(1)
    ensures Run(Start(), 3).value.pc == 0x8006
  {
    FirstInstruction();
    SecondInstruction();
    ThirdInstruction();
    var st3 := Start().(a := 1, p := 0, pc := 0x8004);
    var last := st3.(ram := st3.ram[1 := 1], pc := 0x8006);
    assert Run(Start(), 3) == Ok(last);
    assert Cpu.Load(last, 1) == Ok(last.ram[RamIndex(1)]);
    assert RamIndex(1) == 1;
  }

  /// `low_nibble` and `high_nibble` of 0x31 are 1 and 3.
  lemma NibblesOf0x31()
    ensures LowNibble(0x31) == 0x1 && HighNibble(0x31) == 0x3
  {
  }
}
