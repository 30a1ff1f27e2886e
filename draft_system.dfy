/// The draft `System` of `src/main.rs`: the registers as fields updated in
/// place over a flat 64 KiB memory.  Every method is proved against the
/// function of the same name in `DraftCpu`: it either reaches the state that
/// function gives, or stops with the same fault.
module DraftEmulator {
  import opened Outcome
  import opened Words
  import opened Status
  import opened Alu
  import Cpu
  import DraftCpu
  import DraftProperties

  class System {
    var a: Word
    var x: Word
    var y: Word
    var pc: DoubleWord
    var s: Word
    var p: Word
    const mem: array<Word>

    predicate Valid()
    {
      mem.Length == DraftCpu.MEMORY_SIZE
    }

    /// The registers and the memory contents, as the value `DraftCpu` works
    /// on.
    function State(): (st: DraftCpu.State)
      reads this, mem
      requires Valid()
      ensures st.Valid()
    {
      DraftCpu.State(a, x, y, pc, s, p, mem[..])
    }

    /// The outcome `r` of a method that returns nothing agrees with the
    /// outcome the model gives: the same state, or the same fault.
    predicate Reached(r: Result<()>, expected: Result<DraftCpu.State>)
      reads this, mem
      requires Valid()
    {
      match expected
      case Ok(st) => r == Ok(()) && State() == st
      case Err(f) => r == Err(f)
    }

    /// A system over the given memory, every register zero.
    constructor Over(memory: array<Word>)
      requires memory.Length == DraftCpu.MEMORY_SIZE
      ensures Valid() && mem == memory
      ensures State() == DraftCpu.State(0, 0, 0, 0, 0, 0, memory[..])
    {
      a, x, y, pc, s, p := 0, 0, 0, 0, 0, 0;
      mem := memory;
    }

    /// `reset`.
    method Reset()
      requires Valid()
      modifies this
      ensures State() == DraftCpu.Reset(old(State()))
    {
      a := 0;
      x := 0;
      y := 0;
      s := 0;
      p := 0;
      pc := 0;
    }

    // The flag helpers `C`, `set_C`, `clear_C` and their counterparts for Z,
    // I, D, B, V and N.

    /// `C()`, `Z()`, ...: whether the flag's bit of P is set.
    function FlagSet(f: Flag): (b: bool)
      reads this
    {
      IsSet(p, f)
    }

    /// `set_C()`, `set_Z()`, ...
    method SetFlag(f: Flag)
      requires Valid()
      modifies this
      ensures State() == old(State()).(p := Set(old(p), f))
      ensures FlagSet(f)
    {
      p := p | Mask(f);
    }

    /// `clear_C()`, `clear_Z()`, ...
    method ClearFlag(f: Flag)
      requires Valid()
      modifies this
      ensures State() == old(State()).(p := Clear(old(p), f))
      ensures !FlagSet(f)
    {
      p := p & !Mask(f);
    }

    /// `update_flags_zn`: the byte read as an `i8` decides Z and N.
    method UpdateFlagsZN(v: Word)
      requires Valid()
      modifies this
      ensures State() == old(State()).(p := FlagsZN(old(p), v))
    {
      var signed := NativeValueSigned(v);
      if signed < 0 {
        ClearFlag(Zero);
        SetFlag(Negative);
      } else if signed == 0 {
        SetFlag(Zero);
        ClearFlag(Negative);
      } else {
        ClearFlag(Zero);
        ClearFlag(Negative);
      }
    }

    // Memory.

    /// `load`.
    method Load(address: DoubleWord) returns (v: Word)
      requires Valid()
      ensures v == DraftCpu.Load(State(), address)
    {
      v := mem[address as int];
    }

    /// `store`.
    method Store(address: DoubleWord, data: Word)
      requires Valid()
      modifies mem
      ensures State() == DraftCpu.Store(old(State()), address, data)
    {
      ghost var before := State();
      mem[address as int] := data;
      assert mem[..] == before.mem[address as int := data];
      assert State() == before.(mem := mem[..]);
    }

    /// `load_offset`.
    method LoadOffset(address: DoubleWord) returns (off: bv16)
      requires Valid()
      ensures off == DraftCpu.LoadOffset(State(), address)
    {
      var w := Load(address);
      off := AsDoubleWord(w);
    }

    /// `load_doubleword`.
    method LoadDoubleWord(address: DoubleWord) returns (r: Result<DoubleWord>)
      requires Valid()
      ensures r == DraftCpu.LoadDoubleWord(State(), address)
    {
      var lo := Load(address);
      var hiAt :- CheckedDoubleAddWord(address, 1);
      var hi := Load(hiAt);
      r := Ok(FromWords(hi, lo));
    }

    // Stack and program counter.

    /// `push_word`.
    method PushWord(data: Word) returns (r: Result<()>)
      requires Valid()
      modifies this, mem
      ensures Reached(r, DraftCpu.PushWord(old(State()), data))
    {
      Store(AsDoubleWord(s), data);
      var next :- CheckedAdd(s, 1);
      s := next;
      r := Ok(());
    }

    /// `push_doubleword`: low byte at S, high byte at S+1.
    method PushDoubleWord(data: DoubleWord) returns (r: Result<()>)
      requires Valid()
      modifies this, mem
      ensures Reached(r, DraftCpu.PushDoubleWord(old(State()), data))
    {
      var words := ToWords(data);
      var loAt := AsDoubleWord(s);
      Store(loAt, words[0]);
      CheckedDoubleAddWordSum(loAt, 1);
      var hiAt := loAt + 1;
      Store(hiAt, words[1]);
      var next :- CheckedAdd(s, 2);
      s := next;
      r := Ok(());
    }

    /// `pull_word`.
    method PullWord() returns (r: Result<Word>)
      requires Valid()
      modifies this
      ensures match DraftCpu.PullWord(old(State()))
              case Ok(pulled) => r == Ok(pulled.1) && State() == pulled.0
              case Err(f) => r == Err(f)
    {
      var next :- CheckedSub(s, 1);
      s := next;
      var v := Load(AsDoubleWord(s));
      r := Ok(v);
    }

    /// `pull_doubleword`.
    method PullDoubleWord() returns (r: Result<DoubleWord>)
      requires Valid()
      modifies this
      ensures match DraftCpu.PullDoubleWord(old(State()))
              case Ok(pulled) => r == Ok(pulled.1) && State() == pulled.0
              case Err(f) => r == Err(f)
    {
      var next :- CheckedSub(s, 2);
      s := next;
      r := LoadDoubleWord(AsDoubleWord(s));
    }

    /// `advance_pc_1`, `advance_pc_2` and `advance_pc_3`.
    method AdvancePc(n: Word) returns (r: Result<()>)
      requires Valid()
      modifies this
      ensures Reached(r, DraftCpu.AdvancePc(old(State()), n))
    {
      var next :- CheckedDoubleAddWord(pc, n);
      pc := next;
      r := Ok(());
    }

    /// `relative_jump`.
    method RelativeJump() returns (r: Result<()>)
      requires Valid()
      modifies this
      ensures Reached(r, DraftCpu.RelativeJump(old(State())))
    {
      var at :- CheckedDoubleAddWord(pc, 1);
      var offset := LoadOffset(at);
      var next :- CheckedAddI16(pc, offset);
      pc := next;
      r := Ok(());
    }

    /// `branch_on`.
    method BranchOn(cond: bool) returns (r: Result<()>)
      requires Valid()
      modifies this
      ensures Reached(r, DraftCpu.BranchOn(old(State()), cond))
    {
      if cond {
        r := RelativeJump();
      } else {
        r := AdvancePc(2);
      }
    }

    // Comparison and the indirect operands.

    /// `compare(reg)`: the mask for the byte after the opcode ORed into P.
    method Compare(reg: Word) returns (r: Result<()>)
      requires Valid()
      modifies this
      ensures Reached(r, DraftCpu.Compare(old(State()), reg))
    {
      ghost var before := State();
      var next := CheckedDoubleAddWord(pc, 1);
      if next.Err? {
        return Err(next.fault);
      }
      var at := next.value;
      var operand := Load(at);
      var mask := DraftCpu.CompareMask(reg, operand);
      DraftProperties.CompareFrom(before, reg, at, mask);
      p := p | mask;
      assert State() == before.(p := before.p | mask);
      r := Ok(());
    }

    /// `indirect_x`.
    method IndirectX() returns (r: Result<Word>)
      requires Valid()
      ensures r == DraftCpu.IndirectX(State())
    {
      var at :- CheckedDoubleAddWord(pc, 1);
      var addr := Load(DoubleClAddWord(at, x));
      var v := Load(AsDoubleWord(addr));
      r := Ok(v);
    }

    /// `indirect_y`.
    method IndirectY() returns (r: Result<Word>)
      requires Valid()
      ensures r == DraftCpu.IndirectY(State())
    {
      var at :- CheckedDoubleAddWord(pc, 1);
      var addr := Load(at);
      var v := Load(AsDoubleWord(addr));
      r := CheckedAdd(v, y);
    }

    // The nibble-matrix `exec`.

    /// Row 0 of the matrix.
    method RowZero(instr: Word, high: bv8) returns (r: Result<()>)
      requires Valid() && high < 0x10
      modifies this, mem
      ensures Reached(r, DraftCpu.RowZero(old(State()), instr, high))
    {
      if high == 0x2 || high == 0x6 {
        r := SubroutineArm(high);
      } else if DraftCpu.IsBranchColumn(high) {
        r := BranchArm(high);
      } else if high == 0xA || high == 0xC || high == 0xE {
        r := RegisterArm(high);
      } else {
        r := Err(Unimplemented(instr));
      }
    }

    /// JSR and RTS.
    method SubroutineArm(high: bv8) returns (r: Result<()>)
      requires Valid() && (high == 0x2 || high == 0x6)
      modifies this, mem
      ensures Reached(r, DraftCpu.SubroutineArm(old(State()), high))
    {
      if high == 0x2 {
        // JSR
        var pushed :- PushDoubleWord(pc);
        var loAt :- CheckedDoubleAddWord(pc, 1);
        var hiAt :- CheckedDoubleAddWord(pc, 2);
        var lo := Load(loAt);
        var hi := Load(hiAt);
        pc := FromWords(hi, lo);
        r := Ok(());
      } else {
        // RTS
        var target :- PullDoubleWord();
        pc := target;
        r := Ok(());
      }
    }

    /// The conditional branches.
    method BranchArm(high: bv8) returns (r: Result<()>)
      requires Valid() && DraftCpu.IsBranchColumn(high)
      modifies this
      ensures Reached(r, DraftCpu.BranchArm(old(State()), high))
    {
      if high == 0x3 {
        // BMI
        if FlagSet(Negative) {
          r := RelativeJump();
        } else {
          r := AdvancePc(2);
        }
      } else if high == 0x5 {
        // BVC
        if !FlagSet(Overflow) {
          r := Ok(());
        } else {
          r := AdvancePc(2);
        }
      } else if high == 0x7 {
        // BVS
        if FlagSet(Overflow) {
          r := RelativeJump();
        } else {
          r := AdvancePc(2);
        }
      } else if high == 0x9 {
        r := BranchOn(!FlagSet(Carry));
      } else if high == 0xB {
        r := BranchOn(FlagSet(Carry));
      } else if high == 0xD {
        r := BranchOn(!FlagSet(Zero));
      } else {
        r := BranchOn(FlagSet(Zero));
      }
    }

    /// LDY #, CPY # and CPX #.
    method RegisterArm(high: bv8) returns (r: Result<()>)
      requires Valid() && (high == 0xA || high == 0xC || high == 0xE)
      modifies this
      ensures Reached(r, DraftCpu.RegisterArm(old(State()), high))
    {
      if high == 0xA {
        // LDY #
        var at :- CheckedDoubleAddWord(pc, 1);
        var addr := Load(at);
        y := Load(AsDoubleWord(addr));
        r := Ok(());
      } else {
        var compared :- Compare(if high == 0xC then y else x);
        r := AdvancePc(2);
      }
    }

    /// The operand of a row 1 arm.
    method IndirectOperand(high: bv8) returns (r: Result<Word>)
      requires Valid()
      ensures r == DraftCpu.IndirectOperand(State(), high)
    {
      if high % 2 == 0 {
        r := IndirectX();
      } else {
        r := IndirectY();
      }
    }

    /// The new A of a row 1 arm, written back.
    method CombineIntoA(v: Word, high: bv8)
      requires Valid()
      modifies this
      ensures State() == old(State()).(a := DraftCpu.RowOneResult(old(a), v, high))
    {
      if high < 2 {
        a := a | v;
      } else if high < 4 {
        a := a & v;
      } else {
        a := a ^ v;
      }
    }

    /// Row 1 of the matrix: ORA, AND, EOR with (ind,X) and (ind),Y.
    method RowOne(instr: Word, high: bv8) returns (r: Result<()>)
      requires Valid() && high < 0x10
      modifies this
      ensures Reached(r, DraftCpu.RowOne(old(State()), instr, high))
    {
      if high >= 6 {
        return Err(Unimplemented(instr));
      }
      var v :- IndirectOperand(high);
      CombineIntoA(v, high);
      UpdateFlagsZN(a);
      r := AdvancePc(2);
    }

    /// `exec` once the row and column are known.
    method Dispatch(instr: Word, low: bv8, high: bv8) returns (r: Result<()>)
      requires Valid() && high < 0x10
      modifies this, mem
      ensures Reached(r, DraftCpu.Dispatch(old(State()), instr, low, high))
    {
      if low == 0 {
        r := RowZero(instr, high);
      } else if low == 1 {
        r := RowOne(instr, high);
      } else if low < 0x10 {
        r := Err(Unimplemented(instr));
      } else {
        r := Err(NibbleOutOfRange(instr));
      }
    }

    /// `exec` as written: the row is the whole byte.
    method ExecAsWritten(instr: Word) returns (r: Result<()>)
      requires Valid()
      modifies this, mem
      ensures Reached(r, DraftCpu.ExecAsWritten(old(State()), instr))
    {
      r := Dispatch(instr, DraftCpu.LowNibbleAsWritten(instr), Cpu.HighNibble(instr));
    }

    /// `exec` with the row taken from the low four bits.
    method Exec(instr: Word) returns (r: Result<()>)
      requires Valid()
      modifies this, mem
      ensures Reached(r, DraftCpu.Exec(old(State()), instr))
    {
      r := Dispatch(instr, Cpu.LowNibble(instr), Cpu.HighNibble(instr));
    }

    /// `advance_exec`: the opcode at PC, executed.
    method AdvanceExec() returns (r: Result<()>)
      requires Valid()
      modifies this, mem
      ensures Reached(r, DraftCpu.Exec(old(State()), DraftCpu.Load(old(State()), old(pc))))
    {
      var instr := Load(pc);
      r := Exec(instr);
    }
  }
}
