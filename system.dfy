/// `System<FamicomMemory>`: the CPU registers as fields updated in place,
/// over the memory objects of the bus.  Every method is proved against the
/// function of the same name in `Cpu`: it either reaches the state that
/// function gives, or stops with the same fault (a panic in the Rust code,
/// after which the state no longer matters).
module Emulator {
  import opened Outcome
  import opened Words
  import opened Status
  import opened Alu
  import opened Bus
  import Cpu

  class System {
    var a: Word
    var x: Word
    var y: Word
    var pc: DoubleWord
    var s: Word
    var p: Word
    const mem: FamicomMemory

    predicate Valid()
    {
      mem.Valid()
    }

    /// The registers and the memory contents, as the value `Cpu` works on.
    function State(): (st: Cpu.State)
      reads this, mem.internalRam.data, mem.cart.program
      requires Valid()
      ensures st.Valid()
    {
      Cpu.State(a, x, y, pc, s, p, mem.RamContents(), mem.CartContents())
    }

    /// The outcome `r` of a method that returns nothing agrees with the
    /// outcome the model gives: the same state, or the same fault.
    predicate Reached(r: Result<()>, expected: Result<Cpu.State>)
      reads this, mem.internalRam.data, mem.cart.program
      requires Valid()
    {
      match expected
      case Ok(st) => r == Ok(()) && State() == st
      case Err(f) => r == Err(f)
    }

    /// `System::new_resetted`: every register zero, over a reset memory.
    constructor NewResetted()
      ensures Valid() && fresh(mem.internalRam.data) && fresh(mem.cart.program)
      ensures State() == Cpu.State(0, 0, 0, 0, 0, 0, Zeroes(RAM_SIZE_BYTES), Zeroes(CART_SIZE_BYTES))
    {
      a, x, y, pc, s, p := 0, 0, 0, 0, 0, 0;
      mem := new FamicomMemory.NewResetted();
    }

    /// `System::reset`.
    method Reset()
      requires Valid()
      modifies this
      ensures State() == Cpu.Reset(old(State()))
    {
      a := 0;
      x := 0;
      y := 0;
      s := 0;
      p := 0;
      pc := 0;
    }

    // The flag accessors `C`, `set_C`, `clear_C`, `update_C` and their
    // counterparts for Z, I, D, B, V and N, one method per kind of access.

    /// `C()`, `Z()`, ...: whether the flag's bit of P is set.
    function FlagSet(f: Flag): (b: bool)
      reads this
    {
      IsSet(p, f)
    }

    /// `set_C()`, `set_Z()`, ...
    method SetFlag(f: Flag)
      requires Valid()
      modifies this
      ensures State() == old(State()).(p := Set(old(p), f))
      ensures FlagSet(f)
    {
      p := p | Mask(f);
    }

    /// `clear_C()`, `clear_Z()`, ...
    method ClearFlag(f: Flag)
      requires Valid()
      modifies this
      ensures State() == old(State()).(p := Clear(old(p), f))
      ensures !FlagSet(f)
    {
      p := p & !Mask(f);
    }

    /// `update_C(val)`, `update_Z(val)`, ...
    method UpdateFlag(f: Flag, value: bool)
      requires Valid()
      modifies this
      ensures State() == old(State()).(p := Update(old(p), f, value))
      ensures FlagSet(f) == value
    {
      if value {
        SetFlag(f);
      } else {
        ClearFlag(f);
      }
    }

    /// `update_flags_zn`: the byte read as an `i8` decides Z and N.
    method UpdateFlagsZN(v: Word)
      requires Valid()
      modifies this
      ensures State() == old(State()).(p := FlagsZN(old(p), v))
    {
      var signed := NativeValueSigned(v);
      if signed < 0 {
        ClearFlag(Zero);
        SetFlag(Negative);
      } else if signed == 0 {
        SetFlag(Zero);
        ClearFlag(Negative);
      } else {
        ClearFlag(Zero);
        ClearFlag(Negative);
      }
    }

    // The arithmetic and logic helpers.

    /// `compare`: a wrapping byte subtraction; V from its borrow, Z/N from
    /// its result.
    method Compare(lhs: Word, rhs: Word)
      requires Valid()
      modifies this
      ensures State() == old(State()).(p := CompareFlags(old(p), lhs, rhs))
    {
      var res, didOverflow := lhs - rhs, lhs < rhs;
      UpdateFlag(Overflow, didOverflow);
      UpdateFlagsZN(res);
    }

    /// `or`.
    method Or(lhs: Word, rhs: Word) returns (ret: Word)
      requires Valid()
      modifies this
      ensures (ret, p) == Alu.Or(old(p), lhs, rhs)
      ensures State() == old(State()).(p := p)
    {
      ret := lhs | rhs;
      UpdateFlagsZN(ret);
    }

    /// `and`.
    method And(lhs: Word, rhs: Word) returns (ret: Word)
      requires Valid()
      modifies this
      ensures (ret, p) == Alu.And(old(p), lhs, rhs)
      ensures State() == old(State()).(p := p)
    {
      ret := lhs & rhs;
      UpdateFlagsZN(ret);
    }

    /// `eor` (and `xor`, which calls it).
    method Eor(lhs: Word, rhs: Word) returns (ret: Word)
      requires Valid()
      modifies this
      ensures (ret, p) == Alu.Eor(old(p), lhs, rhs)
      ensures State() == old(State()).(p := p)
    {
      ret := lhs ^ rhs;
      UpdateFlagsZN(ret);
    }

    /// `op_carry`: C plus or minus the operand, then plus or minus A, as
    /// `i16` steps; C from bit 8, V from either step, Z/N from the low byte.
    method OpCarry(val: Word, mode: AddSubMode) returns (ret: Word)
      requires Valid()
      modifies this
      ensures (ret, p) == Alu.OpCarry(old(p), old(a), val, mode)
      ensures State() == old(State()).(p := p)
    {
      var c := CarryIn(p);
      var m: I16 := NativeValueSigned(val);
      var acc: I16 := NativeValueSigned(a);
      var (res2, didOverflow) := OpCarrySteps(c, m, acc, mode);
      UpdateFlag(Carry, I16Bit8(res2));
      UpdateFlag(Overflow, didOverflow);
      ret := WordFromI16(res2);
      UpdateFlagsZN(ret);
    }

    /// `adc` (and `add_carry`, which calls it).
    method Adc(val: Word) returns (ret: Word)
      requires Valid()
      modifies this
      ensures (ret, p) == Alu.OpCarry(old(p), old(a), val, Add)
      ensures State() == old(State()).(p := p)
    {
      ret := OpCarry(val, Add);
    }

    /// `sbc` (and `sub_carry`, which calls it).
    method Sbc(val: Word) returns (ret: Word)
      requires Valid()
      modifies this
      ensures (ret, p) == Alu.OpCarry(old(p), old(a), val, Sub)
      ensures State() == old(State()).(p := p)
    {
      ret := OpCarry(val, Sub);
    }

    /// `asl`: Z/N from the result, then C from the bit shifted out.
    method Asl(val: Word) returns (ret: Word)
      requires Valid()
      modifies this
      ensures (ret, p) == Alu.Asl(old(p), val)
      ensures State() == old(State()).(p := p)
    {
      var carry;
      ret, carry := (val << 1), val >= 0x80;
      UpdateFlagsZN(ret);
      UpdateFlag(Carry, carry);
    }

    /// `lsr`.
    method Lsr(val: Word) returns (ret: Word)
      requires Valid()
      modifies this
      ensures (ret, p) == Alu.Lsr(old(p), val)
      ensures State() == old(State()).(p := p)
    {
      var carry;
      ret, carry := (val >> 1), val & 1 == 1;
      UpdateFlagsZN(ret);
      UpdateFlag(Carry, carry);
    }

    /// `rol`: C from the bit rotated out, then Z/N from the result.
    method Rol(val: Word) returns (ret: Word)
      requires Valid()
      modifies this
      ensures (ret, p) == Alu.Rol(old(p), val)
      ensures State() == old(State()).(p := p)
    {
      var carry;
      ret, carry := RotateLeftCarry(val, FlagSet(Carry)).0, val >= 0x80;
      UpdateFlag(Carry, carry);
      UpdateFlagsZN(ret);
    }

    /// `ror`.
    method Ror(val: Word) returns (ret: Word)
      requires Valid()
      modifies this
      ensures (ret, p) == Alu.Ror(old(p), val)
      ensures State() == old(State()).(p := p)
    {
      var carry;
      ret, carry := RotateRightCarry(val, FlagSet(Carry)).0, val & 1 == 1;
      UpdateFlag(Carry, carry);
      UpdateFlagsZN(ret);
    }

    // Memory.

    /// `System::load`.
    method Load(address: DoubleWord) returns (r: Result<Word>)
      requires Valid()
      modifies mem.internalRam.data
      ensures State() == old(State())
      ensures r == Cpu.Load(State(), address)
    {
      r := mem.Load(address);
    }

    /// `System::store`.
    method Store(address: DoubleWord, data: Word) returns (r: Result<()>)
      requires Valid()
      modifies mem.internalRam.data
      ensures Reached(r, Cpu.Store(old(State()), address, data))
    {
      r := mem.Store(address, data);
    }

    /// A load from the internal RAM or its mirrors never faults.
    method LoadRam(address: DoubleWord) returns (w: Word)
      requires Valid() && address < 0x2000
      modifies mem.internalRam.data
      ensures State() == old(State())
      ensures Cpu.Load(State(), address) == Ok(w)
    {
      var r := Load(address);
      w := r.value;
    }

    /// A store to the internal RAM or its mirrors never faults.
    method StoreRam(address: DoubleWord, data: Word)
      requires Valid() && address < 0x2000
      modifies mem.internalRam.data
      ensures Cpu.Store(old(State()), address, data) == Ok(State())
    {
      var r := Store(address, data);
    }

    /// `load_offset`.
    method LoadOffset(address: DoubleWord) returns (r: Result<bv16>)
      requires Valid()
      modifies mem.internalRam.data
      ensures State() == old(State())
      ensures r == Cpu.LoadOffset(State(), address)
    {
      var w :- Load(address);
      r := Ok(AsDoubleWord(w));
    }

    /// `load_doubleword`.
    method LoadDoubleWord(address: DoubleWord) returns (r: Result<DoubleWord>)
      requires Valid()
      modifies mem.internalRam.data
      ensures State() == old(State())
      ensures r == Cpu.LoadDoubleWord(State(), address)
    {
      var lo :- Load(address);
      var hiAt :- CheckedDoubleAddWord(address, 1);
      var hi :- Load(hiAt);
      r := Ok(FromWords(hi, lo));
    }

    // Operand and address helpers.

    /// `immediate_value`.
    method ImmediateValue() returns (r: Result<Word>)
      requires Valid()
      modifies mem.internalRam.data
      ensures State() == old(State())
      ensures r == Cpu.ImmediateValue(State())
    {
      var at :- CheckedDoubleAddWord(pc, 1);
      r := Load(at);
    }

    /// `immediate_address`.
    method ImmediateAddress() returns (r: Result<DoubleWord>)
      requires Valid()
      modifies mem.internalRam.data
      ensures State() == old(State())
      ensures r == Cpu.ImmediateAddress(State())
    {
      var at :- CheckedDoubleAddWord(pc, 1);
      var w :- Load(at);
      r := Ok(AsDoubleWord(w));
    }

    /// `absolute_address`: the high byte first.
    method AbsoluteAddress() returns (r: Result<DoubleWord>)
      requires Valid()
      modifies mem.internalRam.data
      ensures State() == old(State())
      ensures r == Cpu.AbsoluteAddress(State())
    {
      var loAt :- CheckedDoubleAdd(pc, 1);
      var hiAt :- CheckedDoubleAdd(pc, 2);
      var hi :- Load(hiAt);
      var lo :- Load(loAt);
      r := Ok(FromWords(hi, lo));
    }

    /// `absolute_value`.
    method AbsoluteValue() returns (r: Result<Word>)
      requires Valid()
      modifies mem.internalRam.data
      ensures State() == old(State())
      ensures r == Cpu.AbsoluteValue(State())
    {
      var address :- AbsoluteAddress();
      r := Load(address);
    }

    /// `indirect_address`: the same two loads as `absolute_address`.
    method IndirectAddress() returns (r: Result<DoubleWord>)
      requires Valid()
      modifies mem.internalRam.data
      ensures State() == old(State())
      ensures r == Cpu.IndirectAddress(State())
    {
      var loAt :- CheckedDoubleAdd(pc, 1);
      var hiAt :- CheckedDoubleAdd(pc, 2);
      var hi :- Load(hiAt);
      var lo :- Load(loAt);
      r := Ok(FromWords(hi, lo));
    }

    /// `indirect_value`.
    method IndirectValue() returns (r: Result<Word>)
      requires Valid()
      modifies mem.internalRam.data
      ensures State() == old(State())
      ensures r == Cpu.IndirectValue(State())
    {
      var address :- IndirectAddress();
      r := Load(address);
    }

    /// `indirect_address_x`.
    method IndirectAddressX() returns (r: Result<DoubleWord>)
      requires Valid()
      modifies mem.internalRam.data
      ensures State() == old(State())
      ensures r == Cpu.IndirectAddressX(State())
    {
      var imm :- ImmediateValue();
      r := Ok(AsDoubleWord(ClAdd(imm, x)));
    }

    /// `indirect_value_x`.
    method IndirectValueX() returns (r: Result<Word>)
      requires Valid()
      modifies mem.internalRam.data
      ensures State() == old(State())
      ensures r == Cpu.IndirectValueX(State())
    {
      var address :- IndirectAddressX();
      r := Load(address);
    }

    /// `indirect_value_y`.
    method IndirectValueY() returns (r: Result<Word>)
      requires Valid()
      modifies mem.internalRam.data
      ensures State() == old(State())
      ensures r == Cpu.IndirectValueY(State())
    {
      var zp :- ImmediateValue();
      var v := LoadRam(AsDoubleWord(zp));
      r := CheckedAdd(v, y);
    }

    /// `zeropage_address`.
    method ZeropageAddress() returns (r: Result<DoubleWord>)
      requires Valid()
      modifies mem.internalRam.data
      ensures State() == old(State())
      ensures r == Cpu.ZeropageAddress(State())
    {
      var w :- ImmediateValue();
      r := Ok(AsDoubleWord(w));
    }

    /// `zeropage_address_x`.
    method ZeropageAddressX() returns (r: Result<DoubleWord>)
      requires Valid()
      modifies mem.internalRam.data
      ensures State() == old(State())
      ensures r == Cpu.ZeropageAddressX(State())
    {
      var zp :- ZeropageAddress();
      r := CheckedDoubleAdd(zp, AsDoubleWord(x));
    }

    /// `zeropage_address_y`: X again, as in the source.
    method ZeropageAddressY() returns (r: Result<DoubleWord>)
      requires Valid()
      modifies mem.internalRam.data
      ensures State() == old(State())
      ensures r == Cpu.ZeropageAddressY(State())
    {
      var zp :- ZeropageAddress();
      r := CheckedDoubleAdd(zp, AsDoubleWord(x));
    }

    /// `zeropage_value`.
    method ZeropageValue() returns (r: Result<Word>)
      requires Valid()
      modifies mem.internalRam.data
      ensures State() == old(State())
      ensures r == Cpu.ZeropageValue(State())
    {
      var address :- ZeropageAddress();
      r := Load(address);
    }

    /// `zeropage_value_x`.
    method ZeropageValueX() returns (r: Result<Word>)
      requires Valid()
      modifies mem.internalRam.data
      ensures State() == old(State())
      ensures r == Cpu.ZeropageValueX(State())
    {
      var address :- ZeropageAddressX();
      r := Load(address);
    }

    /// `zeropage_value_y`.
    method ZeropageValueY() returns (r: Result<Word>)
      requires Valid()
      modifies mem.internalRam.data
      ensures State() == old(State())
      ensures r == Cpu.ZeropageValueY(State())
    {
      var address :- ZeropageAddressY();
      r := Load(address);
    }

    // Stack and program counter.

    /// `push_word`.
    method PushWord(data: Word) returns (r: Result<()>)
      requires Valid()
      modifies this, mem.internalRam.data
      ensures Reached(r, Cpu.PushWord(old(State()), data))
    {
      StoreRam(AsDoubleWord(s), data);
      var next :- CheckedAdd(s, 1);
      s := next;
      r := Ok(());
    }

    /// `push_doubleword`: low byte, then high byte.
    method PushDoubleWord(data: DoubleWord) returns (r: Result<()>)
      requires Valid()
      modifies this, mem.internalRam.data
      ensures Reached(r, Cpu.PushDoubleWord(old(State()), data))
    {
      var words := ToWords(data);
      StoreRam(AsDoubleWord(s), words[0]);
      CheckedDoubleAddWordSum(AsDoubleWord(s), 1);
      var hiAt := AsDoubleWord(s) + 1;
      StoreRam(hiAt, words[1]);
      var next :- CheckedAdd(s, 2);
      s := next;
      r := Ok(());
    }

    /// `pull_word`.
    method PullWord() returns (r: Result<Word>)
      requires Valid()
      modifies this, mem.internalRam.data
      ensures match Cpu.PullWord(old(State()))
              case Ok(pulled) => r == Ok(pulled.1) && State() == pulled.0
              case Err(f) => r == Err(f)
    {
      var next :- CheckedSub(s, 1);
      s := next;
      r := Load(AsDoubleWord(s));
    }

    /// `pull_doubleword`.
    method PullDoubleWord() returns (r: Result<DoubleWord>)
      requires Valid()
      modifies this, mem.internalRam.data
      ensures match Cpu.PullDoubleWord(old(State()))
              case Ok(pulled) => r == Ok(pulled.1) && State() == pulled.0
              case Err(f) => r == Err(f)
    {
      var next :- CheckedSub(s, 2);
      s := next;
      r := LoadDoubleWord(AsDoubleWord(s));
    }

    /// `advance_pc_1`, `advance_pc_2` and `advance_pc_3`.
    method AdvancePc(n: Word) returns (r: Result<()>)
      requires Valid()
      modifies this
      ensures Reached(r, Cpu.AdvancePc(old(State()), n))
    {
      var next :- CheckedDoubleAddWord(pc, n);
      pc := next;
      r := Ok(());
    }

    /// `relative_jump`.
    method RelativeJump() returns (r: Result<()>)
      requires Valid()
      modifies this, mem.internalRam.data
      ensures Reached(r, Cpu.RelativeJump(old(State())))
    {
      var at :- CheckedDoubleAddWord(pc, 1);
      var offset :- LoadOffset(at);
      var next :- CheckedAddI16(pc, offset);
      pc := next;
      r := Ok(());
    }

    /// `branch_on`.
    method BranchOn(cond: bool) returns (r: Result<()>)
      requires Valid()
      modifies this, mem.internalRam.data
      ensures Reached(r, Cpu.BranchOn(old(State()), cond))
    {
      if cond {
        r := RelativeJump();
      } else {
        r := AdvancePc(2);
      }
    }

    // The decoder.

    /// The first `match` of `alternate_exec`: the `operand`, `address` and
    /// `pc_offset` locals, filled in by bbb, then cc and aaa.
    method ResolveOperand(instr: Word) returns (r: Result<Cpu.Operand>)
      requires Valid()
      modifies mem.internalRam.data
      ensures State() == old(State())
      ensures r == Cpu.ResolveOperand(State(), instr)
    {
      var operand: Option<Word> := None;
      var address: Option<DoubleWord> := None;
      var pcOffset: DoubleWord := 0;
      var aaa, bbb, cc := Aaa(instr), Bbb(instr), Cc(instr);
      if bbb == 0 {
        if cc == 0 {
          if aaa == 1 {
            var at :- AbsoluteAddress();
            var v :- Load(at);
            operand, address, pcOffset := Some(v), Some(at), pcOffset + 3;
          } else if aaa >= 5 {
            var v :- ImmediateValue();
            var at := AsDoubleWord(v);
            operand, address, pcOffset := Some(v), Some(at), pcOffset + 2;
          }
        } else if cc == 1 {
          var at :- IndirectAddressX();
          var v := LoadRam(at);
          operand, address, pcOffset := Some(v), Some(at), pcOffset + 3;
        } else if cc == 2 {
          if aaa == 5 {
            var v :- ImmediateValue();
            var at := AsDoubleWord(v);
            operand, address, pcOffset := Some(v), Some(at), pcOffset + 2;
          }
        } else {
          return Err(Unimplemented(instr));
        }
      } else if bbb == 1 {
        var at :- ZeropageAddress();
        var v := LoadRam(at);
        operand, address, pcOffset := Some(v), Some(at), pcOffset + 2;
      } else if bbb == 2 {
        if cc == 1 {
          var v :- ImmediateValue();
          var at := AsDoubleWord(v);
          operand, address, pcOffset := Some(v), Some(at), pcOffset + 2;
        }
      } else if bbb == 3 {
        if aaa == 2 && cc == 0 {
          var at :- IndirectAddress();
          var v :- Load(at);
          operand, address, pcOffset := Some(v), Some(at), pcOffset + 3;
        } else {
          var at :- AbsoluteAddress();
          var v :- Load(at);
          operand, address, pcOffset := Some(v), Some(at), pcOffset + 3;
        }
      } else if bbb == 4 {
        if cc == 1 {
          var at :- IndirectAddressX();
          var v := LoadRam(at);
          return Err(Unimplemented(instr));
        }
      } else {
        return Err(Unimplemented(instr));
      }
      r := Ok(Cpu.Operand(operand, address, pcOffset));
    }

    /// The cc=1 arm of the second `match`: ORA, AND, EOR, ADC, STA, LDA,
    /// CMP, SBC by aaa.
    method GroupOne(aaa: bv8, op: Cpu.Operand) returns (r: Result<()>)
      requires Valid()
      modifies this, mem.internalRam.data
      ensures Reached(r, Cpu.GroupOne(old(State()), aaa, op))
    {
      if aaa == 4 {
        var at :- Cpu.Unwrap(op.address);
        r := Store(at, a);
        return;
      }
      var v :- Cpu.Unwrap(op.value);
      if aaa == 0 {
        a := Or(a, v);
      } else if aaa == 1 {
        var discarded := And(a, v);
      } else if aaa == 2 {
        var discarded := Eor(a, v);
      } else if aaa == 3 {
        var discarded := Adc(v);
      } else if aaa == 5 {
        a := v;
      } else if aaa == 6 {
        Compare(a, v);
      } else {
        var discarded := Sbc(v);
      }
      r := Ok(());
    }

    /// The second `match` of `alternate_exec`, on cc, then aaa and bbb.
    method Operate(instr: Word, op: Cpu.Operand) returns (r: Result<()>)
      requires Valid()
      modifies this, mem.internalRam.data
      ensures Reached(r, Cpu.Operate(old(State()), instr, op))
    {
      var aaa, bbb, cc := Aaa(instr), Bbb(instr), Cc(instr);
      if cc == 1 {
        r := GroupOne(aaa, op);
      } else if cc == 2 && aaa == 4 && (bbb == 1 || bbb == 3 || bbb == 5 || bbb == 6) {
        // STX and TXS: empty arms.
        r := Ok(());
      } else if cc == 2 && aaa == 5 && (bbb == 0 || bbb == 1 || bbb == 3 || bbb == 5 || bbb == 7) {
        // LDX
        var v :- Cpu.Unwrap(op.value);
        x := v;
        r := Ok(());
      } else {
        r := Err(Unimplemented(instr));
      }
    }

    /// `alternate_exec`: the operand stage, the operation, then PC plus
    /// `pc_offset`.
    method AlternateExec(instr: Word) returns (r: Result<()>)
      requires Valid()
      modifies this, mem.internalRam.data
      ensures Reached(r, Cpu.Step(old(State()), instr))
    {
      var op :- ResolveOperand(instr);
      var done :- Operate(instr, op);
      var next :- CheckedDoubleAdd(pc, op.pcOffset);
      pc := next;
      r := Ok(());
    }

    /// `advance_exec`: the opcode at PC, executed.
    method AdvanceExec() returns (r: Result<()>)
      requires Valid()
      modifies this, mem.internalRam.data
      ensures Reached(r, Cpu.AdvanceExec(old(State())))
    {
      var instr :- Load(pc);
      r := AlternateExec(instr);
    }

    /// `run_programm_for`: the program goes into the cartridge, then
    /// `count` instructions run.
    method RunProgrammFor(stream: seq<Word>, count: nat) returns (r: Result<()>)
      requires Valid() && |stream| <= CART_SIZE_BYTES
      modifies this, mem.internalRam.data, mem.cart.program
      ensures Reached(r, Cpu.Run(old(State()).(cart := Pushed(old(State()).cart, stream)), count))
    {
      ghost var initial := old(State());
      mem.PushProgram(stream);
      assert State() == initial.(cart := Pushed(initial.cart, stream));
      r := RunInstructions(count);
    }

    /// The loop of `run_programm_for`: `count` calls of `advance_exec`,
    /// stopping at the first panic.
    method RunInstructions(count: nat) returns (r: Result<()>)
      requires Valid()
      modifies this, mem.internalRam.data
      ensures Reached(r, Cpu.Run(old(State()), count))
    {
      ghost var start := State();
      ghost var left := count;
      var i := 0;
      while i < count
        invariant 0 <= i <= count && left == count - i && Valid()
        invariant Cpu.Run(start, count) == Cpu.Run(State(), left)
      {
        var done := AdvanceOne(left);
        if done.Err? {
          assert Cpu.Run(start, count) == Err(done.fault);
          return Err(done.fault);
        }
        left := left - 1;
        i := i + 1;
      }
      assert Cpu.Run(start, count) == Ok(State());
      r := Ok(());
    }

    /// One `advance_exec` of a run that has `left` instructions to go: the
    /// rest of the run continues from the new state, or the run stops with
    /// its panic.
    method AdvanceOne(ghost left: nat) returns (r: Result<()>)
      requires Valid() && left > 0
      modifies this, mem.internalRam.data
      ensures r.Ok? ==> Cpu.Run(old(State()), left) == Cpu.Run(State(), left - 1)
      ensures r.Err? ==> Cpu.Run(old(State()), left) == Err(r.fault)
    {
      ghost var before := State();
      r := AdvanceExec();
      if r.Err? {
        Cpu.RunStopsAt(before, r.fault, left);
      } else {
        Cpu.RunGoesOn(before, State(), left);
      }
    }
  }
}
