/// What `alternate_exec`, the stack and the PC helpers of `System` promise,
/// proved about the functions of module `Cpu`.
module CpuProperties {
  import opened Outcome
  import opened Words
  import opened Status
  import opened Alu
  import opened Bus
  import opened Cpu

  // The decoder.

  /// The `pc_offset` that the operand stage settles on, read off the
  /// bbb/cc/aaa table: 3 for absolute, indirect and (ind,X) forms, 2 for
  /// immediate and zero page, 0 where no operand is fetched.
  function PcOffset(instr: Word): DoubleWord
  {
    var aaa, bbb, cc := Aaa(instr), Bbb(instr), Cc(instr);
    if bbb == 0 then
      if cc == 0 then (if aaa == 1 then 3 else if aaa >= 5 then 2 else 0)
      else if cc == 1 then 3
      else if cc == 2 && aaa == 5 then 2
      else 0
    else if bbb == 1 then 2
    else if bbb == 2 then (if cc == 1 then 2 else 0)
    else if bbb == 3 then 3
    else 0
  }

  /// The opcodes whose arms in both stages of `alternate_exec` do
  /// something other than `unimplemented!()`: the cc=1 group with bbb 0-3,
  /// and STX (bbb 1, 3) and LDX (bbb 0, 1, 3) in the cc=2 group.
  predicate Implemented(instr: Word)
  {
    var aaa, bbb, cc := Aaa(instr), Bbb(instr), Cc(instr);
    (cc == 1 && bbb < 4)
    || (cc == 2 && aaa == 4 && (bbb == 1 || bbb == 3))
    || (cc == 2 && aaa == 5 && (bbb == 0 || bbb == 1 || bbb == 3))
  }

  /// The operand stage fixes `pc_offset` by the table alone, and it fetches
  /// an operand and an address exactly when that offset is not 0.
  lemma {:induction false} ResolveOperandOffset(st: State, instr: Word)
    requires st.Valid()
    requires ResolveOperand(st, instr).Ok?
    ensures ResolveOperand(st, instr).value.pcOffset == PcOffset(instr)
    ensures ResolveOperand(st, instr).value.value.Some? <==> PcOffset(instr) != 0
    ensures ResolveOperand(st, instr).value.address.Some? <==> PcOffset(instr) != 0
    ensures Bbb(instr) < 4 || (Bbb(instr) == 4 && Cc(instr) != 1)
  {
  }

  /// A successful `alternate_exec` adds exactly its `pc_offset`, which is 2
  /// or 3, to PC, without overflow (`CheckedDoubleAddExact` turns that into
  /// the exact sum).
  lemma {:induction false} StepAdvancesPc(st: State, instr: Word)
    requires st.Valid()
    requires Step(st, instr).Ok?
    ensures PcOffset(instr) == 2 || PcOffset(instr) == 3
    ensures CheckedDoubleAdd(st.pc, PcOffset(instr)) == Ok(Step(st, instr).value.pc)
  {
    ResolveOperandOffset(st, instr);
    StepOnlyImplemented(st, instr);
    ImplementedOffset(instr);
    StepParts(st, instr);
  }

  /// `alternate_exec` in its three parts.
  lemma StepParts(st: State, instr: Word)
    requires st.Valid()
    requires Step(st, instr).Ok?
    ensures ResolveOperand(st, instr).Ok?
    ensures Operate(st, instr, ResolveOperand(st, instr).value).Ok?
    ensures CheckedDoubleAdd(st.pc, ResolveOperand(st, instr).value.pcOffset) == Ok(Step(st, instr).value.pc)
    ensures Step(st, instr).value
         == Operate(st, instr, ResolveOperand(st, instr).value).value.(pc := Step(st, instr).value.pc)
  {
  }

  /// Every implemented opcode fetches an operand.
  lemma ImplementedOffset(instr: Word)
    requires Implemented(instr)
    ensures PcOffset(instr) == 2 || PcOffset(instr) == 3
  {
  }

  /// Only the implemented opcodes can succeed.
  lemma {:induction false} StepOnlyImplemented(st: State, instr: Word)
    requires st.Valid()
    ensures Step(st, instr).Ok? ==> Implemented(instr)
  {
  }

  /// A panic from the memory map or from an unchecked addition.
  predicate MemoryFault(f: Fault)
  {
    f.ArithmeticOverflow? || f.UnmappedLoad? || f.UnmappedAddress? || f.RomWrite?
  }

  /// How `alternate_exec` can panic: an implemented opcode only through
  /// memory or an addition, any other one also through
  /// `unimplemented!()`; the `unwrap` calls never fail.
  lemma {:induction false} StepFaults(st: State, instr: Word)
    requires st.Valid()
    requires Step(st, instr).Err?
    ensures Implemented(instr) ==> MemoryFault(Step(st, instr).fault)
    ensures !Implemented(instr)
            ==> Step(st, instr).fault == Unimplemented(instr) || MemoryFault(Step(st, instr).fault)
  {
    var r := ResolveOperand(st, instr);
    if r.Err? {
      ResolveFaults(st, instr);
    } else {
      ResolveOperandOffset(st, instr);
      var o := Operate(st, instr, r.value);
      if o.Err? {
        OperateFaults(st, instr, r.value);
      }
    }
  }

  /// The operand stage fails through memory, or on an opcode it has no arm
  /// for.
  lemma ResolveFaults(st: State, instr: Word)
    requires st.Valid()
    requires ResolveOperand(st, instr).Err?
    ensures MemoryFault(ResolveOperand(st, instr).fault)
            || (ResolveOperand(st, instr).fault == Unimplemented(instr) && !Implemented(instr))
  {
  }

  /// The operation stage, given what the operand stage fetched, fails
  /// through memory, or on an opcode it has no arm for.
  lemma OperateFaults(st: State, instr: Word, op: Operand)
    requires st.Valid()
    requires op.value.Some? <==> PcOffset(instr) != 0
    requires op.address.Some? <==> PcOffset(instr) != 0
    requires Bbb(instr) < 4 || (Bbb(instr) == 4 && Cc(instr) != 1)
    requires Operate(st, instr, op).Err?
    ensures MemoryFault(Operate(st, instr, op).fault)
            || (Operate(st, instr, op).fault == Unimplemented(instr) && !Implemented(instr))
  {
  }

  // What each implemented operation does to the registers and memory.

  /// The byte the operand stage fetched, if any.
  function OperandOf(st: State, instr: Word): Option<Word>
    requires st.Valid()
  {
    match ResolveOperand(st, instr)
    case Ok(op) => op.value
    case Err(_) => None
  }

  /// A successful cc=1 instruction is `GroupOne` on a fetched operand and
  /// address, with PC advanced.
  lemma StepGroupOneParts(st: State, instr: Word)
    requires st.Valid()
    requires Step(st, instr).Ok? && Cc(instr) == 1
    ensures ResolveOperand(st, instr).Ok?
    ensures OperandOf(st, instr).Some? && ResolveOperand(st, instr).value.address.Some?
    ensures GroupOne(st, Aaa(instr), ResolveOperand(st, instr).value).Ok?
    ensures Step(st, instr).value
         == GroupOne(st, Aaa(instr), ResolveOperand(st, instr).value).value.(pc := Step(st, instr).value.pc)
  {
    StepParts(st, instr);
    ResolveOperandOffset(st, instr);
    StepOnlyImplemented(st, instr);
    ImplementedOffset(instr);
  }

  /// ORA: A becomes A | operand, Z and N are set from it by `FlagsZN`,
  /// and nothing else but PC changes.
  lemma {:induction false} StepOra(st: State, instr: Word)
    requires st.Valid()
    requires Step(st, instr).Ok? && Cc(instr) == 1 && Aaa(instr) == 0
    ensures OperandOf(st, instr).Some?
    ensures var v, r := OperandOf(st, instr).value, Step(st, instr).value;
            r == st.(a := st.a | v, p := FlagsZN(st.p, st.a | v), pc := r.pc)
  {
    StepGroupOneParts(st, instr);
    GroupOneOra(st, ResolveOperand(st, instr).value);
  }

  /// AND: Z and N are set from A & operand, but the result is not written
  /// back, so A and everything else but P and PC stay.
  lemma {:induction false} StepAnd(st: State, instr: Word)
    requires st.Valid()
    requires Step(st, instr).Ok? && Cc(instr) == 1 && Aaa(instr) == 1
    ensures OperandOf(st, instr).Some?
    ensures var v, r := OperandOf(st, instr).value, Step(st, instr).value;
            r == st.(p := FlagsZN(st.p, st.a & v), pc := r.pc)
  {
    StepGroupOneParts(st, instr);
    GroupOneAnd(st, ResolveOperand(st, instr).value);
  }

  /// EOR: Z and N are set from A ^ operand, and again only P and PC change.
  lemma {:induction false} StepEor(st: State, instr: Word)
    requires st.Valid()
    requires Step(st, instr).Ok? && Cc(instr) == 1 && Aaa(instr) == 2
    ensures OperandOf(st, instr).Some?
    ensures var v, r := OperandOf(st, instr).value, Step(st, instr).value;
            r == st.(p := FlagsZN(st.p, st.a ^ v), pc := r.pc)
  {
    StepGroupOneParts(st, instr);
    GroupOneEor(st, ResolveOperand(st, instr).value);
  }

  /// ADC and SBC: P is what `op_carry` makes of A and the operand (C bit 8
  /// of the exact sum, V cleared), and A keeps its old value.
  lemma {:induction false} StepAdcSbc(st: State, instr: Word)
    requires st.Valid()
    requires Step(st, instr).Ok? && Cc(instr) == 1 && (Aaa(instr) == 3 || Aaa(instr) == 7)
    ensures OperandOf(st, instr).Some?
    ensures var v, r := OperandOf(st, instr).value, Step(st, instr).value;
            var mode := if Aaa(instr) == 3 then Add else Sub;
            (IsSet(r.p, Carry) <==> OpCarryExact(st.p, st.a, v, mode) % 0x200 >= 0x100)
            && !IsSet(r.p, Overflow)
            && r == st.(p := r.p, pc := r.pc)
  {
    StepGroupOneParts(st, instr);
    var op := ResolveOperand(st, instr).value;
    GroupOneCarry(st, Aaa(instr), op);
    OpCarrySum(st.p, st.a, op.value.value, if Aaa(instr) == 3 then Add else Sub);
  }

  /// CMP: P is set by `CompareFlags` (V when A is below the operand, Z when
  /// they are equal); only P and PC change.
  lemma {:induction false} StepCmp(st: State, instr: Word)
    requires st.Valid()
    requires Step(st, instr).Ok? && Cc(instr) == 1 && Aaa(instr) == 6
    ensures OperandOf(st, instr).Some?
    ensures var v, r := OperandOf(st, instr).value, Step(st, instr).value;
            r == st.(p := CompareFlags(st.p, st.a, v), pc := r.pc)
  {
    StepGroupOneParts(st, instr);
    GroupOneCompare(st, ResolveOperand(st, instr).value);
  }

  /// The ORA arm of `GroupOne`.
  lemma GroupOneOra(st: State, op: Operand)
    requires st.Valid() && op.value.Some?
    ensures var v := op.value.value;
            GroupOne(st, 0, op) == Ok(st.(a := st.a | v, p := FlagsZN(st.p, st.a | v)))
  {
  }

  /// The AND arm of `GroupOne`.
  lemma GroupOneAnd(st: State, op: Operand)
    requires st.Valid() && op.value.Some?
    ensures GroupOne(st, 1, op) == Ok(st.(p := FlagsZN(st.p, st.a & op.value.value)))
  {
  }

  /// The EOR arm of `GroupOne`.
  lemma GroupOneEor(st: State, op: Operand)
    requires st.Valid() && op.value.Some?
    ensures GroupOne(st, 2, op) == Ok(st.(p := FlagsZN(st.p, st.a ^ op.value.value)))
  {
  }

  /// The ADC and SBC arms of `GroupOne`.
  lemma GroupOneCarry(st: State, aaa: bv8, op: Operand)
    requires st.Valid() && op.value.Some? && (aaa == 3 || aaa == 7)
    ensures GroupOne(st, aaa, op)
         == Ok(st.(p := OpCarry(st.p, st.a, op.value.value, if aaa == 3 then Add else Sub).1))
  {
  }

  /// The CMP arm of `GroupOne`.
  lemma GroupOneCompare(st: State, op: Operand)
    requires st.Valid() && op.value.Some?
    ensures GroupOne(st, 6, op) == Ok(st.(p := CompareFlags(st.p, st.a, op.value.value)))
  {
  }

  /// LDA: A becomes the operand, with no flag change.
  lemma {:induction false} StepLda(st: State, instr: Word)
    requires st.Valid()
    requires Step(st, instr).Ok? && Cc(instr) == 1 && Aaa(instr) == 5
    ensures OperandOf(st, instr).Some?
    ensures Step(st, instr).value == st.(a := OperandOf(st, instr).value, pc := Step(st, instr).value.pc)
  {
    StepGroupOneParts(st, instr);
  }

  /// STA: the operand's address is in RAM, A is stored there, and only RAM
  /// and PC change.
  lemma {:induction false} StepSta(st: State, instr: Word)
    requires st.Valid()
    requires Step(st, instr).Ok? && Cc(instr) == 1 && Aaa(instr) == 4
    ensures ResolveOperand(st, instr).Ok? && ResolveOperand(st, instr).value.address.Some?
    ensures var at, r := ResolveOperand(st, instr).value.address.value, Step(st, instr).value;
            at < 0x2000
            && Cpu.Load(r, at) == Ok(st.a)
            && r == st.(ram := r.ram, pc := r.pc)
  {
    StepGroupOneParts(st, instr);
    OperandFromAddress(st, instr);
    var at := ResolveOperand(st, instr).value.address.value;
    StoreThenLoad(st.ram, st.cart, at, at, st.a);
  }

  /// The fetched operand is the byte loaded from the fetched address,
  /// except in the immediate forms, whose address is the operand byte
  /// itself.
  lemma OperandFromAddress(st: State, instr: Word)
    requires st.Valid()
    requires ResolveOperand(st, instr).Ok?
    requires ResolveOperand(st, instr).value.value.Some?
    ensures ResolveOperand(st, instr).value.address.Some?
    ensures var op := ResolveOperand(st, instr).value;
            if Bbb(instr) == 1 || PcOffset(instr) == 3
            then Cpu.Load(st, op.address.value) == Ok(op.value.value)
            else op.address.value == AsDoubleWord(op.value.value)
  {
  }

  /// LDX: X becomes the operand, with no flag change.
  lemma {:induction false} StepLdx(st: State, instr: Word)
    requires st.Valid()
    requires Step(st, instr).Ok? && Cc(instr) == 2 && Aaa(instr) == 5
    ensures OperandOf(st, instr).Some?
    ensures Step(st, instr).value == st.(x := OperandOf(st, instr).value, pc := Step(st, instr).value.pc)
  {
    StepParts(st, instr);
    ResolveOperandOffset(st, instr);
    StepOnlyImplemented(st, instr);
  }

  /// STX: the arm is empty, so X is never stored and only PC moves.
  lemma {:induction false} StepStx(st: State, instr: Word)
    requires st.Valid()
    requires Step(st, instr).Ok? && Cc(instr) == 2 && Aaa(instr) == 4
    ensures Step(st, instr).value == st.(pc := Step(st, instr).value.pc)
  {
    StepParts(st, instr);
  }

  /// STA to a PPU, APU or I/O register panics before the store: the operand
  /// stage loads the byte at the target first, and those addresses give
  /// nothing on a load.
  lemma StaAbsoluteToRegisterFails(st: State, at: DoubleWord)
    requires st.Valid()
    requires AbsoluteAddress(st) == Ok(at) && 0x2000 <= at < 0x4020
    ensures Step(st, 0x8D) == Err(UnmappedLoad(at))
  {
    assert Aaa(0x8D) == 4 && Bbb(0x8D) == 3 && Cc(0x8D) == 1;
  }

  // The stack.

  /// `pull_word` after `push_word` gives the byte back and restores S; the
  /// pushed byte stays in RAM at zero-page address S.
  lemma {:induction false} PushPullWord(st: State, v: Word)
    requires st.Valid() && st.s < 0xFF
    ensures PushWord(st, v).Ok?
    ensures var pushed := PushWord(st, v).value;
            pushed == st.(ram := pushed.ram, s := st.s + 1)
            && Cpu.Load(pushed, AsDoubleWord(st.s)) == Ok(v)
            && PullWord(pushed) == Ok((pushed.(s := st.s), v))
  {
    var at := AsDoubleWord(st.s);
    StoreThenLoad(st.ram, st.cart, at, at, v);
    var pushed := PushWord(st, v).value;
    assert pushed.s - 1 == st.s;
  }

  /// `push_doubleword` with room on the page stores the low byte at S and
  /// the high byte at S + 1, and adds two to S.
  lemma PushDoubleWordStores(st: State, d: DoubleWord)
    requires st.Valid() && st.s < 0xFE
    ensures PushDoubleWord(st, d).Ok?
    ensures var pushed := PushDoubleWord(st, d).value;
            && pushed == st.(ram := pushed.ram, s := st.s + 2)
            && Cpu.Load(pushed, AsDoubleWord(st.s)) == Ok(ToWords(d)[0])
            && Cpu.Load(pushed, AsDoubleWord(st.s) + 1) == Ok(ToWords(d)[1])
  {
    var words := ToWords(d);
    var lo, hi := AsDoubleWord(st.s), AsDoubleWord(st.s) + 1;
    StoreThenLoad(st.ram, st.cart, lo, lo, words[0]);
    var st1 := Cpu.Store(st, lo, words[0]).value;
    StoreThenLoad(st1.ram, st1.cart, hi, hi, words[1]);
    StoreThenLoad(st1.ram, st1.cart, hi, lo, words[1]);
    var pushed := PushDoubleWord(st, d).value;
    assert pushed.ram == Cpu.Store(st1, hi, words[1]).value.ram;
  }

  /// `pull_doubleword` from its steps: S - 2, then the two loads.
  lemma PullDoubleWordFrom(st: State, s: Word, lo: Word, hiAt: DoubleWord, hi: Word)
    requires st.Valid()
    requires CheckedSub(st.s, 2) == Ok(s)
    requires Cpu.Load(st, AsDoubleWord(s)) == Ok(lo)
    requires CheckedDoubleAddWord(AsDoubleWord(s), 1) == Ok(hiAt)
    requires Cpu.Load(st, hiAt) == Ok(hi)
    ensures PullDoubleWord(st) == Ok((st.(s := s), FromWords(hi, lo)))
  {
  }

  /// `pull_doubleword` after `push_doubleword` gives the doubleword back
  /// and restores S.
  lemma {:induction false} PushPullDoubleWord(st: State, d: DoubleWord)
    requires st.Valid() && st.s < 0xFE
    ensures PushDoubleWord(st, d).Ok?
    ensures var pushed := PushDoubleWord(st, d).value;
            pushed == st.(ram := pushed.ram, s := st.s + 2)
            && PullDoubleWord(pushed) == Ok((pushed.(s := st.s), d))
  {
    PushDoubleWordStores(st, d);
    var pushed := PushDoubleWord(st, d).value;
    var words := ToWords(d);
    var lo := AsDoubleWord(st.s);
    CheckedDoubleAddWordSum(lo, 1);
    assert AsDoubleWord(pushed.s - 2) == lo;
    PullDoubleWordFrom(pushed, st.s, words[0], lo + 1, words[1]);
    FromWordsToWords(d);
  }

  // The program counter.

  /// `advance_pc_n` adds n exactly, or panics when PC + n leaves 16 bits;
  /// nothing else changes.
  lemma AdvancePcAdds(st: State, n: Word)
    ensures AdvancePc(st, n).Ok? <==> (st.pc as bv32 + n as bv32) >> 16 == 0
    ensures AdvancePc(st, n).Ok? ==> AdvancePc(st, n).value == st.(pc := st.pc + n as bv16)
  {
    CheckedDoubleAddWordSum(st.pc, n);
  }

  /// `relative_jump` adds the offset after the opcode to PC. From PC at or
  /// above 0x8000, read as a negative `i16`, the sum may wrap around
  /// 0xFFFF; otherwise the jump goes forward.
  lemma RelativeJumpTaken(st: State, off: bv16)
    requires st.Valid() && st.pc < 0xFFFF && off < 0x100
    requires LoadOffset(st, st.pc + 1) == Ok(off)
    requires st.pc >= 0x8000 || st.pc + off < 0x8000
    ensures RelativeJump(st) == Ok(st.(pc := st.pc + off))
  {
    CheckedDoubleAddWordSum(st.pc, 1);
    CheckedAddI16Byte(st.pc, off);
    RelativeJumpFrom(st, st.pc + 1, off, st.pc + off);
  }

  /// Below 0x8000 a jump target reaching 0x8000 overflows `i16` and panics.
  lemma RelativeJumpOverflows(st: State, off: bv16)
    requires st.Valid() && st.pc < 0xFFFF && off < 0x100
    requires LoadOffset(st, st.pc + 1) == Ok(off)
    requires st.pc < 0x8000 && st.pc + off >= 0x8000
    ensures RelativeJump(st) == Err(ArithmeticOverflow)
  {
    CheckedDoubleAddWordSum(st.pc, 1);
    CheckedAddI16Byte(st.pc, off);
  }

  /// `relative_jump` from its three steps.
  lemma RelativeJumpFrom(st: State, at: DoubleWord, off: bv16, target: DoubleWord)
    requires st.Valid()
    requires CheckedDoubleAddWord(st.pc, 1) == Ok(at)
    requires LoadOffset(st, at) == Ok(off)
    requires CheckedAddI16(st.pc, off) == Ok(target)
    ensures RelativeJump(st) == Ok(st.(pc := target))
  {
  }

  // Addressing helpers.

  /// `absolute_address` reads the high byte at PC + 2 and the low byte at
  /// PC + 1 and puts them together little endian; `indirect_address` does
  /// exactly the same, with no second dereference.
  lemma AbsoluteAddressLittleEndian(st: State, loAt: DoubleWord, hiAt: DoubleWord, lo: Word, hi: Word)
    requires st.Valid()
    requires CheckedDoubleAdd(st.pc, 1) == Ok(loAt) && CheckedDoubleAdd(st.pc, 2) == Ok(hiAt)
    requires Cpu.Load(st, loAt) == Ok(lo) && Cpu.Load(st, hiAt) == Ok(hi)
    ensures AbsoluteAddress(st) == Ok(FromWords(hi, lo))
    ensures IndirectAddress(st) == AbsoluteAddress(st)
  {
  }

  /// The high byte is read first, so a fault there is the one reported.
  lemma AbsoluteAddressHighFirst(st: State, hiAt: DoubleWord)
    requires st.Valid()
    requires CheckedDoubleAdd(st.pc, 2) == Ok(hiAt) && Cpu.Load(st, hiAt).Err?
    ensures AbsoluteAddress(st) == Err(Cpu.Load(st, hiAt).fault)
  {
  }
}
