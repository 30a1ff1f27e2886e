/// What the draft CPU of `src/main.rs` does, proved about the functions of
/// module `DraftCpu`.
module DraftProperties {
  import opened Outcome
  import opened Words
  import opened Status
  import opened Alu
  import Cpu
  import opened DraftCpu

  // The stack.

  /// `pull_word` after `push_word` gives the byte back and restores S; the
  /// pushed byte stays at zero-page address S.
  lemma {:induction false} PushPullWord(st: State, v: Word)
    requires st.Valid() && st.s < 0xFF
    ensures PushWord(st, v).Ok?
    ensures var pushed := PushWord(st, v).value;
            pushed == st.(mem := pushed.mem, s := st.s + 1)
            && Load(pushed, AsDoubleWord(st.s)) == v
            && PullWord(pushed) == Ok((pushed.(s := st.s), v))
  {
    StoreThenLoad(st, AsDoubleWord(st.s), AsDoubleWord(st.s), v);
    var pushed := PushWord(st, v).value;
    assert pushed.s - 1 == st.s;
  }

  /// `push_word` with S at 0xFF panics on S + 1, and `pull_word` with S at
  /// 0 on S - 1.
  lemma StackBounds(st: State, v: Word)
    requires st.Valid()
    ensures st.s == 0xFF ==> PushWord(st, v) == Err(ArithmeticOverflow)
    ensures st.s >= 0xFE ==> PushDoubleWord(st, AsDoubleWord(v)) == Err(ArithmeticOverflow)
    ensures st.s == 0 ==> PullWord(st) == Err(ArithmeticOverflow)
    ensures st.s < 2 ==> PullDoubleWord(st) == Err(ArithmeticOverflow)
  {
  }

  /// `push_doubleword` from its steps: the two stores, then S + 2.
  lemma PushDoubleWordFrom(st: State, d: DoubleWord, hiAt: DoubleWord, s: Word)
    requires st.Valid()
    requires CheckedDoubleAddWord(AsDoubleWord(st.s), 1) == Ok(hiAt)
    requires CheckedAdd(st.s, 2) == Ok(s)
    ensures PushDoubleWord(st, d)
         == Ok(Store(Store(st, AsDoubleWord(st.s), ToWords(d)[0]), hiAt, ToWords(d)[1]).(s := s))
  {
  }

  /// `pull_doubleword` from its steps: S - 2, then the two loads.
  lemma PullDoubleWordFrom(st: State, s: Word, hiAt: DoubleWord)
    requires st.Valid()
    requires CheckedSub(st.s, 2) == Ok(s)
    requires CheckedDoubleAddWord(AsDoubleWord(s), 1) == Ok(hiAt)
    ensures PullDoubleWord(st) == Ok((st.(s := s), FromWords(Load(st, hiAt), Load(st, AsDoubleWord(s)))))
  {
  }

  /// `push_doubleword` leaves the low byte at S and the high byte at S+1.
  lemma PushedDoubleWordBytes(st: State, d: DoubleWord)
    requires st.Valid() && st.s < 0xFE
    ensures PushDoubleWord(st, d).Ok?
    ensures PushDoubleWord(st, d).value.mem[st.s as int] == ToWords(d)[0]
    ensures PushDoubleWord(st, d).value.mem[st.s as int + 1] == ToWords(d)[1]
  {
    var words := ToWords(d);
    var lo := AsDoubleWord(st.s);
    CheckedDoubleAddWordSum(lo, 1);
    PushDoubleWordFrom(st, d, lo + 1, st.s + 2);
    StoreTwice(st, words[0], words[1]);
  }

  /// Storing at zero-page addresses S and S+1 puts the two bytes there.
  lemma StoreTwice(st: State, lo: Word, hi: Word)
    requires st.Valid() && st.s < 0xFF
    ensures var at := AsDoubleWord(st.s);
            var mem := Store(Store(st, at, lo), at + 1, hi).mem;
            mem[st.s as int] == lo && mem[st.s as int + 1] == hi
  {
    assert AsDoubleWord(st.s) as int == st.s as int;
  }

  /// `pull_doubleword` after `push_doubleword` gives the doubleword back,
  /// low byte from S and high byte from S+1, and restores S.
  lemma {:induction false} PushPullDoubleWord(st: State, d: DoubleWord)
    requires st.Valid() && st.s < 0xFE
    ensures PushDoubleWord(st, d).Ok?
    ensures var pushed := PushDoubleWord(st, d).value;
            pushed == st.(mem := pushed.mem, s := st.s + 2)
            && PullDoubleWord(pushed) == Ok((pushed.(s := st.s), d))
  {
    PushedDoubleWordBytes(st, d);
    var pushed := PushDoubleWord(st, d).value;
    assert pushed.s as int - 2 == st.s as int;
    var pulled := PullDoubleWord(pushed).value.1;
    assert ToWords(pulled) == ToWords(d);
    FromWordsToWords(pulled);
    FromWordsToWords(d);
  }

  // The program counter.

  /// `advance_pc_n` adds n exactly, or panics when PC + n leaves 16 bits;
  /// nothing else changes.
  lemma AdvancePcAdds(st: State, n: Word)
    ensures AdvancePc(st, n).Ok? <==> (st.pc as bv32 + n as bv32) >> 16 == 0
    ensures AdvancePc(st, n).Ok? ==> AdvancePc(st, n).value == st.(pc := st.pc + n as bv16)
  {
    CheckedDoubleAddWordSum(st.pc, n);
  }

  /// `branch_on(false)` skips the two bytes of the branch.
  lemma BranchNotTaken(st: State)
    requires st.Valid() && st.pc < 0xFFFE
    ensures BranchOn(st, false) == Ok(st.(pc := st.pc + 2))
  {
    CheckedDoubleAddWordSum(st.pc, 2);
  }

  /// `relative_jump` from its steps: the address after the opcode, the
  /// offset read there, and the checked `i16` sum.
  lemma RelativeJumpFrom(st: State, at: DoubleWord, off: bv16, target: Result<DoubleWord>)
    requires st.Valid()
    requires CheckedDoubleAddWord(st.pc, 1) == Ok(at)
    requires LoadOffset(st, at) == off
    requires CheckedAddI16(st.pc, off) == target
    ensures RelativeJump(st) == if target.Ok? then Ok(st.(pc := target.value)) else Err(target.fault)
  {
  }

  /// `branch_on(true)` adds the zero-extended byte after the opcode to PC;
  /// below 0x8000 a target at or past 0x8000 overflows `i16` and panics.
  lemma BranchTaken(st: State, off: bv16)
    requires st.Valid() && st.pc < 0xFFFF
    requires off == LoadOffset(st, st.pc + 1)
    ensures BranchOn(st, true)
            == if st.pc >= 0x8000 || st.pc + off < 0x8000 then Ok(st.(pc := st.pc + off)) else Err(ArithmeticOverflow)
  {
    CheckedDoubleAddWordSum(st.pc, 1);
    CheckedAddI16Byte(st.pc, off);
    RelativeJumpFrom(st, st.pc + 1, off, CheckedAddI16(st.pc, off));
  }

  // Comparison.

  /// `compare(reg)` from its steps: the address after the opcode and the
  /// mask for the byte there.
  lemma CompareFrom(st: State, reg: Word, at: DoubleWord, mask: Word)
    requires st.Valid()
    requires CheckedDoubleAddWord(st.pc, 1) == Ok(at)
    requires mask == CompareMask(reg, Load(st, at))
    ensures Compare(st, reg) == Ok(st.(p := st.p | mask))
  {
  }

  /// `compare(reg)` reads its operand right after the opcode and ORs the
  /// mask into P.
  lemma CompareReadsNext(st: State, reg: Word, operand: Word, mask: Word)
    requires st.Valid() && st.pc < 0xFFFF
    requires operand == Load(st, st.pc + 1) && mask == CompareMask(reg, operand)
    ensures Compare(st, reg) == Ok(st.(p := st.p | mask))
  {
    CheckedDoubleAddWordSum(st.pc, 1);
    CompareFrom(st, reg, st.pc + 1, mask);
  }

  /// ORing in a mask with none of the bits Z, I, D, B and 0x20 keeps every
  /// bit of P and changes none of those five.
  lemma OrMaskKeeps(p: Word, mask: Word)
    requires mask & 0x3E == 0
    ensures (p | mask) & p == p
    ensures (p | mask) & 0x3E == p & 0x3E
    ensures mask & V_BIT != 0 ==> IsSet(p | mask, Overflow)
    ensures mask & N_BIT != 0 ==> IsSet(p | mask, Negative)
    ensures mask & C_BIT != 0 ==> IsSet(p | mask, Carry)
  {
  }

  /// `compare(reg)` never clears a bit of P: it sets V when the register is
  /// below the byte after the opcode, then N when the wrapped difference is
  /// negative and C otherwise; Z, I, D, B and everything but P stay.
  lemma CompareOnlySets(st: State, reg: Word, operand: Word)
    requires st.Valid() && st.pc < 0xFFFF
    requires operand == Load(st, st.pc + 1)
    ensures Compare(st, reg).Ok?
    ensures var r := Compare(st, reg).value;
            && r == st.(p := r.p)
            && r.p & st.p == st.p
            && (reg < operand ==> IsSet(r.p, Overflow))
            && (reg - operand >= 0x80 ==> IsSet(r.p, Negative))
            && (reg - operand < 0x80 ==> IsSet(r.p, Carry))
            && r.p & 0x3E == st.p & 0x3E
  {
    var mask := CompareMask(reg, operand);
    CompareReadsNext(st, reg, operand, mask);
    OrMaskKeeps(st.p, mask);
  }

  /// A comparison with a clear P leaves exactly the mask's bits.
  lemma CompareFromClearFlags(st: State, reg: Word, operand: Word)
    requires st.Valid() && st.pc < 0xFFFF && st.p == 0
    requires operand == Load(st, st.pc + 1)
    ensures Compare(st, reg) == Ok(st.(p := CompareMask(reg, operand)))
  {
    CompareReadsNext(st, reg, operand, CompareMask(reg, operand));
  }

  // The implemented arms of `exec`.

  /// The JSR arm from its steps: the push, then the two addresses after
  /// the opcode.
  lemma JsrArm(st: State, pushed: State, loAt: DoubleWord, hiAt: DoubleWord)
    requires st.Valid()
    requires PushDoubleWord(st, st.pc) == Ok(pushed)
    requires CheckedDoubleAddWord(pushed.pc, 1) == Ok(loAt)
    requires CheckedDoubleAddWord(pushed.pc, 2) == Ok(hiAt)
    ensures pushed.Valid()
    ensures RowZero(st, 0x20, 2) == Ok(pushed.(pc := FromWords(Load(pushed, hiAt), Load(pushed, loAt))))
  {
  }

  /// JSR pushes the address of the JSR itself, low byte at S, and jumps to
  /// the little-endian address in the two bytes after the opcode (read
  /// after the push, which cannot reach them from above the zero page).
  lemma {:induction false} JsrJumps(st: State, lo: Word, hi: Word)
    requires st.Valid() && st.s < 0xFE && 0x100 <= st.pc < 0xFFFE
    requires lo == Load(st, st.pc + 1) && hi == Load(st, st.pc + 2)
    ensures PushDoubleWord(st, st.pc).Ok?
    ensures Exec(st, 0x20) == Ok(PushDoubleWord(st, st.pc).value.(pc := FromWords(hi, lo)))
  {
    PushPullDoubleWord(st, st.pc);
    var pushed := PushDoubleWord(st, st.pc).value;
    CheckedDoubleAddWordSum(st.pc, 1);
    CheckedDoubleAddWordSum(st.pc, 2);
    PushedBelowPage(st, st.pc, st.pc + 1);
    PushedBelowPage(st, st.pc, st.pc + 2);
    assert Cpu.LowNibble(0x20) == 0 && Cpu.HighNibble(0x20) == 2;
    ExecRowZero(st, 0x20);
    JsrArm(st, pushed, st.pc + 1, st.pc + 2);
  }

  /// `push_doubleword` writes only the zero page and the first byte after
  /// it.
  lemma PushedBelowPage(st: State, d: DoubleWord, at: DoubleWord)
    requires st.Valid() && st.s < 0xFE && at > 0x100
    ensures PushDoubleWord(st, d).Ok?
    ensures Load(PushDoubleWord(st, d).value, at) == Load(st, at)
  {
    var words := ToWords(d);
    var lo, hi := AsDoubleWord(st.s), AsDoubleWord(st.s) + 1;
    CheckedDoubleAddWordSum(lo, 1);
    var st1 := Store(st, lo, words[0]);
    StoreThenLoad(st1, hi, at, words[1]);
    StoreThenLoad(st, lo, at, words[0]);
  }

  /// The RTS arm: the pulled doubleword becomes PC.
  lemma RtsArm(st: State, pulled: (State, DoubleWord))
    requires st.Valid()
    requires PullDoubleWord(st) == Ok(pulled)
    ensures RowZero(st, 0x60, 6) == Ok(pulled.0.(pc := pulled.1))
  {
  }

  /// RTS after JSR restores S and puts PC back on the JSR itself, not on
  /// the instruction after it.
  lemma {:induction false} RtsAfterJsr(st: State)
    requires st.Valid() && st.s < 0xFE && 0x100 <= st.pc < 0xFFFE
    ensures Exec(st, 0x20).Ok?
    ensures var j := Exec(st, 0x20).value;
            Exec(j, 0x60) == Ok(j.(s := st.s, pc := st.pc))
  {
    JsrJumps(st, Load(st, st.pc + 1), Load(st, st.pc + 2));
    PushPullDoubleWord(st, st.pc);
    var pushed := PushDoubleWord(st, st.pc).value;
    var j := Exec(st, 0x20).value;
    assert j == pushed.(pc := j.pc);
    assert PullDoubleWord(j) == Ok((j.(s := st.s), st.pc));
    assert Cpu.LowNibble(0x60) == 0 && Cpu.HighNibble(0x60) == 6;
    ExecRowZero(j, 0x60);
    RtsArm(j, (j.(s := st.s), st.pc));
  }

  /// BVC with V clear leaves the whole state as it was, PC included; with V
  /// set it skips the branch's two bytes.
  lemma Bvc(st: State)
    requires st.Valid()
    ensures !IsSet(st.p, Overflow) ==> Exec(st, 0x50) == Ok(st)
    ensures IsSet(st.p, Overflow) ==> Exec(st, 0x50) == AdvancePc(st, 2)
  {
    assert Cpu.LowNibble(0x50) == 0 && Cpu.HighNibble(0x50) == 5;
  }

  /// The conditional branches: BMI on N, BVS on V, BCC and BCS on C, BNE
  /// and BEQ on Z, each jumping relatively when its condition holds and
  /// skipping two bytes otherwise.
  lemma Branches(st: State)
    requires st.Valid()
    ensures Exec(st, 0x30) == BranchOn(st, IsSet(st.p, Negative))
    ensures Exec(st, 0x70) == BranchOn(st, IsSet(st.p, Overflow))
    ensures Exec(st, 0x90) == BranchOn(st, !IsSet(st.p, Carry))
    ensures Exec(st, 0xB0) == BranchOn(st, IsSet(st.p, Carry))
    ensures Exec(st, 0xD0) == BranchOn(st, !IsSet(st.p, Zero))
    ensures Exec(st, 0xF0) == BranchOn(st, IsSet(st.p, Zero))
  {
    assert Cpu.LowNibble(0x30) == 0 && Cpu.HighNibble(0x30) == 3;
    assert Cpu.LowNibble(0x70) == 0 && Cpu.HighNibble(0x70) == 7;
    assert Cpu.LowNibble(0x90) == 0 && Cpu.HighNibble(0x90) == 9;
    assert Cpu.LowNibble(0xB0) == 0 && Cpu.HighNibble(0xB0) == 0xB;
    assert Cpu.LowNibble(0xD0) == 0 && Cpu.HighNibble(0xD0) == 0xD;
    assert Cpu.LowNibble(0xF0) == 0 && Cpu.HighNibble(0xF0) == 0xF;
  }

  /// An opcode whose low four bits are zero runs its arm of row 0.
  lemma ExecRowZero(st: State, instr: Word)
    requires st.Valid() && Cpu.LowNibble(instr) == 0
    ensures Exec(st, instr) == RowZero(st, instr, Cpu.HighNibble(instr))
  {
  }

  /// The CPY # and CPX # arms: the comparison, then two bytes skipped.
  lemma CompareArm(st: State, instr: Word, high: bv8, reg: Word, compared: State)
    requires st.Valid()
    requires (high == 0xC && reg == st.y) || (high == 0xE && reg == st.x)
    requires Compare(st, reg) == Ok(compared)
    ensures RowZero(st, instr, high) == AdvancePc(compared, 2)
  {
  }

  /// CPX # (0xE0) and CPY # (0xC0) compare X or Y with the byte after the
  /// opcode and skip two bytes; nothing but P and PC changes.
  lemma CompareImmediate(st: State, instr: Word, reg: Word, operand: Word, mask: Word)
    requires st.Valid() && st.pc < 0xFFFE
    requires (instr == 0xE0 && reg == st.x) || (instr == 0xC0 && reg == st.y)
    requires operand == Load(st, st.pc + 1) && mask == CompareMask(reg, operand)
    ensures Exec(st, instr) == Ok(st.(p := st.p | mask, pc := st.pc + 2))
  {
    var high := Cpu.HighNibble(instr);
    assert Cpu.LowNibble(instr) == 0 && high == instr >> 4;
    ExecRowZero(st, instr);
    var compared := st.(p := st.p | mask);
    CompareReadsNext(st, reg, operand, mask);
    CompareArm(st, instr, high, reg, compared);
    CheckedDoubleAddWordSum(compared.pc, 2);
  }

  /// ORA (ind,X): A becomes A | operand, Z and N follow it, PC skips two
  /// bytes; the other registers stay.
  lemma OraIndirectX(st: State)
    requires st.Valid() && st.pc < 0xFFFE
    ensures IndirectX(st).Ok?
    ensures var a := st.a | IndirectX(st).value;
            Exec(st, 0x01) == Ok(st.(a := a, p := FlagsZN(st.p, a), pc := st.pc + 2))
  {
    CheckedDoubleAddWordSum(st.pc, 1);
    CheckedDoubleAddWordSum(st.pc, 2);
    assert Cpu.LowNibble(0x01) == 1 && Cpu.HighNibble(0x01) == 0;
  }

  /// ORA (ind),Y: A becomes A | operand, where the operand is the
  /// zero-page byte plus Y, which panics on overflow.
  lemma OraIndirectY(st: State)
    requires st.Valid() && st.pc < 0xFFFE
    ensures IndirectY(st).Err? ==> Exec(st, 0x11) == Err(ArithmeticOverflow)
    ensures IndirectY(st).Ok? ==>
              var a := st.a | IndirectY(st).value;
              Exec(st, 0x11) == Ok(st.(a := a, p := FlagsZN(st.p, a), pc := st.pc + 2))
  {
    CheckedDoubleAddWordSum(st.pc, 1);
    CheckedDoubleAddWordSum(st.pc, 2);
    assert Cpu.LowNibble(0x11) == 1 && Cpu.HighNibble(0x11) == 1;
  }

  /// AND (ind,X): unlike the cc=01 AND of `src/cpu/mod.rs`, the draft
  /// writes A & operand back into A.
  lemma AndIndirectX(st: State)
    requires st.Valid() && st.pc < 0xFFFE
    ensures IndirectX(st).Ok?
    ensures var a := st.a & IndirectX(st).value;
            Exec(st, 0x21) == Ok(st.(a := a, p := FlagsZN(st.p, a), pc := st.pc + 2))
  {
    CheckedDoubleAddWordSum(st.pc, 1);
    CheckedDoubleAddWordSum(st.pc, 2);
    assert Cpu.LowNibble(0x21) == 1 && Cpu.HighNibble(0x21) == 2;
  }

  /// AND (ind),Y: A becomes A & operand, or the operand overflows.
  lemma AndIndirectY(st: State)
    requires st.Valid() && st.pc < 0xFFFE
    ensures IndirectY(st).Err? ==> Exec(st, 0x31) == Err(ArithmeticOverflow)
    ensures IndirectY(st).Ok? ==>
              var a := st.a & IndirectY(st).value;
              Exec(st, 0x31) == Ok(st.(a := a, p := FlagsZN(st.p, a), pc := st.pc + 2))
  {
    CheckedDoubleAddWordSum(st.pc, 1);
    CheckedDoubleAddWordSum(st.pc, 2);
    assert Cpu.LowNibble(0x31) == 1 && Cpu.HighNibble(0x31) == 3;
  }

  /// EOR (ind,X): A becomes A ^ operand, again written back.
  lemma EorIndirectX(st: State)
    requires st.Valid() && st.pc < 0xFFFE
    ensures IndirectX(st).Ok?
    ensures var a := st.a ^ IndirectX(st).value;
            Exec(st, 0x41) == Ok(st.(a := a, p := FlagsZN(st.p, a), pc := st.pc + 2))
  {
    CheckedDoubleAddWordSum(st.pc, 1);
    CheckedDoubleAddWordSum(st.pc, 2);
    assert Cpu.LowNibble(0x41) == 1 && Cpu.HighNibble(0x41) == 4;
  }

  /// EOR (ind),Y: A becomes A ^ operand, or the operand overflows.
  lemma EorIndirectY(st: State)
    requires st.Valid() && st.pc < 0xFFFE
    ensures IndirectY(st).Err? ==> Exec(st, 0x51) == Err(ArithmeticOverflow)
    ensures IndirectY(st).Ok? ==>
              var a := st.a ^ IndirectY(st).value;
              Exec(st, 0x51) == Ok(st.(a := a, p := FlagsZN(st.p, a), pc := st.pc + 2))
  {
    CheckedDoubleAddWordSum(st.pc, 1);
    CheckedDoubleAddWordSum(st.pc, 2);
    assert Cpu.LowNibble(0x51) == 1 && Cpu.HighNibble(0x51) == 5;
  }

  /// LDY #: the byte after the opcode is taken as a zero-page address and
  /// Y becomes the byte there; PC is not advanced.  At PC 0xFFFF the
  /// address of that byte overflows.
  lemma LdyImmediate(st: State)
    requires st.Valid()
    ensures st.pc == 0xFFFF ==> Exec(st, 0xA0) == Err(ArithmeticOverflow)
    ensures st.pc != 0xFFFF ==> Exec(st, 0xA0) == Ok(st.(y := Load(st, AsDoubleWord(Load(st, st.pc + 1)))))
  {
    assert Cpu.LowNibble(0xA0) == 0 && Cpu.HighNibble(0xA0) == 0xA;
    CheckedDoubleAddWordSum(st.pc, 1);
  }

  // Which opcodes `exec` runs.

  /// With the row taken from the low four bits, every byte reaches its own
  /// arm of the matrix: no byte ends in the "failed to convert" panic, and
  /// the opcodes outside `Implemented` end in `unimplemented!()`.
  lemma {:induction false} ExecDispatchesEveryByte(st: State, instr: Word)
    requires st.Valid()
    ensures Exec(st, instr) != Err(NibbleOutOfRange(instr))
    ensures !Implemented(instr) ==> Exec(st, instr) == Err(Unimplemented(instr))
  {
    var low, high := Cpu.LowNibble(instr), Cpu.HighNibble(instr);
    Cpu.NibblesRebuildByte(instr);
    if !Implemented(instr) {
      if low == 0 {
        assert high != 2 && high != 3 && high != 5 && high != 6 && high != 7 && high != 9;
        assert high < 0xA;
      } else if low == 1 {
        assert high >= 6;
      }
    }
  }

  /// An opcode whose low four bits are one runs its arm of row 1.
  lemma ExecRowOne(st: State, instr: Word)
    requires st.Valid() && Cpu.LowNibble(instr) == 1
    ensures Exec(st, instr) == RowOne(st, instr, Cpu.HighNibble(instr))
  {
  }

  /// An implemented opcode fails only on an unchecked `+`/`-` leaving its
  /// type.
  lemma {:induction false} ImplementedFaults(st: State, instr: Word)
    requires st.Valid() && Implemented(instr)
    ensures Exec(st, instr).Err? ==> Exec(st, instr) == Err(ArithmeticOverflow)
  {
    ImplementedNibbles(instr);
    if Cpu.LowNibble(instr) == 0 {
      ExecRowZero(st, instr);
    } else {
      ExecRowOne(st, instr);
    }
  }

  /// Where the implemented opcodes sit in the matrix: row 0 except columns
  /// 0, 1, 4 and 8, and row 1 in columns 0 to 5.
  lemma ImplementedNibbles(instr: Word)
    requires Implemented(instr)
    ensures var low, high := Cpu.LowNibble(instr), Cpu.HighNibble(instr);
            || (low == 0 && high != 0 && high != 1 && high != 4 && high != 8)
            || (low == 1 && high < 6)
  {
  }

  /// `exec` as written dispatches on the whole byte, so every opcode from
  /// 0x10 up ends in the "failed to convert" panic and only 0x00-0x0F reach
  /// the matrix.
  lemma ExecAsWrittenOnlyLowBytes(st: State, instr: Word)
    requires st.Valid()
    ensures instr >= 0x10 ==> ExecAsWritten(st, instr) == Err(NibbleOutOfRange(instr))
    ensures instr < 0x10 ==> ExecAsWritten(st, instr) == Exec(st, instr)
  {
  }

  /// As written, JSR (0x20) never runs: it ends in the "failed to convert"
  /// panic, where the four-bit row sends it to its arm.
  lemma JsrAsWritten(st: State)
    requires st.Valid()
    ensures ExecAsWritten(st, 0x20) == Err(NibbleOutOfRange(0x20))
    ensures Exec(st, 0x20) != Err(NibbleOutOfRange(0x20))
  {
    ExecDispatchesEveryByte(st, 0x20);
  }
}
