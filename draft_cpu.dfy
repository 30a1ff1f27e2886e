/// The earlier single-file draft of the CPU (`src/main.rs`) as functions of
/// its state: the registers and a flat 64 KiB memory.  Every operation gives
/// the new state or the panic it ends in (an unchecked `+`/`-` leaving its
/// type, or an `unimplemented!()` arm of `exec`).  The class
/// `DraftEmulator.System` runs the same operations in place and is proved
/// against these functions.
module DraftCpu {
  import opened Outcome
  import opened Words
  import opened Status
  import opened Alu
  import Cpu

  /// Every address the draft's `load` and `store` accept.
  const MEMORY_SIZE := 0x10000

  /// The registers of the draft `System` and the contents of its memory.
  datatype State = State(a: Word, x: Word, y: Word, pc: DoubleWord, s: Word, p: Word, mem: seq<Word>)
  {
    predicate Valid()
    {
      |mem| == MEMORY_SIZE
    }
  }

  // Memory.

  /// `load`: the byte at the address.
  function Load(st: State, at: DoubleWord): (r: Word)
    requires st.Valid()
    ensures Store(st, at, r) == st
  {
    st.mem[at as int]
  }

  /// `store`: the byte at the address is replaced, nothing else changes.
  function Store(st: State, at: DoubleWord, v: Word): (r: State)
    requires st.Valid()
    ensures r.Valid() && r == st.(mem := r.mem)
  {
    st.(mem := st.mem[at as int := v])
  }

  /// A store is seen by a load from the same address, and by no other.
  lemma StoreThenLoad(st: State, at: DoubleWord, other: DoubleWord, v: Word)
    requires st.Valid()
    ensures Load(Store(st, at, v), other) == if other == at then v else Load(st, other)
  {
    assert Store(st, at, v).mem == st.mem[at as int := v];
    if other != at {
      assert other as int != at as int by {
        if other as int == at as int {
          AsIntInjective(other, at);
        }
      }
    }
  }

  /// `load_offset`: the byte zero-extended to an `i16`, given as its 16-bit
  /// pattern.
  function LoadOffset(st: State, at: DoubleWord): (off: bv16)
    requires st.Valid()
    ensures off < 0x100 && off as bv8 == Load(st, at)
  {
    AsDoubleWord(Load(st, at))
  }

  /// `load_doubleword`: the low byte at the address, the high byte after it.
  function LoadDoubleWord(st: State, at: DoubleWord): (r: Result<DoubleWord>)
    requires st.Valid()
    ensures at == 0xFFFF ==> r == Err(ArithmeticOverflow)
    ensures at < 0xFFFF ==> r.Ok? && ToWords(r.value) == [Load(st, at), Load(st, at + 1)]
  {
    var lo := Load(st, at);
    var hiAt :- CheckedDoubleAddWord(at, 1);
    ToWordsFromWords(Load(st, hiAt), lo);
    Ok(FromWords(Load(st, hiAt), lo))
  }

  // The nibbles `exec` dispatches on.

  /// `low_nibble` as written: the whole byte.
  function LowNibbleAsWritten(b: Word): (r: bv8)
    ensures r == Cpu.LowNibble(b) <==> b < 0x10
  {
    b
  }

  // Stack and program counter.

  /// `push_word`: the byte goes to zero-page address S, then S grows by one.
  function PushWord(st: State, data: Word): (r: Result<State>)
    requires st.Valid()
    ensures st.s == 0xFF ==> r == Err(ArithmeticOverflow)
    ensures st.s < 0xFF ==> r.Ok? && r.value == st.(mem := st.mem[st.s as int := data], s := st.s + 1)
  {
    var st1 := Store(st, AsDoubleWord(st.s), data);
    var s :- CheckedAdd(st.s, 1);
    Ok(st1.(s := s))
  }

  /// `push_doubleword`: the low byte at S, the high byte at S+1, then S
  /// grows by two.
  function PushDoubleWord(st: State, data: DoubleWord): (r: Result<State>)
    requires st.Valid()
    ensures st.s >= 0xFE ==> r == Err(ArithmeticOverflow)
    ensures st.s < 0xFE ==> r.Ok? && r.value == st.(mem := r.value.mem, s := st.s + 2)
  {
    var words := ToWords(data);
    var st1 := Store(st, AsDoubleWord(st.s), words[0]);
    var hiAt := CheckedDoubleAddWord(AsDoubleWord(st.s), 1).value;  // at most 0x100
    var st2 := Store(st1, hiAt, words[1]);
    var s :- CheckedAdd(st.s, 2);
    Ok(st2.(s := s))
  }

  /// `pull_word`: S shrinks by one, then the byte at S is read.
  function PullWord(st: State): (r: Result<(State, Word)>)
    requires st.Valid()
    ensures st.s == 0 ==> r == Err(ArithmeticOverflow)
    ensures st.s > 0 ==> r == Ok((st.(s := st.s - 1), st.mem[st.s as int - 1]))
  {
    var s :- CheckedSub(st.s, 1);
    var st1 := st.(s := s);
    Ok((st1, Load(st1, AsDoubleWord(s))))
  }

  /// `pull_doubleword`: S shrinks by two, then the doubleword at S is read.
  function PullDoubleWord(st: State): (r: Result<(State, DoubleWord)>)
    requires st.Valid()
    ensures st.s < 2 ==> r == Err(ArithmeticOverflow)
    ensures st.s >= 2 ==> r.Ok? && r.value.0 == st.(s := st.s - 2)
    ensures st.s >= 2 ==> ToWords(r.value.1) == [st.mem[st.s as int - 2], st.mem[st.s as int - 1]]
  {
    var s :- CheckedSub(st.s, 2);
    var st1 := st.(s := s);
    var d := LoadDoubleWord(st1, AsDoubleWord(s)).value;  // a zero-page address
    Ok((st1, d))
  }

  /// `advance_pc_1`/`_2`/`_3`.
  function AdvancePc(st: State, n: Word): (r: Result<State>)
    ensures r.Ok? <==> (st.pc as bv32 + n as bv32) >> 16 == 0
    ensures r.Ok? ==> r.value == st.(pc := r.value.pc)
  {
    var pc :- CheckedDoubleAddWord(st.pc, n);
    Ok(st.(pc := pc))
  }

  /// `relative_jump`: PC plus the byte after the opcode, read by
  /// `load_offset`, added as an `i16`.
  function RelativeJump(st: State): (r: Result<State>)
    requires st.Valid()
    ensures st.pc == 0xFFFF ==> r == Err(ArithmeticOverflow)
    ensures r.Ok? ==> r.value == st.(pc := r.value.pc)
  {
    var at :- CheckedDoubleAddWord(st.pc, 1);
    var pc :- CheckedAddI16(st.pc, LoadOffset(st, at));
    Ok(st.(pc := pc))
  }

  /// `branch_on`: jump when the condition holds, else skip the two bytes of
  /// the branch.
  function BranchOn(st: State, cond: bool): (r: Result<State>)
    requires st.Valid()
    ensures r.Ok? ==> r.value == st.(pc := r.value.pc)
    ensures !cond ==> (r.Ok? <==> st.pc <= 0xFFFD)
    ensures !cond && r.Ok? ==> r.value.pc == st.pc + 2
  {
    if cond then RelativeJump(st) else AdvancePc(st, 2)
  }

  /// `reset`: every register becomes zero; memory is untouched.
  function Reset(st: State): (r: State)
  {
    st.(a := 0, x := 0, y := 0, s := 0, p := 0, pc := 0)
  }

  // Flags and comparison.

  /// The mask `compare` ORs into P: V on a borrow, then N when the wrapped
  /// difference is negative as an `i8`, C otherwise.
  function CompareMask(reg: Word, operand: Word): (mask: Word)
    ensures mask & V_BIT != 0 <==> reg < operand
    ensures mask & N_BIT != 0 <==> reg - operand >= 0x80
    ensures mask & C_BIT != 0 <==> reg - operand < 0x80
    ensures mask & 0x3E == 0
  {
    var res, didOverflow := reg - operand, reg < operand;
    var mask: Word := if didOverflow then 0x40 else 0;
    if NativeValueSigned(res) < 0 then mask | 0x80 else mask | 0x01
  }

  /// `compare(reg)`: the register against the byte after the opcode; P only
  /// gains bits.
  function Compare(st: State, reg: Word): (r: Result<State>)
    requires st.Valid()
    ensures st.pc == 0xFFFF ==> r == Err(ArithmeticOverflow)
    ensures st.pc < 0xFFFF ==> r.Ok? && r.value == st.(p := r.value.p)
    ensures r.Ok? ==> r.value.p & st.p == st.p
  {
    var at :- CheckedDoubleAddWord(st.pc, 1);
    Ok(st.(p := st.p | CompareMask(reg, Load(st, at))))
  }

  // Operands of the indirect rows.

  /// `indirect_x`: the byte after the opcode is read at PC+1 plus X
  /// (wrapping), and the byte at that zero-page address is the operand.
  function IndirectX(st: State): (r: Result<Word>)
    requires st.Valid()
    ensures st.pc == 0xFFFF ==> r == Err(ArithmeticOverflow)
    ensures st.pc < 0xFFFF ==> r == Ok(Load(st, AsDoubleWord(Load(st, DoubleClAddWord(st.pc + 1, st.x)))))
  {
    var at :- CheckedDoubleAddWord(st.pc, 1);
    var addr := Load(st, DoubleClAddWord(at, st.x));
    Ok(Load(st, AsDoubleWord(addr)))
  }

  /// `indirect_y`: the byte at the zero-page address after the opcode, plus
  /// Y (unchecked).
  function IndirectY(st: State): (r: Result<Word>)
    requires st.Valid()
    ensures st.pc == 0xFFFF ==> r == Err(ArithmeticOverflow)
    ensures st.pc < 0xFFFF ==>
              var base := Load(st, AsDoubleWord(Load(st, st.pc + 1)));
              r == CheckedAdd(base, st.y)
  {
    var at :- CheckedDoubleAddWord(st.pc, 1);
    var addr := Load(st, at);
    CheckedAdd(Load(st, AsDoubleWord(addr)), st.y)
  }

  // The nibble-matrix `exec`.

  /// `exec` once the low and high "nibbles" are known: row `low`, column
  /// `high` of the opcode matrix.  Only the rows 0 and 1 have arms that do
  /// something other than `unimplemented!()`.
  function Dispatch(st: State, instr: Word, low: bv8, high: bv8): (r: Result<State>)
    requires st.Valid()
    requires high < 0x10
    ensures low >= 0x10 ==> r == Err(NibbleOutOfRange(instr))
    ensures 2 <= low < 0x10 ==> r == Err(Unimplemented(instr))
    ensures r.Ok? ==> low <= 1
  {
    if low == 0 then RowZero(st, instr, high)
    else if low == 1 then RowOne(st, instr, high)
    else if low < 0x10 then Err(Unimplemented(instr))
    else Err(NibbleOutOfRange(instr))
  }

  /// Row 0 of the matrix: BRK, BPL, RTI and column 8 are
  /// `unimplemented!()`; the other arms are grouped below by what they do.
  function RowZero(st: State, instr: Word, high: bv8): (r: Result<State>)
    requires st.Valid()
    requires high < 0x10
    ensures high == 0x0 || high == 0x1 || high == 0x4 || high == 0x8 <==> r == Err(Unimplemented(instr))
    ensures r.Err? ==> r == Err(Unimplemented(instr)) || r == Err(ArithmeticOverflow)
  {
    if high == 0x2 || high == 0x6 then SubroutineArm(st, high)
    else if IsBranchColumn(high) then BranchArm(st, high)
    else if high == 0xA || high == 0xC || high == 0xE then RegisterArm(st, high)
    else Err(Unimplemented(instr))  // BRK, BPL, RTI, 0x80
  }

  /// The columns of row 0 that hold the conditional branches.
  predicate IsBranchColumn(high: bv8)
  {
    high == 0x3 || high == 0x5 || high == 0x7 || high == 0x9 || high == 0xB || high == 0xD || high == 0xF
  }

  /// JSR (column 2) and RTS (column 6).
  function SubroutineArm(st: State, high: bv8): (r: Result<State>)
    requires st.Valid()
    requires high == 0x2 || high == 0x6
    ensures r.Err? ==> r == Err(ArithmeticOverflow)
  {
    if high == 0x2 then
      // JSR
      var st1 :- PushDoubleWord(st, st.pc);
      var loAt :- CheckedDoubleAddWord(st1.pc, 1);
      var hiAt :- CheckedDoubleAddWord(st1.pc, 2);
      Ok(st1.(pc := FromWords(Load(st1, hiAt), Load(st1, loAt))))
    else
      // RTS
      var pulled :- PullDoubleWord(st);
      Ok(pulled.0.(pc := pulled.1))
  }

  /// BMI, BVC, BVS, BCC, BCS, BNE and BEQ.
  function BranchArm(st: State, high: bv8): (r: Result<State>)
    requires st.Valid()
    requires IsBranchColumn(high)
    ensures r.Err? ==> r == Err(ArithmeticOverflow)
  {
    if high == 0x3 then
      // BMI
      if IsSet(st.p, Negative) then RelativeJump(st) else AdvancePc(st, 2)
    else if high == 0x5 then
      // BVC: a clear V leaves PC where it is
      if !IsSet(st.p, Overflow) then Ok(st) else AdvancePc(st, 2)
    else if high == 0x7 then
      // BVS
      if IsSet(st.p, Overflow) then RelativeJump(st) else AdvancePc(st, 2)
    else if high == 0x9 then BranchOn(st, !IsSet(st.p, Carry))  // BCC
    else if high == 0xB then BranchOn(st, IsSet(st.p, Carry))   // BCS
    else if high == 0xD then BranchOn(st, !IsSet(st.p, Zero))   // BNE
    else BranchOn(st, IsSet(st.p, Zero))                        // BEQ
  }

  /// LDY # (column A), CPY # (column C) and CPX # (column E).
  function RegisterArm(st: State, high: bv8): (r: Result<State>)
    requires st.Valid()
    requires high == 0xA || high == 0xC || high == 0xE
    ensures r.Err? ==> r == Err(ArithmeticOverflow)
  {
    if high == 0xA then
      // LDY #: the byte after the opcode is used as an address; PC stays
      var at :- CheckedDoubleAddWord(st.pc, 1);
      Ok(st.(y := Load(st, AsDoubleWord(Load(st, at)))))
    else
      // CPY #, CPX #
      var st1 :- Compare(st, if high == 0xC then st.y else st.x);
      AdvancePc(st1, 2)
  }

  /// Row 1 of the matrix: ORA, AND, EOR with (ind,X) in the even columns
  /// and (ind),Y in the odd ones; A is written back and Z/N set from it.
  function RowOne(st: State, instr: Word, high: bv8): (r: Result<State>)
    requires st.Valid()
    requires high < 0x10
    ensures high >= 6 <==> r == Err(Unimplemented(instr))
    ensures r.Err? ==> r == Err(Unimplemented(instr)) || r == Err(ArithmeticOverflow)
  {
    if high < 6 then
      var v :- IndirectOperand(st, high);
      var a := RowOneResult(st.a, v, high);
      AdvancePc(st.(a := a, p := FlagsZN(st.p, a)), 2)
    else Err(Unimplemented(instr))
  }

  /// The operand of a row 1 arm: (ind,X) in the even columns, (ind),Y in
  /// the odd ones.
  function IndirectOperand(st: State, high: bv8): (r: Result<Word>)
    requires st.Valid()
  {
    if high % 2 == 0 then IndirectX(st) else IndirectY(st)
  }

  /// The new A of a row 1 arm: ORA in columns 0-1, AND in 2-3, EOR in 4-5.
  function RowOneResult(acc: Word, v: Word, high: bv8): (r: Word)
  {
    if high < 2 then acc | v else if high < 4 then acc & v else acc ^ v
  }

  /// `exec` as written: the row is `low_nibble`, which is the whole byte.
  function ExecAsWritten(st: State, instr: Word): (r: Result<State>)
    requires st.Valid()
    ensures r.Ok? ==> instr == 0x01
  {
    Dispatch(st, instr, LowNibbleAsWritten(instr), Cpu.HighNibble(instr))
  }

  /// `exec` with the row taken from the low four bits, as `low_nibble` in
  /// `src/cpu/mod.rs` computes it.
  function Exec(st: State, instr: Word): (r: Result<State>)
    requires st.Valid()
    ensures r != Err(NibbleOutOfRange(instr))
  {
    Dispatch(st, instr, Cpu.LowNibble(instr), Cpu.HighNibble(instr))
  }

  /// The opcodes whose arms do something other than `unimplemented!()`:
  /// JSR, RTS, the branches, LDY #, CPY #, CPX #, and ORA/AND/EOR in their
  /// two indirect forms.
  predicate Implemented(instr: Word)
  {
    || instr == 0x20 || instr == 0x30 || instr == 0x50 || instr == 0x60 || instr == 0x70
    || instr == 0x90 || instr == 0xA0 || instr == 0xB0 || instr == 0xC0 || instr == 0xD0
    || instr == 0xE0 || instr == 0xF0
    || instr == 0x01 || instr == 0x11 || instr == 0x21 || instr == 0x31 || instr == 0x41 || instr == 0x51
  }
}
