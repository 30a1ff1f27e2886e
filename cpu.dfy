/// The CPU of `System<FamicomMemory>` as functions of its state: the
/// registers, the RAM contents and the cartridge contents.  Every operation
/// gives the new state or the panic it ends in; the class `System` runs the
/// same operations in place and is proved against these functions.
module Cpu {
  import opened Outcome
  import opened Words
  import opened Status
  import opened Alu
  import opened Bus

  /// The registers of `System` and the contents of its memory.
  datatype State = State(a: Word, x: Word, y: Word, pc: DoubleWord, s: Word, p: Word,
                         ram: seq<Word>, cart: seq<Word>)
  {
    predicate Valid()
    {
      |ram| == RAM_SIZE_BYTES && |cart| == CART_SIZE_BYTES
    }
  }

  /// `low_nibble`: bits 3-0.
  function LowNibble(b: Word): (r: bv8)
    ensures r < 0x10
  {
    b & 0x0F
  }

  /// `high_nibble`: bits 7-4, shifted down.
  function HighNibble(b: Word): (r: bv8)
    ensures r < 0x10
  {
    (b & 0xF0) >> 4
  }

  /// The two nibbles put back together give the byte.
  lemma NibblesRebuildByte(b: Word)
    ensures (HighNibble(b) << 4) | LowNibble(b) == b
  {
  }

  // Memory.

  /// What a load from `address` gives: the fault that stopped the address
  /// computation, or the RAM cell the address folds onto, or the cartridge
  /// byte; anything else has no byte to give.
  predicate ReadsByte(st: State, address: Result<DoubleWord>, r: Result<Word>)
    requires st.Valid()
  {
    && (address.Err? ==> r == Err(address.fault))
    && (address.Ok? ==> (r.Ok? <==> address.value < 0x2000 || address.value >= 0x8000))
    && (address.Ok? && address.value < 0x2000 ==> r == Ok(st.ram[RamIndex(address.value)]))
    && (address.Ok? && address.value >= 0x8000 ==> r == Ok(st.cart[address.value as int - 0x8000]))
  }

  /// `System::load`.
  function Load(st: State, address: DoubleWord): (r: Result<Word>)
    requires st.Valid()
    ensures ReadsByte(st, Ok(address), r)
  {
    LoadSpec(st.ram, st.cart, address)
  }

  /// `System::store`: only the RAM contents can change.
  function Store(st: State, address: DoubleWord, v: Word): (r: Result<State>)
    requires st.Valid()
    ensures r.Ok? ==> r.value.Valid() && r.value == st.(ram := r.value.ram)
  {
    var ram :- StoreSpec(st.ram, address, v);
    Ok(st.(ram := ram))
  }

  /// `load_offset`: the byte zero-extended to an `i16`, given as its 16-bit
  /// pattern.
  function LoadOffset(st: State, address: DoubleWord): (r: Result<bv16>)
    requires st.Valid()
    ensures r.Ok? <==> Load(st, address).Ok?
    ensures r.Ok? ==> r.value < 0x100 && r.value as Word == Load(st, address).value
  {
    var w :- Load(st, address);
    Ok(AsDoubleWord(w))
  }

  /// `load_doubleword`: the low byte at `address`, the high byte after it.
  function LoadDoubleWord(st: State, address: DoubleWord): (r: Result<DoubleWord>)
    requires st.Valid()
    ensures address == 0xFFFF ==> r == Err(ArithmeticOverflow)
    ensures r.Ok? ==> Load(st, address).Ok? && Load(st, address + 1).Ok?
    ensures r.Ok? ==> ToWords(r.value) == [Load(st, address).value, Load(st, address + 1).value]
  {
    var lo :- Load(st, address);
    var hiAt :- CheckedDoubleAddWord(address, 1);
    var hi :- Load(st, hiAt);
    ToWordsFromWords(hi, lo);
    Ok(FromWords(hi, lo))
  }

  // Operand and address helpers.

  /// `immediate_value`: the byte after the opcode.
  function ImmediateValue(st: State): (r: Result<Word>)
    requires st.Valid()
    ensures st.pc == 0xFFFF ==> r == Err(ArithmeticOverflow)
    ensures st.pc < 0xFFFF ==> ReadsByte(st, Ok(st.pc + 1), r)
  {
    var at :- CheckedDoubleAddWord(st.pc, 1);
    Load(st, at)
  }

  /// `immediate_address`: that byte as an address.
  function ImmediateAddress(st: State): (r: Result<DoubleWord>)
    requires st.Valid()
    ensures r.Ok? <==> ImmediateValue(st).Ok?
    ensures r.Ok? ==> r.value < 0x100 && r.value as Word == ImmediateValue(st).value
  {
    var w :- ImmediateValue(st);
    Ok(AsDoubleWord(w))
  }

  /// `absolute_address`: the high byte at PC+2 is read first, then the low
  /// byte at PC+1.
  function AbsoluteAddress(st: State): (r: Result<DoubleWord>)
    requires st.Valid()
    ensures st.pc >= 0xFFFE ==> r == Err(ArithmeticOverflow)
    ensures r.Ok? ==> Load(st, st.pc + 1).Ok? && Load(st, st.pc + 2).Ok?
  {
    var hiAt :- CheckedDoubleAdd(st.pc, 2);
    var hi :- Load(st, hiAt);
    var loAt := CheckedDoubleAdd(st.pc, 1).value;  // below PC + 2, so no overflow
    var lo :- Load(st, loAt);
    Ok(FromWords(hi, lo))
  }

  /// `absolute_value`.
  function AbsoluteValue(st: State): (r: Result<Word>)
    requires st.Valid()
    ensures ReadsByte(st, AbsoluteAddress(st), r)
  {
    var address :- AbsoluteAddress(st);
    Load(st, address)
  }

  /// `indirect_address` reads the same two bytes in the same order as
  /// `absolute_address`: there is no second dereference.
  function IndirectAddress(st: State): (r: Result<DoubleWord>)
    requires st.Valid()
    ensures st.pc >= 0xFFFE ==> r == Err(ArithmeticOverflow)
    ensures r.Ok? ==> Load(st, st.pc + 1).Ok? && Load(st, st.pc + 2).Ok?
  {
    AbsoluteAddress(st)
  }

  /// `indirect_value`.
  function IndirectValue(st: State): (r: Result<Word>)
    requires st.Valid()
    ensures ReadsByte(st, IndirectAddress(st), r)
  {
    var address :- IndirectAddress(st);
    Load(st, address)
  }

  /// `indirect_address_x`: the byte after the opcode plus X, wrapped to a
  /// byte; no address is read from the zero page there.
  function IndirectAddressX(st: State): (r: Result<DoubleWord>)
    requires st.Valid()
    ensures r.Ok? <==> ImmediateValue(st).Ok?
    ensures r.Ok? ==> r.value as bv32 == (ImmediateValue(st).value as bv32 + st.x as bv32) % 0x100
  {
    var imm :- ImmediateValue(st);
    Ok(AsDoubleWord(ClAdd(imm, st.x)))
  }

  /// `indirect_value_x`.
  function IndirectValueX(st: State): (r: Result<Word>)
    requires st.Valid()
    ensures ReadsByte(st, IndirectAddressX(st), r)
  {
    var address :- IndirectAddressX(st);
    Load(st, address)
  }

  /// `indirect_value_y`: the zero-page byte named by the operand, plus Y
  /// with an unchecked byte addition.
  function IndirectValueY(st: State): (r: Result<Word>)
    requires st.Valid()
    ensures r.Ok? ==> ImmediateValue(st).Ok? && Load(st, AsDoubleWord(ImmediateValue(st).value)).Ok?
    ensures r.Ok? ==> r.value as bv16 == Load(st, AsDoubleWord(ImmediateValue(st).value)).value as bv16 + st.y as bv16
    ensures ImmediateValue(st).Ok? && Load(st, AsDoubleWord(ImmediateValue(st).value)).Ok?
            && (Load(st, AsDoubleWord(ImmediateValue(st).value)).value as bv16 + st.y as bv16) >= 0x100
            ==> r == Err(ArithmeticOverflow)
  {
    var zp :- ImmediateValue(st);
    var v := Load(st, AsDoubleWord(zp)).value;  // a zero-page load cannot fail
    CheckedAdd(v, st.y)
  }

  /// `zeropage_address` reads the same byte as `immediate_address`.
  function ZeropageAddress(st: State): (r: Result<DoubleWord>)
    requires st.Valid()
    ensures r.Ok? <==> ImmediateValue(st).Ok?
    ensures r.Ok? ==> r.value < 0x100 && r.value as Word == ImmediateValue(st).value
  {
    ImmediateAddress(st)
  }

  /// `zeropage_address_x`: a 16-bit sum, not wrapped to the zero page.
  function ZeropageAddressX(st: State): (r: Result<DoubleWord>)
    requires st.Valid()
    ensures r.Ok? <==> ImmediateValue(st).Ok?
    ensures r.Ok? ==> r.value as bv32 == ImmediateValue(st).value as bv32 + st.x as bv32
  {
    var zp :- ZeropageAddress(st);
    CheckedDoubleAdd(zp, AsDoubleWord(st.x))
  }

  /// `zeropage_address_y` adds X, exactly as `zeropage_address_x` does.
  function ZeropageAddressY(st: State): (r: Result<DoubleWord>)
    requires st.Valid()
    ensures r.Ok? <==> ImmediateValue(st).Ok?
    ensures r.Ok? ==> r.value as bv32 == ImmediateValue(st).value as bv32 + st.x as bv32
  {
    ZeropageAddressX(st)
  }

  /// `zeropage_value`.
  function ZeropageValue(st: State): (r: Result<Word>)
    requires st.Valid()
    ensures ReadsByte(st, ZeropageAddress(st), r)
  {
    var address :- ZeropageAddress(st);
    Load(st, address)
  }

  /// `zeropage_value_x`.
  function ZeropageValueX(st: State): (r: Result<Word>)
    requires st.Valid()
    ensures ReadsByte(st, ZeropageAddressX(st), r)
  {
    var address :- ZeropageAddressX(st);
    Load(st, address)
  }

  /// `zeropage_value_y`.
  function ZeropageValueY(st: State): (r: Result<Word>)
    requires st.Valid()
    ensures ReadsByte(st, ZeropageAddressY(st), r)
  {
    var address :- ZeropageAddressY(st);
    Load(st, address)
  }

  // Stack and program counter.  The stack page is the zero page: S names a
  // RAM cell directly.

  /// `push_word`: the byte goes to zero-page address S, then S grows by one.
  function PushWord(st: State, data: Word): (r: Result<State>)
    requires st.Valid()
    ensures st.s == 0xFF ==> r == Err(ArithmeticOverflow)
    ensures st.s < 0xFF ==> r == Ok(st.(ram := st.ram[st.s as int := data], s := st.s + 1))
  {
    var st1 := Store(st, AsDoubleWord(st.s), data).value;  // the zero page is RAM
    var s :- CheckedAdd(st.s, 1);
    Ok(st1.(s := s))
  }

  /// `push_doubleword`: the low byte at S, the high byte at S+1, then S
  /// grows by two.
  function PushDoubleWord(st: State, data: DoubleWord): (r: Result<State>)
    requires st.Valid()
    ensures st.s >= 0xFE ==> r == Err(ArithmeticOverflow)
    ensures st.s < 0xFE ==> r.Ok? && r.value == st.(ram := r.value.ram, s := st.s + 2)
    ensures st.s < 0xFE ==> r.value.ram == st.ram[st.s as int := ToWords(data)[0]][st.s as int + 1 := ToWords(data)[1]]
  {
    var words := ToWords(data);
    // S and S + 1 are RAM addresses, so neither store can fail.
    var st1 := Store(st, AsDoubleWord(st.s), words[0]).value;
    var hiAt := CheckedDoubleAddWord(AsDoubleWord(st.s), 1).value;
    var st2 := Store(st1, hiAt, words[1]).value;
    var s :- CheckedAdd(st.s, 2);
    Ok(st2.(s := s))
  }

  /// `pull_word`: S shrinks by one, then the byte at S is read.
  function PullWord(st: State): (r: Result<(State, Word)>)
    requires st.Valid()
    ensures st.s == 0 ==> r == Err(ArithmeticOverflow)
    ensures st.s > 0 ==> r == Ok((st.(s := st.s - 1), st.ram[st.s as int - 1]))
  {
    var s :- CheckedSub(st.s, 1);
    var st1 := st.(s := s);
    var v := Load(st1, AsDoubleWord(s)).value;  // the zero page is RAM
    Ok((st1, v))
  }

  /// `pull_doubleword`: S shrinks by two, then the doubleword at S is read.
  function PullDoubleWord(st: State): (r: Result<(State, DoubleWord)>)
    requires st.Valid()
    ensures st.s < 2 ==> r == Err(ArithmeticOverflow)
    ensures st.s >= 2 ==> r.Ok? && r.value.0 == st.(s := st.s - 2)
    ensures st.s >= 2 ==> ToWords(r.value.1) == [st.ram[st.s as int - 2], st.ram[st.s as int - 1]]
  {
    var s :- CheckedSub(st.s, 2);
    var st1 := st.(s := s);
    var d := LoadDoubleWord(st1, AsDoubleWord(s)).value;  // S and S + 1 are RAM
    Ok((st1, d))
  }

  /// `advance_pc_1`/`_2`/`_3`.
  function AdvancePc(st: State, n: Word): (r: Result<State>)
    ensures r.Ok? <==> (st.pc as bv32 + n as bv32) >> 16 == 0
    ensures r.Ok? ==> r.value == st.(pc := r.value.pc)
  {
    var pc :- CheckedDoubleAddWord(st.pc, n);
    Ok(st.(pc := pc))
  }

  /// `relative_jump`: PC plus the byte after the opcode, read by
  /// `load_offset` and so never negative; the `i16` sum panics when it
  /// crosses from below 0x8000 to 0x8000 or above.
  function RelativeJump(st: State): (r: Result<State>)
    requires st.Valid()
    ensures st.pc == 0xFFFF ==> r == Err(ArithmeticOverflow)
    ensures r.Ok? ==> r.value == st.(pc := r.value.pc)
  {
    var at :- CheckedDoubleAddWord(st.pc, 1);
    var offset :- LoadOffset(st, at);
    var pc :- CheckedAddI16(st.pc, offset);
    Ok(st.(pc := pc))
  }

  /// `branch_on`: jump when the condition holds, else skip the two bytes of
  /// the branch.
  function BranchOn(st: State, cond: bool): (r: Result<State>)
    requires st.Valid()
    ensures cond ==> r == RelativeJump(st)
    ensures !cond ==> (r.Ok? <==> st.pc <= 0xFFFD)
    ensures !cond && r.Ok? ==> r.value == st.(pc := st.pc + 2)
  {
    if cond then RelativeJump(st) else AdvancePc(st, 2)
  }

  /// `System::reset`: every register becomes zero; memory is untouched.
  function Reset(st: State): (r: State)
    ensures r.a == 0 && r.x == 0 && r.y == 0 && r.s == 0 && r.p == 0 && r.pc == 0
    ensures r.ram == st.ram && r.cart == st.cart
  {
    st.(a := 0, x := 0, y := 0, s := 0, p := 0, pc := 0)
  }

  // The decoder of `alternate_exec`.

  /// The operand stage's results: the `operand` and `address` locals and
  /// the `pc_offset` the instruction is advanced by.
  datatype Operand = Operand(value: Option<Word>, address: Option<DoubleWord>, pcOffset: DoubleWord)

  const NoOperand := Operand(None, None, 0)

  /// An addressing mode's value, then its address.
  function Fetched(value: Result<Word>, address: Result<DoubleWord>, offset: DoubleWord): Result<Operand>
  {
    var v :- value;
    var at :- address;
    Ok(Operand(Some(v), Some(at), offset))
  }

  /// `Option::unwrap`.
  function Unwrap<T>(o: Option<T>): Result<T>
  {
    if o.Some? then Ok(o.value) else Err(MissingOperand)
  }

  /// The first `match` of `alternate_exec`, on bbb, then cc and aaa.
  function ResolveOperand(st: State, instr: Word): (r: Result<Operand>)
    requires st.Valid()
    ensures Bbb(instr) >= 5 ==> r == Err(Unimplemented(instr))
    ensures r.Ok? ==> r.value.pcOffset == 0 || r.value.pcOffset == 2 || r.value.pcOffset == 3
    ensures r.Ok? ==> (r.value.value.Some? <==> r.value.pcOffset != 0)
    ensures r.Ok? ==> (r.value.address.Some? <==> r.value.pcOffset != 0)
  {
    var aaa, bbb, cc := Aaa(instr), Bbb(instr), Cc(instr);
    if bbb == 0 then
      if cc == 0 then
        if aaa == 1 then Fetched(AbsoluteValue(st), AbsoluteAddress(st), 3)
        else if aaa >= 5 then Fetched(ImmediateValue(st), ImmediateAddress(st), 2)
        else Ok(NoOperand)
      else if cc == 1 then Fetched(IndirectValueX(st), IndirectAddressX(st), 3)
      else if cc == 2 then
        if aaa == 5 then Fetched(ImmediateValue(st), ImmediateAddress(st), 2) else Ok(NoOperand)
      else Err(Unimplemented(instr))
    else if bbb == 1 then Fetched(ZeropageValue(st), ZeropageAddress(st), 2)
    else if bbb == 2 then
      if cc == 1 then Fetched(ImmediateValue(st), ImmediateAddress(st), 2) else Ok(NoOperand)
    else if bbb == 3 then
      if aaa == 2 && cc == 0 then Fetched(IndirectValue(st), IndirectAddress(st), 3)
      else Fetched(AbsoluteValue(st), AbsoluteAddress(st), 3)
    else if bbb == 4 then
      if cc == 1 then
        var _ :- Fetched(IndirectValueX(st), IndirectAddressX(st), 3);
        Err(Unimplemented(instr))
      else Ok(NoOperand)
    else Err(Unimplemented(instr))
  }

  /// The second `match` of `alternate_exec`, on cc, then aaa and bbb.
  function Operate(st: State, instr: Word, op: Operand): (r: Result<State>)
    requires st.Valid()
    ensures r.Ok? ==> r.value.Valid() && r.value.pc == st.pc && r.value.cart == st.cart
  {
    var aaa, bbb, cc := Aaa(instr), Bbb(instr), Cc(instr);
    if cc == 1 then GroupOne(st, aaa, op)
    else if cc == 2 then
      if aaa == 4 then
        // STX (bbb 1, 3, 5) and TXS (bbb 6) have empty arms.
        if bbb == 1 || bbb == 3 || bbb == 5 || bbb == 6 then Ok(st) else Err(Unimplemented(instr))
      else if aaa == 5 then
        // LDX
        if bbb == 0 || bbb == 1 || bbb == 3 || bbb == 5 || bbb == 7 then
          var v :- Unwrap(op.value);
          Ok(st.(x := v))
        else Err(Unimplemented(instr))
      else Err(Unimplemented(instr))
    else Err(Unimplemented(instr))
  }

  /// The cc=1 arm: ORA, AND, EOR, ADC, STA, LDA, CMP, SBC by aaa.
  function GroupOne(st: State, aaa: bv8, op: Operand): (r: Result<State>)
    requires st.Valid()
    ensures r.Ok? ==> r.value.Valid() && r.value.pc == st.pc && r.value.cart == st.cart
  {
    if aaa == 4 then
      var at :- Unwrap(op.address);
      Store(st, at, st.a)
    else
      var v :- Unwrap(op.value);
      if aaa == 0 then
        var (ret, p) := Or(st.p, st.a, v);
        Ok(st.(a := ret, p := p))
      else if aaa == 1 then Ok(st.(p := And(st.p, st.a, v).1))
      else if aaa == 2 then Ok(st.(p := Eor(st.p, st.a, v).1))
      else if aaa == 3 then Ok(st.(p := OpCarry(st.p, st.a, v, Add).1))
      else if aaa == 5 then Ok(st.(a := v))
      else if aaa == 6 then Ok(st.(p := CompareFlags(st.p, st.a, v)))
      else Ok(st.(p := OpCarry(st.p, st.a, v, Sub).1))
  }

  /// `alternate_exec`: operand stage, operation, then PC plus `pc_offset`.
  function Step(st: State, instr: Word): (r: Result<State>)
    requires st.Valid()
    ensures r.Ok? ==> r.value.Valid() && r.value.cart == st.cart
  {
    var op :- ResolveOperand(st, instr);
    var st1 :- Operate(st, instr, op);
    var pc :- CheckedDoubleAdd(st1.pc, op.pcOffset);
    Ok(st1.(pc := pc))
  }

  /// `advance_exec`: the opcode at PC, executed.
  function AdvanceExec(st: State): (r: Result<State>)
    requires st.Valid()
    ensures r.Ok? ==> r.value.Valid() && r.value.cart == st.cart
  {
    var instr :- Load(st, st.pc);
    Step(st, instr)
  }

  /// `count` successive `advance_exec` calls, stopping at the first panic.
  function Run(st: State, count: nat): (r: Result<State>)
    requires st.Valid()
    ensures count == 0 ==> r == Ok(st)
    ensures r.Ok? ==> r.value.Valid() && r.value.cart == st.cart
    decreases count, 1
  {
    if count == 0 then Ok(st) else RunNext(st, count)
  }

  /// A run with at least one instruction to go: `advance_exec`, then the
  /// rest of the run.
  function RunNext(st: State, count: nat): (r: Result<State>)
    requires st.Valid() && count > 0
    ensures AdvanceExec(st).Err? ==> r == Err(AdvanceExec(st).fault)
    ensures r.Ok? ==> r.value.Valid() && r.value.cart == st.cart
    decreases count, 0
  {
    var st1 :- AdvanceExec(st);
    Run(st1, count - 1)
  }

  /// A run of `n` instructions that gets past the first one is the run of
  /// the other `n - 1` from the state that instruction leaves; one that
  /// does not stops with the first instruction's fault.
  lemma RunAfterStep(st: State, stepped: Result<State>, n: nat)
    requires st.Valid() && n > 0 && AdvanceExec(st) == stepped
    ensures stepped.Ok? ==> stepped.value.Valid() && Run(st, n) == Run(stepped.value, n - 1)
    ensures stepped.Err? ==> Run(st, n) == Err(stepped.fault)
  {
    assert Run(st, n) == RunNext(st, n);
  }

  /// The two cases of `RunAfterStep`, one lemma each.
  lemma RunGoesOn(st: State, next: State, n: nat)
    requires st.Valid() && n > 0 && AdvanceExec(st) == Ok(next)
    ensures next.Valid() && Run(st, n) == Run(next, n - 1)
  {
    RunAfterStep(st, Ok(next), n);
  }

  lemma RunStopsAt(st: State, f: Fault, n: nat)
    requires st.Valid() && n > 0 && AdvanceExec(st) == Err(f)
    ensures Run(st, n) == Err(f)
  {
    RunAfterStep(st, Err(f), n);
  }
}
