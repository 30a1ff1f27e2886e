/// What the CPU's `alternate_exec` makes of the bytes the assembler's
/// `emit` writes: the cc=01 opcodes decode to the operation they were
/// assembled from, the decoder's PC advance is the length of the encoded
/// instruction exactly when the decoder implements the opcode, and the
/// operand the decoder fetches is the one the assembler wrote.
module RoundTrip {
  import opened Outcome
  import opened Words
  import opened Assembler
  import Cpu
  import CpuProperties

  /// The operation the cc=1 arm of `alternate_exec` performs for each aaa.
  function GroupOneOperation(aaa: bv8): (i: Instruction)
    requires aaa < 8
    ensures i.ORA? || i.AND? || i.EOR? || i.ADC? || i.STA? || i.LDA? || i.CMP? || i.SBC?
  {
    if aaa == 0 then ORA
    else if aaa == 1 then AND
    else if aaa == 2 then EOR
    else if aaa == 3 then ADC
    else if aaa == 4 then STA
    else if aaa == 5 then LDA
    else if aaa == 6 then CMP
    else SBC
  }

  /// The mnemonics the assembler gives cc=01.
  predicate InGroupOne(i: Instruction)
  {
    i.ORA? || i.AND? || i.EOR? || i.ADC? || i.STA? || i.LDA? || i.CMP? || i.SBC?
  }

  /// The operand forms a cc=01 opcode accepts.
  predicate GroupOneMode(m: AddrMode)
  {
    m.Absolute? || m.AbsoluteX? || m.AbsoluteY? || m.Immediate?
  }

  /// Decoding then encoding: the mnemonic the decoder runs for an aaa is
  /// assembled with that aaa and cc=01.
  lemma DecodeThenEncode(aaa: bv8)
    requires aaa < 8
    ensures Cc(BaseOpcode(GroupOneOperation(aaa))) == 1
    ensures Aaa(BaseOpcode(GroupOneOperation(aaa))) == aaa
  {
    var b := BaseOpcode(GroupOneOperation(aaa));
    if aaa < 4 {
      assert b == (if aaa == 0 then 0x01 else if aaa == 1 then 0x21 else if aaa == 2 then 0x41 else 0x61);
    } else {
      assert b == (if aaa == 4 then 0x81 else if aaa == 5 then 0xA1 else if aaa == 6 then 0xC1 else 0xE1);
    }
  }

  /// Encoding then decoding: every cc=01 mnemonic with each operand form
  /// it accepts is assembled to a cc=1 byte that the decoder runs as the
  /// same operation; the decoder implements the absolute and immediate
  /// forms, advancing PC by the length of the encoded instruction, and
  /// not the indexed ones.
  lemma EncodeThenDecode(i: Instruction, m: AddrMode)
    requires InGroupOne(i) && GroupOneMode(m)
    ensures Opcode(BaseOpcode(i), Some(m)).Ok?
    ensures var b := Opcode(BaseOpcode(i), Some(m)).value;
            && Cc(b) == 1
            && GroupOneOperation(Aaa(b)) == i
            && (CpuProperties.Implemented(b) <==> m.Absolute? || m.Immediate?)
            && (CpuProperties.Implemented(b) ==> CpuProperties.PcOffset(b) as int == 1 + |OperandBytes(m)|)
  {
    GroupOneInstructions(i);
    var base := BaseOpcode(i);
    GroupOneAddressing(base, m);
    var b := Opcode(base, Some(m)).value;
    OpcodeKeepsAaaCc(base, Some(m));
    GroupOneOperationOfBase(i);
    GroupOneDecoding(b);
    assert |OperandBytes(m)| == if m.Immediate? then 1 else 2;
  }

  /// The aaa the assembler gives a cc=01 mnemonic selects that mnemonic's
  /// arm in the decoder.
  lemma GroupOneOperationOfBase(i: Instruction)
    requires InGroupOne(i)
    ensures Aaa(BaseOpcode(i)) < 8 && GroupOneOperation(Aaa(BaseOpcode(i))) == i
  {
    if i.ORA? || i.AND? || i.EOR? || i.ADC? {
      assert Aaa(BaseOpcode(i)) == if i.ORA? then 0 else if i.AND? then 1 else if i.EOR? then 2 else 3;
    } else {
      assert Aaa(BaseOpcode(i)) == if i.STA? then 4 else if i.LDA? then 5 else if i.CMP? then 6 else 7;
    }
  }

  /// The decoder runs a cc=1 byte exactly when bbb is 0 to 3, advancing
  /// PC by 3 for bbb 011 and by 2 for bbb 010.
  lemma GroupOneDecoding(b: Word)
    requires Cc(b) == 1
    ensures CpuProperties.Implemented(b) <==> Bbb(b) < 4
    ensures Bbb(b) == 3 ==> CpuProperties.PcOffset(b) == 3
    ensures Bbb(b) == 2 ==> CpuProperties.PcOffset(b) == 2
  {
  }

  /// LDX and STX, the two cc=10 mnemonics the decoder has arms for: all
  /// three absolute forms give the same byte, bbb 011, which the decoder
  /// runs with a 3-byte advance; an immediate operand gives bbb 000, which
  /// the decoder runs for LDX with a 2-byte advance and not at all for STX.
  lemma LoadStoreXDecoding(i: Instruction, m: AddrMode)
    requires i.LDX? || i.STX?
    requires GroupOneMode(m)
    ensures Opcode(BaseOpcode(i), Some(m)).Ok?
    ensures var b := Opcode(BaseOpcode(i), Some(m)).value;
            && Cc(b) == 2
            && Aaa(b) == (if i.LDX? then 5 else 4)
            && (m.Immediate? || Opcode(BaseOpcode(i), Some(m)) == Opcode(BaseOpcode(i), Some(Absolute(0))))
            && (CpuProperties.Implemented(b) <==> i.LDX? || !m.Immediate?)
            && (CpuProperties.Implemented(b) ==> CpuProperties.PcOffset(b) as int == 1 + |OperandBytes(m)|)
  {
    GroupTwoInstructions(i);
    var base := BaseOpcode(i);
    GroupTwoAddressing(base, m);
    GroupTwoAddressing(base, Absolute(0));
    OpcodeKeepsAaaCc(base, Some(m));
    DecodedLoadStoreX(i, Opcode(base, Some(m)).value, m);
  }

  lemma DecodedLoadStoreX(i: Instruction, b: Word, m: AddrMode)
    requires i.LDX? || i.STX?
    requires GroupOneMode(m)
    requires Cc(b) == 2 && Aaa(b) == (if i.LDX? then 5 else 4)
    requires Bbb(b) == (if m.Immediate? then 0 else 3)
    ensures CpuProperties.Implemented(b) <==> i.LDX? || !m.Immediate?
    ensures CpuProperties.Implemented(b) ==> CpuProperties.PcOffset(b) as int == 1 + |OperandBytes(m)|
  {
  }

  /// The instructions the assembler encodes with cc=00, the fixed-byte
  /// ones included, never run: every cc=0 arm of the decoder is
  /// `unimplemented!()`.
  lemma GroupZeroNeverRuns(st: Cpu.State, i: Instruction)
    requires st.Valid()
    requires Cc(BaseOpcode(i)) == 0
    ensures Cpu.Step(st, BaseOpcode(i)).Err?
  {
    CpuProperties.StepOnlyImplemented(st, BaseOpcode(i));
  }

  // The decoder reading an assembled instruction from memory.

  /// The bytes of an instruction lie at PC, PC+1 and so on, in memory the
  /// decoder can load.
  predicate Placed(st: Cpu.State, bytes: seq<Word>)
    requires st.Valid()
  {
    && 1 <= |bytes| <= 3
    && Cpu.Load(st, st.pc) == Ok(bytes[0])
    && (|bytes| >= 2 ==> CheckedDoubleAdd(st.pc, 1).Ok? && Cpu.Load(st, CheckedDoubleAdd(st.pc, 1).value) == Ok(bytes[1]))
    && (|bytes| >= 3 ==> CheckedDoubleAdd(st.pc, 2).Ok? && Cpu.Load(st, CheckedDoubleAdd(st.pc, 2).value) == Ok(bytes[2]))
  }

  /// With an assembled cc=01 instruction in place, the decoder's operand
  /// stage fetches exactly what was assembled: the immediate byte, or the
  /// byte at the absolute address written low byte first.
  lemma FetchesAssembledOperand(st: Cpu.State, i: Instruction, m: AddrMode)
    requires st.Valid()
    requires InGroupOne(i) && (m.Absolute? || m.Immediate?)
    requires Encode(ParsedInstruction(Some(i), Some(m))).Ok?
    requires Placed(st, Encode(ParsedInstruction(Some(i), Some(m))).value)
    ensures var b := Encode(ParsedInstruction(Some(i), Some(m))).value[0];
            && (m.Immediate? ==> Cpu.ResolveOperand(st, b) == Ok(Cpu.Operand(Some(m.value), Some(AsDoubleWord(m.value)), 2)))
            && (m.Absolute? ==> Cpu.ResolveOperand(st, b) == Cpu.Fetched(Cpu.Load(st, m.address), Ok(m.address), 3))
  {
    var bytes := Encode(ParsedInstruction(Some(i), Some(m))).value;
    AssembledGroupOne(i, m);
    if m.Immediate? {
      FetchesImmediate(st, bytes[0], bytes[1]);
    } else {
      FetchesAbsolute(st, bytes[0], bytes[1], bytes[2]);
    }
  }

  /// The bytes of an assembled cc=01 instruction with an absolute or
  /// immediate operand: the opcode with bbb 011 or 010, then the operand.
  lemma AssembledGroupOne(i: Instruction, m: AddrMode)
    requires InGroupOne(i) && (m.Absolute? || m.Immediate?)
    ensures Encode(ParsedInstruction(Some(i), Some(m))).Ok?
    ensures var bytes := Encode(ParsedInstruction(Some(i), Some(m))).value;
            && Cc(bytes[0]) == 1
            && (m.Immediate? ==> |bytes| == 2 && Bbb(bytes[0]) == 2 && bytes[1] == m.value)
            && (m.Absolute? ==> |bytes| == 3 && Bbb(bytes[0]) == 3 && FromWords(bytes[2], bytes[1]) == m.address)
  {
    EncodeThenDecode(i, m);
    var b := Opcode(BaseOpcode(i), Some(m)).value;
    GroupOneInstructions(i);
    GroupOneOpcodeFields(BaseOpcode(i), m, b);
    EncodedAs(i, m, b);
    if m.Absolute? {
      assert OperandBytes(m) == ToWords(m.address);
      FromWordsToWords(m.address);
    }
  }

  /// The cc and bbb fields of that opcode.
  lemma GroupOneOpcodeFields(base: Word, m: AddrMode, b: Word)
    requires Cc(base) == 1 && (m.Absolute? || m.Immediate?)
    requires Opcode(base, Some(m)) == Ok(b)
    ensures Cc(b) == 1
    ensures m.Immediate? ==> Bbb(b) == 2
    ensures m.Absolute? ==> Bbb(b) == 3
  {
    GroupOneAddressing(base, m);
  }

  /// An instruction whose opcode is `b` is encoded as `b` and then its
  /// operand bytes.
  lemma EncodedAs(i: Instruction, m: AddrMode, b: Word)
    requires Opcode(BaseOpcode(i), Some(m)) == Ok(b)
    ensures Encode(ParsedInstruction(Some(i), Some(m))) == Ok([b] + OperandBytes(m))
  {
  }

  /// The operand stage of a cc=1 byte with bbb 010 reads the byte after
  /// the opcode.
  lemma FetchesImmediate(st: Cpu.State, b: Word, v: Word)
    requires st.Valid()
    requires Cc(b) == 1 && Bbb(b) == 2
    requires CheckedDoubleAdd(st.pc, 1).Ok? && Cpu.Load(st, CheckedDoubleAdd(st.pc, 1).value) == Ok(v)
    ensures Cpu.ResolveOperand(st, b) == Ok(Cpu.Operand(Some(v), Some(AsDoubleWord(v)), 2))
  {
    NextByte(st.pc);
  }

  /// The operand stage of a cc=1 byte with bbb 011 reads the address
  /// after the opcode, low byte first, and the byte there.
  lemma FetchesAbsolute(st: Cpu.State, b: Word, lo: Word, hi: Word)
    requires st.Valid()
    requires Cc(b) == 1 && Bbb(b) == 3
    requires CheckedDoubleAdd(st.pc, 1).Ok? && Cpu.Load(st, CheckedDoubleAdd(st.pc, 1).value) == Ok(lo)
    requires CheckedDoubleAdd(st.pc, 2).Ok? && Cpu.Load(st, CheckedDoubleAdd(st.pc, 2).value) == Ok(hi)
    ensures Cpu.ResolveOperand(st, b)
         == Cpu.Fetched(Cpu.Load(st, FromWords(hi, lo)), Ok(FromWords(hi, lo)), 3)
  {
    assert Cpu.AbsoluteAddress(st) == Ok(FromWords(hi, lo));
  }

  /// Adding 1 as a byte or as a doubleword is the same checked sum.
  lemma NextByte(pc: DoubleWord)
    ensures CheckedDoubleAddWord(pc, 1) == CheckedDoubleAdd(pc, 1)
  {
  }

  /// An assembled `LDA #$hh` in place, when run, leaves hh in A and PC
  /// after the two bytes of the instruction.
  lemma RunsAssembledLoad(st: Cpu.State, v: Word)
    requires st.Valid()
    requires Encode(ParsedInstruction(Some(LDA), Some(Immediate(v)))).Ok?
    requires Placed(st, Encode(ParsedInstruction(Some(LDA), Some(Immediate(v)))).value)
    requires Cpu.Step(st, Encode(ParsedInstruction(Some(LDA), Some(Immediate(v)))).value[0]).Ok?
    ensures var r := Cpu.Step(st, Encode(ParsedInstruction(Some(LDA), Some(Immediate(v)))).value[0]).value;
            r.a == v && CheckedDoubleAdd(st.pc, 2) == Ok(r.pc)
  {
    var b := Encode(ParsedInstruction(Some(LDA), Some(Immediate(v)))).value[0];
    FetchesAssembledOperand(st, LDA, Immediate(v));
    EncodeThenDecode(LDA, Immediate(v));
    CpuProperties.StepLda(st, b);
    CpuProperties.StepAdvancesPc(st, b);
  }
}
