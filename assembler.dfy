/// The line assembler: a line is split into a mnemonic and an operand, the
/// mnemonic is looked up in the 56-entry table, the operand is matched
/// against nine fixed textual forms, and `emit` builds the opcode byte from
/// its aaa/bbb/cc fields and appends the operand bytes, low byte first.
module Assembler {
  import opened Outcome
  import opened Words

  /// `Instructions`.
  datatype Instruction =
    | ADC | AND | ASL | BCC | BCS | BEQ | BIT | BMI | BNE | BPL | BRK | BVC | BVS
    | CLC | CLD | CLI | CLV | CMP | CPX | CPY | DEC | DEX | DEY | EOR | INC | INX
    | INY | JMP | JSR | LDA | LDX | LDY | LSR | NOP | ORA | PHA | PHP | PLA | PLP
    | ROL | ROR | RTI | RTS | SBC | SEC | SED | SEI | STA | STX | STY | TAX | TAY
    | TSX | TXA | TXS | TYA

  /// `AddrModes`: the operand as parsed.
  datatype AddrMode =
    | Absolute(address: DoubleWord)
    | AbsoluteX(address: DoubleWord)
    | AbsoluteY(address: DoubleWord)
    | Immediate(value: Word)
    | Implied
    | Indirect(address: DoubleWord)
    | IndirectX(value: Word)
    | IndirectY(value: Word)
    | Relative(value: Word)
    | Zeropage(value: Word)
    | ZeropageX(value: Word)
    | ZeropageY(value: Word)

  /// `ParsedInstruction`.
  datatype ParsedInstruction = ParsedInstruction(instr: Option<Instruction>, operand: Option<AddrMode>)

  // Mnemonics.

  /// `eval_operation`: the mnemonic table; anything else panics.
  function EvalOperation(op: string): (r: Result<Instruction>)
    ensures r.Err? ==> r == Err(UnknownOperation(op))
    ensures r.Ok? ==> |op| == 3
  {
    match op
    case "ADC" => Ok(ADC)
    case "AND" => Ok(AND)
    case "ASL" => Ok(ASL)
    case "BCC" => Ok(BCC)
    case "BCS" => Ok(BCS)
    case "BEQ" => Ok(BEQ)
    case "BIT" => Ok(BIT)
    case "BMI" => Ok(BMI)
    case "BNE" => Ok(BNE)
    case "BPL" => Ok(BPL)
    case "BRK" => Ok(BRK)
    case "BVC" => Ok(BVC)
    case "BVS" => Ok(BVS)
    case "CLC" => Ok(CLC)
    case "CLD" => Ok(CLD)
    case "CLI" => Ok(CLI)
    case "CLV" => Ok(CLV)
    case "CMP" => Ok(CMP)
    case "CPX" => Ok(CPX)
    case "CPY" => Ok(CPY)
    case "DEC" => Ok(DEC)
    case "DEX" => Ok(DEX)
    case "DEY" => Ok(DEY)
    case "EOR" => Ok(EOR)
    case "INC" => Ok(INC)
    case "INX" => Ok(INX)
    case "INY" => Ok(INY)
    case "JMP" => Ok(JMP)
    case "JSR" => Ok(JSR)
    case "LDA" => Ok(LDA)
    case "LDX" => Ok(LDX)
    case "LDY" => Ok(LDY)
    case "LSR" => Ok(LSR)
    case "NOP" => Ok(NOP)
    case "ORA" => Ok(ORA)
    case "PHA" => Ok(PHA)
    case "PHP" => Ok(PHP)
    case "PLA" => Ok(PLA)
    case "PLP" => Ok(PLP)
    case "ROL" => Ok(ROL)
    case "ROR" => Ok(ROR)
    case "RTI" => Ok(RTI)
    case "RTS" => Ok(RTS)
    case "SBC" => Ok(SBC)
    case "SEC" => Ok(SEC)
    case "SED" => Ok(SED)
    case "SEI" => Ok(SEI)
    case "STA" => Ok(STA)
    case "STX" => Ok(STX)
    case "STY" => Ok(STY)
    case "TAX" => Ok(TAX)
    case "TAY" => Ok(TAY)
    case "TSX" => Ok(TSX)
    case "TXA" => Ok(TXA)
    case "TXS" => Ok(TXS)
    case "TYA" => Ok(TYA)
    case _ => Err(UnknownOperation(op))
  }

  /// The text of each mnemonic: the variant's name.
  function Mnemonic(i: Instruction): (s: string)
    ensures |s| == 3 && forall k :: 0 <= k < 3 ==> 'A' <= s[k] <= 'Z'
  {
    match i
    case ADC => "ADC" case AND => "AND" case ASL => "ASL" case BCC => "BCC"
    case BCS => "BCS" case BEQ => "BEQ" case BIT => "BIT" case BMI => "BMI"
    case BNE => "BNE" case BPL => "BPL" case BRK => "BRK" case BVC => "BVC"
    case BVS => "BVS" case CLC => "CLC" case CLD => "CLD" case CLI => "CLI"
    case CLV => "CLV" case CMP => "CMP" case CPX => "CPX" case CPY => "CPY"
    case DEC => "DEC" case DEX => "DEX" case DEY => "DEY" case EOR => "EOR"
    case INC => "INC" case INX => "INX" case INY => "INY" case JMP => "JMP"
    case JSR => "JSR" case LDA => "LDA" case LDX => "LDX" case LDY => "LDY"
    case LSR => "LSR" case NOP => "NOP" case ORA => "ORA" case PHA => "PHA"
    case PHP => "PHP" case PLA => "PLA" case PLP => "PLP" case ROL => "ROL"
    case ROR => "ROR" case RTI => "RTI" case RTS => "RTS" case SBC => "SBC"
    case SEC => "SEC" case SED => "SED" case SEI => "SEI" case STA => "STA"
    case STX => "STX" case STY => "STY" case TAX => "TAX" case TAY => "TAY"
    case TSX => "TSX" case TXA => "TXA" case TXS => "TXS" case TYA => "TYA"
  }

  /// Every mnemonic of the table is recognised as its own instruction.
  lemma EvalOperationKnowsEveryMnemonic(i: Instruction)
    ensures EvalOperation(Mnemonic(i)) == Ok(i)
  {
    if i.ADC? || i.AND? || i.ASL? || i.BCC? {
      KnowsMnemonics0(i);
    } else if i.BCS? || i.BEQ? || i.BIT? || i.BMI? {
      KnowsMnemonics1(i);
    } else if i.BNE? || i.BPL? || i.BRK? || i.BVC? {
      KnowsMnemonics2(i);
    } else if i.BVS? || i.CLC? || i.CLD? || i.CLI? {
      KnowsMnemonics3(i);
    } else if i.CLV? || i.CMP? || i.CPX? || i.CPY? {
      KnowsMnemonics4(i);
    } else if i.DEC? || i.DEX? || i.DEY? || i.EOR? {
      KnowsMnemonics5(i);
    } else if i.INC? || i.INX? || i.INY? || i.JMP? {
      KnowsMnemonics6(i);
    } else if i.JSR? || i.LDA? || i.LDX? || i.LDY? {
      KnowsMnemonics7(i);
    } else if i.LSR? || i.NOP? || i.ORA? || i.PHA? {
      KnowsMnemonics8(i);
    } else if i.PHP? || i.PLA? || i.PLP? || i.ROL? {
      KnowsMnemonics9(i);
    } else if i.ROR? || i.RTI? || i.RTS? || i.SBC? {
      KnowsMnemonics10(i);
    } else if i.SEC? || i.SED? || i.SEI? || i.STA? {
      KnowsMnemonics11(i);
    } else if i.STX? || i.STY? || i.TAX? || i.TAY? {
      KnowsMnemonics12(i);
    } else {
      KnowsMnemonics13(i);
    }
  }

  lemma KnowsMnemonics0(i: Instruction)
    requires i.ADC? || i.AND? || i.ASL? || i.BCC?
    ensures EvalOperation(Mnemonic(i)) == Ok(i)
  {
  }

  lemma KnowsMnemonics1(i: Instruction)
    requires i.BCS? || i.BEQ? || i.BIT? || i.BMI?
    ensures EvalOperation(Mnemonic(i)) == Ok(i)
  {
  }

  lemma KnowsMnemonics2(i: Instruction)
    requires i.BNE? || i.BPL? || i.BRK? || i.BVC?
    ensures EvalOperation(Mnemonic(i)) == Ok(i)
  {
  }

  lemma KnowsMnemonics3(i: Instruction)
    requires i.BVS? || i.CLC? || i.CLD? || i.CLI?
    ensures EvalOperation(Mnemonic(i)) == Ok(i)
  {
  }

  lemma KnowsMnemonics4(i: Instruction)
    requires i.CLV? || i.CMP? || i.CPX? || i.CPY?
    ensures EvalOperation(Mnemonic(i)) == Ok(i)
  {
  }

  lemma KnowsMnemonics5(i: Instruction)
    requires i.DEC? || i.DEX? || i.DEY? || i.EOR?
    ensures EvalOperation(Mnemonic(i)) == Ok(i)
  {
  }

  lemma KnowsMnemonics6(i: Instruction)
    requires i.INC? || i.INX? || i.INY? || i.JMP?
    ensures EvalOperation(Mnemonic(i)) == Ok(i)
  {
  }

  lemma KnowsMnemonics7(i: Instruction)
    requires i.JSR? || i.LDA? || i.LDX? || i.LDY?
    ensures EvalOperation(Mnemonic(i)) == Ok(i)
  {
  }

  lemma KnowsMnemonics8(i: Instruction)
    requires i.LSR? || i.NOP? || i.ORA? || i.PHA?
    ensures EvalOperation(Mnemonic(i)) == Ok(i)
  {
  }

  lemma KnowsMnemonics9(i: Instruction)
    requires i.PHP? || i.PLA? || i.PLP? || i.ROL?
    ensures EvalOperation(Mnemonic(i)) == Ok(i)
  {
  }

  lemma KnowsMnemonics10(i: Instruction)
    requires i.ROR? || i.RTI? || i.RTS? || i.SBC?
    ensures EvalOperation(Mnemonic(i)) == Ok(i)
  {
  }

  lemma KnowsMnemonics11(i: Instruction)
    requires i.SEC? || i.SED? || i.SEI? || i.STA?
    ensures EvalOperation(Mnemonic(i)) == Ok(i)
  {
  }

  lemma KnowsMnemonics12(i: Instruction)
    requires i.STX? || i.STY? || i.TAX? || i.TAY?
    ensures EvalOperation(Mnemonic(i)) == Ok(i)
  {
  }

  lemma KnowsMnemonics13(i: Instruction)
    requires i.TSX? || i.TXA? || i.TXS? || i.TYA?
    ensures EvalOperation(Mnemonic(i)) == Ok(i)
  {
  }

  /// Only the table's mnemonics are recognised, each as its own
  /// instruction; every other text is the "unrecognised operation" panic.
  lemma EvalOperationOnlyMnemonics(op: string)
    ensures EvalOperation(op).Ok? ==> Mnemonic(EvalOperation(op).value) == op
    ensures EvalOperation(op).Err? ==> EvalOperation(op) == Err(UnknownOperation(op))
  {
    var r := EvalOperation(op);
    if r.Ok? && (r.value.ADC? || r.value.AND? || r.value.ASL? || r.value.BCC?) {
      OnlyMnemonics0(op);
    } else if r.Ok? && (r.value.BCS? || r.value.BEQ? || r.value.BIT? || r.value.BMI?) {
      OnlyMnemonics1(op);
    } else if r.Ok? && (r.value.BNE? || r.value.BPL? || r.value.BRK? || r.value.BVC?) {
      OnlyMnemonics2(op);
    } else if r.Ok? && (r.value.BVS? || r.value.CLC? || r.value.CLD? || r.value.CLI?) {
      OnlyMnemonics3(op);
    } else if r.Ok? && (r.value.CLV? || r.value.CMP? || r.value.CPX? || r.value.CPY?) {
      OnlyMnemonics4(op);
    } else if r.Ok? && (r.value.DEC? || r.value.DEX? || r.value.DEY? || r.value.EOR?) {
      OnlyMnemonics5(op);
    } else if r.Ok? && (r.value.INC? || r.value.INX? || r.value.INY? || r.value.JMP?) {
      OnlyMnemonics6(op);
    } else if r.Ok? && (r.value.JSR? || r.value.LDA? || r.value.LDX? || r.value.LDY?) {
      OnlyMnemonics7(op);
    } else if r.Ok? && (r.value.LSR? || r.value.NOP? || r.value.ORA? || r.value.PHA?) {
      OnlyMnemonics8(op);
    } else if r.Ok? && (r.value.PHP? || r.value.PLA? || r.value.PLP? || r.value.ROL?) {
      OnlyMnemonics9(op);
    } else if r.Ok? && (r.value.ROR? || r.value.RTI? || r.value.RTS? || r.value.SBC?) {
      OnlyMnemonics10(op);
    } else if r.Ok? && (r.value.SEC? || r.value.SED? || r.value.SEI? || r.value.STA?) {
      OnlyMnemonics11(op);
    } else if r.Ok? && (r.value.STX? || r.value.STY? || r.value.TAX? || r.value.TAY?) {
      OnlyMnemonics12(op);
    } else if r.Ok? && (r.value.TSX? || r.value.TXA? || r.value.TXS? || r.value.TYA?) {
      OnlyMnemonics13(op);
    }
  }

  lemma OnlyMnemonics0(op: string)
    requires EvalOperation(op).Ok? && (EvalOperation(op).value.ADC? || EvalOperation(op).value.AND? || EvalOperation(op).value.ASL? || EvalOperation(op).value.BCC?)
    ensures Mnemonic(EvalOperation(op).value) == op
  {
  }

  lemma OnlyMnemonics1(op: string)
    requires EvalOperation(op).Ok? && (EvalOperation(op).value.BCS? || EvalOperation(op).value.BEQ? || EvalOperation(op).value.BIT? || EvalOperation(op).value.BMI?)
    ensures Mnemonic(EvalOperation(op).value) == op
  {
  }

  lemma OnlyMnemonics2(op: string)
    requires EvalOperation(op).Ok? && (EvalOperation(op).value.BNE? || EvalOperation(op).value.BPL? || EvalOperation(op).value.BRK? || EvalOperation(op).value.BVC?)
    ensures Mnemonic(EvalOperation(op).value) == op
  {
  }

  lemma OnlyMnemonics3(op: string)
    requires EvalOperation(op).Ok? && (EvalOperation(op).value.BVS? || EvalOperation(op).value.CLC? || EvalOperation(op).value.CLD? || EvalOperation(op).value.CLI?)
    ensures Mnemonic(EvalOperation(op).value) == op
  {
  }

  lemma OnlyMnemonics4(op: string)
    requires EvalOperation(op).Ok? && (EvalOperation(op).value.CLV? || EvalOperation(op).value.CMP? || EvalOperation(op).value.CPX? || EvalOperation(op).value.CPY?)
    ensures Mnemonic(EvalOperation(op).value) == op
  {
  }

  lemma OnlyMnemonics5(op: string)
    requires EvalOperation(op).Ok? && (EvalOperation(op).value.DEC? || EvalOperation(op).value.DEX? || EvalOperation(op).value.DEY? || EvalOperation(op).value.EOR?)
    ensures Mnemonic(EvalOperation(op).value) == op
  {
  }

  lemma OnlyMnemonics6(op: string)
    requires EvalOperation(op).Ok? && (EvalOperation(op).value.INC? || EvalOperation(op).value.INX? || EvalOperation(op).value.INY? || EvalOperation(op).value.JMP?)
    ensures Mnemonic(EvalOperation(op).value) == op
  {
  }

  lemma OnlyMnemonics7(op: string)
    requires EvalOperation(op).Ok? && (EvalOperation(op).value.JSR? || EvalOperation(op).value.LDA? || EvalOperation(op).value.LDX? || EvalOperation(op).value.LDY?)
    ensures Mnemonic(EvalOperation(op).value) == op
  {
  }

  lemma OnlyMnemonics8(op: string)
    requires EvalOperation(op).Ok? && (EvalOperation(op).value.LSR? || EvalOperation(op).value.NOP? || EvalOperation(op).value.ORA? || EvalOperation(op).value.PHA?)
    ensures Mnemonic(EvalOperation(op).value) == op
  {
  }

  lemma OnlyMnemonics9(op: string)
    requires EvalOperation(op).Ok? && (EvalOperation(op).value.PHP? || EvalOperation(op).value.PLA? || EvalOperation(op).value.PLP? || EvalOperation(op).value.ROL?)
    ensures Mnemonic(EvalOperation(op).value) == op
  {
  }

  lemma OnlyMnemonics10(op: string)
    requires EvalOperation(op).Ok? && (EvalOperation(op).value.ROR? || EvalOperation(op).value.RTI? || EvalOperation(op).value.RTS? || EvalOperation(op).value.SBC?)
    ensures Mnemonic(EvalOperation(op).value) == op
  {
  }

  lemma OnlyMnemonics11(op: string)
    requires EvalOperation(op).Ok? && (EvalOperation(op).value.SEC? || EvalOperation(op).value.SED? || EvalOperation(op).value.SEI? || EvalOperation(op).value.STA?)
    ensures Mnemonic(EvalOperation(op).value) == op
  {
  }

  lemma OnlyMnemonics12(op: string)
    requires EvalOperation(op).Ok? && (EvalOperation(op).value.STX? || EvalOperation(op).value.STY? || EvalOperation(op).value.TAX? || EvalOperation(op).value.TAY?)
    ensures Mnemonic(EvalOperation(op).value) == op
  {
  }

  lemma OnlyMnemonics13(op: string)
    requires EvalOperation(op).Ok? && (EvalOperation(op).value.TSX? || EvalOperation(op).value.TXA? || EvalOperation(op).value.TXS? || EvalOperation(op).value.TYA?)
    ensures Mnemonic(EvalOperation(op).value) == op
  {
  }

  // Hexadecimal numbers.

  /// A digit as `u16::from_str_radix(_, 16)` reads it: either case.
  function HexDigitValue(c: char): (r: Option<nat>)
    ensures r.Some? ==> r.value < 16
  {
    if '0' <= c <= '9' then Some(c as nat - '0' as nat)
    else if 'A' <= c <= 'F' then Some(c as nat - 'A' as nat + 10)
    else if 'a' <= c <= 'f' then Some(c as nat - 'a' as nat + 10)
    else None
  }

  predicate AllHexDigits(s: string)
  {
    forall k :: 0 <= k < |s| ==> HexDigitValue(s[k]).Some?
  }

  /// The characters of the operand patterns, `[0-9A-F]`.
  predicate IsUpperHexDigit(c: char)
  {
    '0' <= c <= '9' || 'A' <= c <= 'F'
  }

  predicate AllUpperHexDigits(s: string)
  {
    forall k :: 0 <= k < |s| ==> IsUpperHexDigit(s[k])
  }

  /// The value of a string of hex digits, most significant first.
  function HexValue(s: string): (n: nat)
    requires AllHexDigits(s)
    decreases |s|
  {
    if s == [] then 0 else HexValue(s[..|s| - 1]) * 16 + HexDigitValue(s[|s| - 1]).value
  }

  function Pow16(n: nat): (r: nat)
    ensures r > 0
  {
    if n == 0 then 1 else 16 * Pow16(n - 1)
  }

  /// `from_str_radix(src, 16)` for an unsigned type whose largest value is
  /// `max`: an optional `+`, then at least one digit; any other character,
  /// or a value above `max`, is an error.
  function FromStrRadix16(src: string, max: nat): (r: Result<nat>)
  {
    var digits := if |src| > 0 && src[0] == '+' then src[1..] else src;
    if |digits| == 0 || !AllHexDigits(digits) then Err(BadHex(src))
    else if HexValue(digits) > max then Err(BadHex(src))
    else Ok(HexValue(digits))
  }

  /// `parse_word_hex`: a failed parse is the `expect` panic.
  function ParseWordHex(hex: string): (r: Result<Word>)
    ensures r.Err? ==> r == Err(BadHex(hex))
    ensures |hex| > 0 && AllHexDigits(hex) ==> (r.Ok? <==> HexValue(hex) <= 0xFF)
    ensures r.Ok? && AllHexDigits(hex) ==> r.value == HexValue(hex) as bv8
  {
    var n :- FromStrRadix16(hex, 0xFF);
    Ok(n as bv8)
  }

  /// `parse_doubleword_hex`.
  function ParseDoubleWordHex(hex: string): (r: Result<DoubleWord>)
    ensures r.Err? ==> r == Err(BadHex(hex))
    ensures |hex| > 0 && AllHexDigits(hex) ==> (r.Ok? <==> HexValue(hex) <= 0xFFFF)
    ensures r.Ok? && AllHexDigits(hex) ==> r.value == HexValue(hex) as bv16
  {
    var n :- FromStrRadix16(hex, 0xFFFF);
    Ok(n as bv16)
  }

  /// The upper-case digit of a value below 16.
  function UpperHexChar(d: nat): (c: char)
    requires d < 16
  {
    if d < 10 then ('0' as nat + d) as char else ('A' as nat + d - 10) as char
  }

  /// `n` written with exactly `width` upper-case hex digits (the low
  /// `width` digits of `n`).
  function HexDigits(n: nat, width: nat): (s: string)
    ensures |s| == width && AllUpperHexDigits(s) && AllHexDigits(s)
  {
    if width == 0 then "" else HexDigits(n / 16, width - 1) + [UpperHexChar(n % 16)]
  }

  lemma UpperHexCharValue(d: nat)
    requires d < 16
    ensures HexDigitValue(UpperHexChar(d)) == Some(d)
  {
  }

  /// Reading back the digits of a number that fits the width gives the
  /// number.
  lemma {:induction false} HexValueOfDigits(n: nat, width: nat)
    requires n < Pow16(width)
    ensures HexValue(HexDigits(n, width)) == n
  {
    if width > 0 {
      var s := HexDigits(n, width);
      assert s[..|s| - 1] == HexDigits(n / 16, width - 1);
      HexValueOfDigits(n / 16, width - 1);
      UpperHexCharValue(n % 16);
    }
  }

  /// A string of upper-case digits is the printing of its value.
  lemma {:induction false} DigitsOfHexValue(s: string)
    requires AllUpperHexDigits(s)
    ensures AllHexDigits(s) && HexValue(s) < Pow16(|s|)
    ensures HexDigits(HexValue(s), |s|) == s
  {
    if s != [] {
      var init, last := s[..|s| - 1], s[|s| - 1];
      DigitsOfHexValue(init);
      var d := HexDigitValue(last).value;
      assert UpperHexChar(d) == last;
      assert (HexValue(init) * 16 + d) / 16 == HexValue(init);
      assert (HexValue(init) * 16 + d) % 16 == d;
      assert s == init + [last];
    }
  }

  lemma WordAsNat(w: Word)
    ensures (w as nat) as bv8 == w
  {
  }

  lemma DoubleWordAsNat(d: DoubleWord)
    ensures (d as nat) as bv16 == d
  {
  }

  /// With no sign and a value in range, `from_str_radix` returns the value
  /// of the digits.
  lemma FromStrRadix16Digits(s: string, max: nat)
    requires |s| > 0 && AllUpperHexDigits(s) && AllHexDigits(s) && HexValue(s) <= max
    ensures FromStrRadix16(s, max) == Ok(HexValue(s))
  {
    assert IsUpperHexDigit(s[0]);
  }

  /// `parse_word_hex` reads back two printed digits.
  lemma ParseWordHexRoundTrip(w: Word)
    ensures ParseWordHex(HexDigits(w as nat, 2)) == Ok(w)
  {
    var s := HexDigits(w as nat, 2);
    assert Pow16(2) == 0x100;
    HexValueOfDigits(w as nat, 2);
    WordAsNat(w);
    assert ParseWordHex(s).Ok?;
  }

  /// `parse_doubleword_hex` reads back four printed digits.
  lemma ParseDoubleWordHexRoundTrip(d: DoubleWord)
    ensures ParseDoubleWordHex(HexDigits(d as nat, 4)) == Ok(d)
  {
    var s := HexDigits(d as nat, 4);
    assert Pow16(4) == 0x10000;
    HexValueOfDigits(d as nat, 4);
    FromStrRadix16Digits(s, 0xFFFF);
    DoubleWordAsNat(d);
  }

  /// On the digits the operand patterns accept, the parsers cannot fail:
  /// two digits fit a `word`, four a `doubleword`.
  lemma ParseHexOnPatternDigits(g: string)
    requires AllUpperHexDigits(g)
    ensures |g| == 2 ==> HexValue(g) < 0x100 && ParseWordHex(g) == Ok(HexValue(g) as bv8)
    ensures |g| == 4 ==> HexValue(g) < 0x10000 && ParseDoubleWordHex(g) == Ok(HexValue(g) as bv16)
  {
    assert AllHexDigits(g) by {
      forall k | 0 <= k < |g|
        ensures HexDigitValue(g[k]).Some?
      {
        assert IsUpperHexDigit(g[k]);
      }
    }
    HexValueBound(g);
    if |g| == 2 {
      assert Pow16(2) == 0x100;
      FromStrRadix16Digits(g, 0xFF);
    } else if |g| == 4 {
      assert Pow16(4) == 0x10000;
      FromStrRadix16Digits(g, 0xFFFF);
    }
  }

  /// `n` hex digits denote a value below 16 to the `n`.
  lemma {:induction false} HexValueBound(s: string)
    requires AllHexDigits(s)
    ensures HexValue(s) < Pow16(|s|)
  {
    if s != [] {
      var init := s[..|s| - 1];
      HexValueBound(init);
      assert HexValue(init) + 1 <= Pow16(|init|);
      assert (HexValue(init) + 1) * 16 <= Pow16(|init|) * 16;
    }
  }

  // The operand forms.

  /// An anchored pattern `^prefix([0-9A-F]{digits})suffix$`.
  datatype Form = Form(prefix: string, digits: nat, suffix: string)

  /// `OPERAND_REGEXES`, in order; entry 4 is `^$`, which has no group.
  const FORM_COUNT := 9

  function FormAt(i: nat): (f: Form)
    requires i < FORM_COUNT
  {
    if i == 0 then Form("$", 4, "")             // abs
    else if i == 1 then Form("$", 4, ",X")      // abs X
    else if i == 2 then Form("$", 4, ",Y")      // abs Y
    else if i == 3 then Form("#$", 2, "")       // imm
    else if i == 4 then Form("", 0, "")         // impl
    else if i == 5 then Form("($", 4, ")")      // ind
    else if i == 6 then Form("($", 2, ",X)")    // ind X
    else if i == 7 then Form("($", 2, "),Y")    // ind Y
    else Form("$", 2, "")                       // rel
  }

  const IMPLIED_FORM := 4

  predicate Matches(f: Form, op: string)
  {
    |op| == |f.prefix| + f.digits + |f.suffix|
    && op[..|f.prefix|] == f.prefix
    && op[|f.prefix| + f.digits..] == f.suffix
    && AllUpperHexDigits(op[|f.prefix|..|f.prefix| + f.digits])
  }

  /// The digits a form captures.
  function Digits(f: Form, op: string): (g: string)
    requires Matches(f, op)
  {
    op[|f.prefix|..|f.prefix| + f.digits]
  }

  /// `re.captures(op)` with group 1: no match, or a match with or without
  /// the group.
  datatype Capture = NoMatch | Captured(group: Option<string>)

  function CaptureOf(i: nat, op: string): (c: Capture)
    requires i < FORM_COUNT
  {
    if !Matches(FormAt(i), op) then NoMatch
    else if i == IMPLIED_FORM then Captured(None)
    else Captured(Some(Digits(FormAt(i), op)))
  }

  /// The inner `match idx` of `eval_operand`: the mode of form `i` with
  /// its digits parsed.
  function ModeOf(i: nat, g: string): (r: Result<AddrMode>)
    requires i < FORM_COUNT
  {
    if i == 0 then var d :- ParseDoubleWordHex(g); Ok(Absolute(d))
    else if i == 1 then var d :- ParseDoubleWordHex(g); Ok(AbsoluteX(d))
    else if i == 2 then var d :- ParseDoubleWordHex(g); Ok(AbsoluteY(d))
    else if i == 3 then var w :- ParseWordHex(g); Ok(Immediate(w))
    else if i == 4 then Ok(Implied)
    else if i == 5 then var d :- ParseDoubleWordHex(g); Ok(Indirect(d))
    else if i == 6 then var w :- ParseWordHex(g); Ok(IndirectX(w))
    else if i == 7 then var w :- ParseWordHex(g); Ok(IndirectY(w))
    else var w :- ParseWordHex(g); Ok(Relative(w))
  }

  /// The characters that tell apart the five seven-character forms.
  lemma SevenCharacterForms(op: string, i: nat)
    requires i < FORM_COUNT && Matches(FormAt(i), op) && |op| == 7
    ensures i == 1 || i == 2 || i == 5 || i == 6 || i == 7
    ensures i == 1 ==> op[0] == '$' && op[6] == 'X'
    ensures i == 2 ==> op[0] == '$' && op[6] == 'Y'
    ensures i == 5 ==> op[0] == '(' && IsUpperHexDigit(op[4]) && op[6] == ')'
    ensures i == 6 ==> op[0] == '(' && op[4] == ',' && op[6] == ')'
    ensures i == 7 ==> op[0] == '(' && op[6] == 'Y'
  {
    var f := FormAt(i);
    assert op[0] == op[..|f.prefix|][0];
    assert op[6] == op[|f.prefix| + f.digits..][|f.suffix| - 1];
    if i == 5 {
      assert op[4] == op[2..6][2];
    } else if i == 6 {
      assert op[4] == op[4..][0];
    }
  }

  /// No operand text matches two of the nine forms.
  lemma FormsDisjoint(op: string, i: nat, j: nat)
    requires i < FORM_COUNT && j < FORM_COUNT && i != j
    ensures !(Matches(FormAt(i), op) && Matches(FormAt(j), op))
  {
    if Matches(FormAt(i), op) && Matches(FormAt(j), op) && |op| == 7 {
      SevenCharacterForms(op, i);
      SevenCharacterForms(op, j);
    }
  }

  /// The first form below `n` that matches.
  function FirstMatchBelow(op: string, n: nat): (r: Option<nat>)
    requires n <= FORM_COUNT
    ensures r.Some? ==> r.value < n && Matches(FormAt(r.value), op)
    ensures r.None? <==> forall k :: 0 <= k < n ==> !Matches(FormAt(k), op)
  {
    if n == 0 then None
    else if FirstMatchBelow(op, n - 1).Some? then FirstMatchBelow(op, n - 1)
    else if Matches(FormAt(n - 1), op) then Some(n - 1)
    else None
  }

  /// Once a form below `n` matches, later forms do not change the first
  /// match.
  lemma {:induction false} FirstMatchStable(op: string, n: nat, m: nat)
    requires n <= m <= FORM_COUNT && FirstMatchBelow(op, n).Some?
    ensures FirstMatchBelow(op, m) == FirstMatchBelow(op, n)
    decreases m - n
  {
    if n < m {
      FirstMatchStable(op, n, m - 1);
      FirstMatchExtends(op, m);
    }
  }

  /// One more form does not change a first match already found.
  lemma FirstMatchExtends(op: string, m: nat)
    requires 0 < m <= FORM_COUNT && FirstMatchBelow(op, m - 1).Some?
    ensures FirstMatchBelow(op, m) == FirstMatchBelow(op, m - 1)
  {
  }

  /// What `eval_operand` evidently means to compute: the mode of the form
  /// the operand matches, with `^$` giving `Implied`; no match is the
  /// "unrecognised operand" panic.
  function Classify(op: string): (r: Result<AddrMode>)
    ensures r.Ok? <==> exists i :: 0 <= i < FORM_COUNT && Matches(FormAt(i), op)
    ensures r.Err? ==> r == Err(UnknownOperand(op))
  {
    match FirstMatchBelow(op, FORM_COUNT)
    case None => Err(UnknownOperand(op))
    case Some(i) =>
      ModeOfPattern(i, Digits(FormAt(i), op));
      ModeOf(i, Digits(FormAt(i), op))
  }

  /// `eval_operand` as written: every pattern is tried in turn and `ret`
  /// keeps the mode found; `&cap[1]` is taken before anything else, so the
  /// `^$` pattern, which has no group, panics on the empty operand; a
  /// second match would panic too, but the forms are disjoint.
  method EvalOperand(op: string) returns (r: Result<AddrMode>)
    ensures op == "" ==> r == Err(NoCaptureGroup(op))
    ensures op != "" ==> r == Classify(op)
  {
    var ret: Option<AddrMode> := None;
    var idx := 0;
    while idx < FORM_COUNT
      invariant 0 <= idx <= FORM_COUNT
      invariant op == "" ==> idx <= IMPLIED_FORM
      invariant FirstMatchBelow(op, idx).None? ==> ret.None?
      invariant FirstMatchBelow(op, idx).Some? ==> ret.Some? && Classify(op) == Ok(ret.value)
    {
      match CaptureOf(idx, op) {
        case NoMatch =>
        case Captured(group) =>
          if group.None? {
            return Err(NoCaptureGroup(op));
          }
          if ret.Some? {
            FormsDisjoint(op, FirstMatchBelow(op, idx).value, idx);
            assert false;
          }
          assert group.value == Digits(FormAt(idx), op);
          assert FirstMatchBelow(op, idx + 1) == Some(idx);
          FirstMatchStable(op, idx + 1, FORM_COUNT);
          var mode :- ModeOf(idx, group.value);
          ret := Some(mode);
      }
      idx := idx + 1;
    }
    if ret.None? {
      return Err(UnknownOperand(op));
    }
    r := Ok(ret.value);
  }

  /// The form each mode is printed in, 9 for the zero-page modes, which
  /// no pattern produces.
  function FormOf(m: AddrMode): (i: nat)
    ensures i <= FORM_COUNT
  {
    match m
    case Absolute(_) => 0
    case AbsoluteX(_) => 1
    case AbsoluteY(_) => 2
    case Immediate(_) => 3
    case Implied => 4
    case Indirect(_) => 5
    case IndirectX(_) => 6
    case IndirectY(_) => 7
    case Relative(_) => 8
    case _ => 9
  }

  /// The operand of a mode in upper-case hex: four digits for an address,
  /// two for a byte, none for `Implied`.
  function OperandDigits(m: AddrMode): (g: string)
  {
    match m
    case Absolute(d) => HexDigits(d as nat, 4)
    case AbsoluteX(d) => HexDigits(d as nat, 4)
    case AbsoluteY(d) => HexDigits(d as nat, 4)
    case Indirect(d) => HexDigits(d as nat, 4)
    case Implied => ""
    case _ => HexDigits(m.value as nat, 2)
  }

  /// The text of a mode: its operand's digits in its form, e.g.
  /// `($12),Y`; none for the zero-page modes.
  function OperandText(m: AddrMode): (s: Option<string>)
  {
    if FormOf(m) == FORM_COUNT then None
    else
      var f := FormAt(FormOf(m));
      Some(f.prefix + OperandDigits(m) + f.suffix)
  }

  /// A form matches its prefix, any digits of its width and its suffix,
  /// and captures those digits.
  lemma MatchesJoin(f: Form, g: string)
    requires |g| == f.digits && AllUpperHexDigits(g)
    ensures Matches(f, f.prefix + g + f.suffix) && Digits(f, f.prefix + g + f.suffix) == g
  {
    var op := f.prefix + g + f.suffix;
    assert op[..|f.prefix|] == f.prefix;
    assert op[|f.prefix| + f.digits..] == f.suffix;
    assert op[|f.prefix|..|f.prefix| + f.digits] == g;
  }

  /// The form an operand matches is the first one.
  lemma OnlyMatch(op: string, i: nat)
    requires i < FORM_COUNT && Matches(FormAt(i), op)
    ensures FirstMatchBelow(op, FORM_COUNT) == Some(i)
  {
    var first := FirstMatchBelow(op, FORM_COUNT).value;
    if first != i {
      FormsDisjoint(op, first, i);
    }
  }

  /// A printed operand has as many digits as its form captures.
  lemma OperandDigitsFit(m: AddrMode)
    requires FormOf(m) < FORM_COUNT
    ensures |OperandDigits(m)| == FormAt(FormOf(m)).digits
    ensures AllUpperHexDigits(OperandDigits(m))
  {
    var g, n := OperandDigits(m), FormAt(FormOf(m)).digits;
    if m.Absolute? || m.AbsoluteX? || m.AbsoluteY? || m.Indirect? {
      assert g == HexDigits(m.address as nat, 4) && n == 4;
    } else if m.Implied? {
      assert g == "" && n == 0;
    } else {
      assert g == HexDigits(m.value as nat, 2) && n == 2;
    }
  }

  /// Parsing the digits of a printed address gives the address.
  lemma ModeOfAddressDigits(m: AddrMode)
    requires m.Absolute? || m.AbsoluteX? || m.AbsoluteY? || m.Indirect?
    ensures ModeOf(FormOf(m), OperandDigits(m)) == Ok(m)
  {
    ParseDoubleWordHexRoundTrip(m.address);
  }

  /// Parsing the digits of a printed byte operand gives the operand.
  lemma ModeOfByteDigits(m: AddrMode)
    requires m.Immediate? || m.IndirectX? || m.IndirectY? || m.Relative?
    ensures ModeOf(FormOf(m), OperandDigits(m)) == Ok(m)
  {
    var g := HexDigits(m.value as nat, 2);
    ParseWordHexRoundTrip(m.value);
    match m
    case Immediate(w) => assert ModeOf(3, g) == Ok(m);
    case IndirectX(w) => assert ModeOf(6, g) == Ok(m);
    case IndirectY(w) => assert ModeOf(7, g) == Ok(m);
    case Relative(w) => assert ModeOf(8, g) == Ok(m);
  }

  /// Printing a mode and classifying the text gives the mode back.
  lemma ClassifyPrinted(m: AddrMode)
    requires OperandText(m).Some?
    ensures Classify(OperandText(m).value) == Ok(m)
  {
    var f := FormAt(FormOf(m));
    OperandDigitsFit(m);
    MatchesJoin(f, OperandDigits(m));
    OnlyMatch(OperandText(m).value, FormOf(m));
    if m.Absolute? || m.AbsoluteX? || m.AbsoluteY? || m.Indirect? {
      ModeOfAddressDigits(m);
    } else if !m.Implied? {
      ModeOfByteDigits(m);
    }
  }

  /// The digits `g` denote the operand of `m`.
  predicate Denotes(m: AddrMode, g: string)
    requires AllHexDigits(g)
  {
    match m
    case Absolute(d) => HexValue(g) < 0x10000 && d == HexValue(g) as bv16
    case AbsoluteX(d) => HexValue(g) < 0x10000 && d == HexValue(g) as bv16
    case AbsoluteY(d) => HexValue(g) < 0x10000 && d == HexValue(g) as bv16
    case Indirect(d) => HexValue(g) < 0x10000 && d == HexValue(g) as bv16
    case Implied => g == ""
    case _ => HexValue(g) < 0x100 && m.value == HexValue(g) as bv8
  }

  /// The digits a form captures parse into a mode printed in that form
  /// and denoted by those digits.
  lemma ModeOfPattern(i: nat, g: string)
    requires i < FORM_COUNT && |g| == FormAt(i).digits && AllUpperHexDigits(g)
    ensures ModeOf(i, g).Ok? && FormOf(ModeOf(i, g).value) == i
    ensures AllHexDigits(g) && Denotes(ModeOf(i, g).value, g)
  {
    ParseHexOnPatternDigits(g);
  }

  /// A classified operand is in the printed form of its mode, with the
  /// mode's operand the value of its digits; no zero-page mode and no
  /// parse failure can come out.
  lemma ClassifiedText(op: string)
    ensures Classify(op).Err? ==> Classify(op) == Err(UnknownOperand(op))
    ensures Classify(op).Ok? ==>
              var m := Classify(op).value;
              FormOf(m) < FORM_COUNT && Matches(FormAt(FormOf(m)), op)
              && AllHexDigits(Digits(FormAt(FormOf(m)), op))
              && Denotes(m, Digits(FormAt(FormOf(m)), op))
  {
    var first := FirstMatchBelow(op, FORM_COUNT);
    if first.Some? {
      ModeOfPattern(first.value, Digits(FormAt(first.value), op));
    }
  }

  /// The operand text of an implied instruction is classified as
  /// `Implied`, which `eval_operand` as written cannot return.
  lemma ClassifyEmpty()
    ensures Classify("") == Ok(Implied)
  {
    PrintedImplied();
    ClassifyPrinted(Implied);
  }

  // Splitting a line.

  /// `\s` of the regex crate: the Unicode `White_Space` characters.
  predicate IsWhitespace(c: char)
  {
    '\t' <= c <= '\r' || c == ' ' || c == '\U{85}' || c == '\U{A0}' || c == '\U{1680}'
    || '\U{2000}' <= c <= '\U{200A}' || c == '\U{2028}' || c == '\U{2029}' || c == '\U{202F}'
    || c == '\U{205F}' || c == '\U{3000}'
  }

  /// The first position at or after `i` holding no whitespace.
  function SkipSpaces(s: string, i: nat): (j: nat)
    requires i <= |s|
    ensures i <= j <= |s|
    ensures forall k :: i <= k < j ==> IsWhitespace(s[k])
    ensures j < |s| ==> !IsWhitespace(s[j])
    decreases |s| - i
  {
    if i == |s| || !IsWhitespace(s[i]) then i else SkipSpaces(s, i + 1)
  }

  /// The first whitespace position at or after `i`.
  function SkipWord(s: string, i: nat): (j: nat)
    requires i <= |s|
    ensures i <= j <= |s|
    ensures forall k :: i <= k < j ==> !IsWhitespace(s[k])
    ensures j < |s| ==> IsWhitespace(s[j])
    decreases |s| - i
  {
    if i == |s| || IsWhitespace(s[i]) then i else SkipWord(s, i + 1)
  }

  /// The first line break at or after `i`: where `.*` stops.
  function LineEnd(s: string, i: nat): (j: nat)
    requires i <= |s|
    ensures i <= j <= |s|
    ensures forall k :: i <= k < j ==> s[k] != '\n'
    ensures j < |s| ==> s[j] == '\n'
    decreases |s| - i
  {
    if i == |s| || s[i] == '\n' then i else LineEnd(s, i + 1)
  }

  /// `SPLIT_REGEX`, `(\S+)\s*(.*)`, unanchored: the leftmost run of
  /// non-space characters, then, past the whitespace after it, the rest of
  /// that line; no match when there is no non-space character.
  function Split(line: string): (r: Option<(string, string)>)
    ensures r.None? <==> forall k :: 0 <= k < |line| ==> IsWhitespace(line[k])
    ensures r.Some? ==>
              var (m, o) := r.value;
              |m| > 0 && (forall k :: 0 <= k < |m| ==> !IsWhitespace(m[k]))
              && (forall k :: 0 <= k < |o| ==> o[k] != '\n')
              && (|o| > 0 ==> !IsWhitespace(o[0]))
  {
    var start := SkipSpaces(line, 0);
    if start == |line| then None
    else
      var stop := SkipWord(line, start);
      var rest := SkipSpaces(line, stop);
      Some((line[start..stop], line[rest..LineEnd(line, rest)]))
  }

  /// A line holding a mnemonic and, after a space, an operand.
  function JoinLine(m: string, o: string): (line: string)
  {
    if o == "" then m else m + " " + o
  }

  /// A mnemonic and an operand joined into a line are split back into the
  /// two.
  lemma {:induction false} SplitJoin(m: string, o: string)
    requires |m| > 0 && forall k :: 0 <= k < |m| ==> !IsWhitespace(m[k])
    requires forall k :: 0 <= k < |o| ==> o[k] != '\n'
    requires |o| > 0 ==> !IsWhitespace(o[0])
    ensures Split(JoinLine(m, o)) == Some((m, o))
  {
    var line := JoinLine(m, o);
    assert line[0] == m[0];
    assert SkipSpaces(line, 0) == 0;
    var stop := SkipWord(line, 0);
    assert forall k :: 0 <= k < |m| ==> line[k] == m[k];
    if o == "" {
      assert stop == |m|;
      assert line[0..stop] == m;
      assert SkipSpaces(line, stop) == |line|;
      assert LineEnd(line, |line|) == |line|;
      assert line[|line|..|line|] == o;
    } else {
      assert line[|m|] == ' ';
      assert stop == |m|;
      var rest := SkipSpaces(line, stop);
      assert line[|m| + 1] == o[0];
      assert rest == |m| + 1;
      assert forall k :: |m| + 1 <= k < |line| ==> line[k] == o[k - |m| - 1];
      assert LineEnd(line, rest) == |line|;
      assert line[0..stop] == m;
      assert line[rest..LineEnd(line, rest)] == o;
    }
  }

  /// `ParsedInstruction::eval`: the mnemonic, then the operand; a line
  /// without a non-space character is the "unrecognised line" panic.  The
  /// operand goes through `Classify`, the corrected `eval_operand`.
  function Eval(line: string): (r: Result<ParsedInstruction>)
    ensures Split(line).None? ==> r == Err(UnparsableLine(line))
    ensures r.Ok? ==> Split(line).Some? && r.value.instr.Some? && r.value.operand.Some?
    ensures r.Ok? ==> Mnemonic(r.value.instr.value) == Split(line).value.0
    ensures r.Ok? ==> Classify(Split(line).value.1) == Ok(r.value.operand.value)
  {
    match Split(line)
    case None => Err(UnparsableLine(line))
    case Some((mnemonic, operand)) =>
      EvalOperationOnlyMnemonics(mnemonic);
      var opc :- EvalOperation(mnemonic);
      var op :- Classify(operand);
      Ok(ParsedInstruction(Some(opc), Some(op)))
  }

  /// `ParsedInstruction::eval` as written: `eval_operand` takes `&cap[1]`
  /// before it looks at which pattern matched, so an empty operand, which
  /// only the group-less `^$` matches, is the `NoCaptureGroup` panic.
  function EvalAsWritten(line: string): (r: Result<ParsedInstruction>)
    ensures Split(line).None? ==> r == Err(UnparsableLine(line))
    ensures Split(line).Some? && Split(line).value.1 == "" ==> r.Err?
    ensures r.Ok? ==> r.value.operand.Some? && r.value.operand.value != Implied
  {
    match Split(line)
    case None => Err(UnparsableLine(line))
    case Some((mnemonic, operand)) =>
      var opc :- EvalOperation(mnemonic);
      ClassifiedText(operand);
      var op :- if operand == "" then Err(NoCaptureGroup(operand)) else Classify(operand);
      Ok(ParsedInstruction(Some(opc), Some(op)))
  }

  /// `eval` as written and the corrected `Eval` agree on every line but
  /// those whose operand is empty; there the former panics once the
  /// mnemonic is known.
  lemma EvalAsWrittenAgrees(line: string)
    ensures Split(line).None? ==> EvalAsWritten(line) == Eval(line) == Err(UnparsableLine(line))
    ensures Split(line).Some? && Split(line).value.1 != "" ==> EvalAsWritten(line) == Eval(line)
    ensures Split(line).Some? && Split(line).value.1 == "" ==>
              EvalAsWritten(line).Err?
              && (EvalOperation(Split(line).value.0).Ok? ==> EvalAsWritten(line) == Err(NoCaptureGroup("")))
  {
  }

  // Encoding.

  /// The byte with the given fields: aaa in bits 7-5, bbb in 4-2, cc in 1-0.
  function FieldsByte(aaa: bv8, bbb: bv8, cc: bv8): (b: Word)
    requires aaa < 8 && bbb < 8 && cc < 4
    ensures Aaa(b) == aaa && Bbb(b) == bbb && Cc(b) == cc
  {
    (aaa << 5) | (bbb << 2) | cc
  }

  /// The opcode byte after the first `match` of `emit`: a whole byte for
  /// the branches, stack, transfer and increment instructions, otherwise
  /// the fields the arm sets, the others staying zero.
  function BaseOpcode(i: Instruction): (b: Word)
    ensures Cc(b) != 3
  {
    match i
    case ADC => 0x61  // aaa 011, bbb 000, cc 01
    case AND => 0x21  // aaa 001, bbb 000, cc 01
    case ASL => 0x02  // aaa 000, bbb 000, cc 10
    case BCC => 0x90  // whole byte
    case BCS => 0xB0  // whole byte
    case BEQ => 0xF0  // whole byte
    case BIT => 0x20  // aaa 001, bbb 000, cc 00
    case BMI => 0x30  // whole byte
    case BNE => 0xD0  // whole byte
    case BPL => 0x10  // whole byte
    case BRK => 0x00  // whole byte
    case BVC => 0x50  // whole byte
    case BVS => 0x70  // whole byte
    case CLC => 0x18  // aaa 000, bbb 110, cc 00
    case CLD => 0xD8  // aaa 110, bbb 110, cc 00
    case CLI => 0x58  // aaa 010, bbb 110, cc 00
    case CLV => 0xB8  // aaa 101, bbb 110, cc 00
    case CMP => 0xC1  // aaa 110, bbb 000, cc 01
    case CPX => 0xE0  // aaa 111, bbb 000, cc 00
    case CPY => 0xC0  // aaa 110, bbb 000, cc 00
    case DEC => 0xC2  // aaa 110, bbb 000, cc 10
    case DEX => 0xCA  // aaa 110, bbb 010, cc 10
    case DEY => 0x88  // whole byte
    case EOR => 0x41  // aaa 010, bbb 000, cc 01
    case INC => 0xE2  // aaa 111, bbb 000, cc 10
    case INX => 0xE8  // whole byte
    case INY => 0xC8  // whole byte
    case JMP => 0x40  // aaa 010, bbb 000, cc 00
    case JSR => 0x20  // whole byte
    case LDA => 0xA1  // aaa 101, bbb 000, cc 01
    case LDX => 0xA2  // aaa 101, bbb 000, cc 10
    case LDY => 0xA0  // aaa 101, bbb 000, cc 00
    case LSR => 0x42  // aaa 010, bbb 000, cc 10
    case NOP => 0xEA  // aaa 111, bbb 010, cc 10
    case ORA => 0x01  // aaa 000, bbb 000, cc 01
    case PHA => 0x48  // whole byte
    case PHP => 0x08  // whole byte
    case PLA => 0x68  // whole byte
    case PLP => 0x28  // aaa 001, bbb 010, cc 00
    case ROL => 0x22  // aaa 001, bbb 000, cc 10
    case ROR => 0x62  // aaa 011, bbb 000, cc 10
    case RTI => 0x40  // whole byte
    case RTS => 0x60  // whole byte
    case SBC => 0xE1  // aaa 111, bbb 000, cc 01
    case SEC => 0x38  // aaa 001, bbb 110, cc 00
    case SED => 0xF8  // aaa 111, bbb 110, cc 00
    case SEI => 0x78  // aaa 011, bbb 110, cc 00
    case STA => 0x81  // aaa 100, bbb 000, cc 01
    case STX => 0x82  // aaa 100, bbb 000, cc 10
    case STY => 0x80  // aaa 100, bbb 000, cc 00
    case TAX => 0xAA  // whole byte
    case TAY => 0xA8  // whole byte
    case TSX => 0xBA  // whole byte
    case TXA => 0x8A  // whole byte
    case TXS => 0x9A  // whole byte
    case TYA => 0x98  // whole byte
  }

  /// The bbb an operand gives a cc=01 or cc=10 opcode (`None`: bbb is kept);
  /// the other modes are the "impossible combination" panic, the zero-page
  /// ones `unimplemented!()`.
  function ModeBbb(b: Word, m: AddrMode): (r: Result<Option<bv8>>)
    ensures r.Ok? && r.value.Some? ==> r.value.value < 8
  {
    if Cc(b) == 1 then
      match m
      case Absolute(_) => Ok(Some(3))
      case AbsoluteX(_) => Ok(Some(7))
      case AbsoluteY(_) => Ok(Some(6))
      case Immediate(_) => Ok(Some(2))
      case Zeropage(_) => Err(Unimplemented(b))
      case ZeropageX(_) => Err(Unimplemented(b))
      case ZeropageY(_) => Err(Unimplemented(b))
      case _ => Err(IllegalAddressing)
    else if Cc(b) == 2 then
      match m
      case Absolute(_) => Ok(Some(3))
      case AbsoluteX(_) => Ok(Some(3))
      case AbsoluteY(_) => Ok(Some(3))
      case Immediate(_) => Ok(Some(0))
      case Zeropage(_) => Err(Unimplemented(b))
      case ZeropageX(_) => Err(Unimplemented(b))
      case ZeropageY(_) => Err(Unimplemented(b))
      case _ => Err(IllegalAddressing)
    else Ok(None)
  }

  /// The opcode byte `emit` pushes, from the byte its first `match` set.
  function Opcode(base: Word, operand: Option<AddrMode>): (r: Result<Word>)
    ensures operand.None? ==> r == Ok(base)
    ensures r.Err? ==> operand.Some? && (Cc(base) == 1 || Cc(base) == 2)
  {
    if operand.None? then Ok(base)
    else
      var bbb :- ModeBbb(base, operand.value);
      Ok(if bbb.Some? then UpdateBbb(base, bbb.value) else base)
  }

  /// The operand bytes: a doubleword low byte first, a word as itself.
  function OperandBytes(m: AddrMode): (bytes: seq<Word>)
    ensures |bytes| <= 2
  {
    match m
    case Absolute(d) => ToWords(d)
    case AbsoluteX(d) => ToWords(d)
    case AbsoluteY(d) => ToWords(d)
    case Indirect(d) => ToWords(d)
    case Implied => []
    case _ => [m.value]
  }

  /// The bytes `emit` appends for a parsed instruction.
  function Encode(pi: ParsedInstruction): (r: Result<seq<Word>>)
    ensures pi.instr.None? ==> r == Err(MissingInstruction)
    ensures r.Ok? ==> 1 <= |r.value| <= 3
    ensures r.Ok? ==> pi.instr.Some? && Opcode(BaseOpcode(pi.instr.value), pi.operand) == Ok(r.value[0])
  {
    if pi.instr.None? then Err(MissingInstruction)
    else
      var b :- Opcode(BaseOpcode(pi.instr.value), pi.operand);
      Ok([b] + (if pi.operand.Some? then OperandBytes(pi.operand.value) else []))
  }

  /// A line, evaluated by the corrected `Eval` and encoded.
  function Assemble(line: string): (r: Result<seq<Word>>)
    ensures Eval(line).Err? ==> r == Err(Eval(line).fault)
    ensures r.Ok? ==> 1 <= |r.value| <= 3
  {
    var pi :- Eval(line);
    Encode(pi)
  }

  /// A line, evaluated by `eval` as written and encoded.
  function AssembleAsWritten(line: string): (r: Result<seq<Word>>)
    ensures Split(line).Some? && Split(line).value.1 == "" ==> r.Err?
    ensures r.Ok? ==> 1 <= |r.value| <= 3
  {
    var pi :- EvalAsWritten(line);
    Encode(pi)
  }

  /// The first `match` of `emit`: each arm sets the whole byte or some of
  /// its fields, starting from zero.
  method InitialByte(instr: Instruction) returns (instrByte: Word)
    ensures instrByte == BaseOpcode(instr)
  {
    instrByte := 0;
    match instr
    case ADC => instrByte := UpdateAaa(instrByte, 3); instrByte := UpdateCc(instrByte, 1);
    case AND => instrByte := UpdateAaa(instrByte, 1); instrByte := UpdateCc(instrByte, 1);
    case ASL => instrByte := UpdateAaa(instrByte, 0); instrByte := UpdateCc(instrByte, 2);
    case BCC => instrByte := 0x90;
    case BCS => instrByte := 0xB0;
    case BEQ => instrByte := 0xF0;
    case BIT => instrByte := UpdateAaa(instrByte, 1); instrByte := UpdateCc(instrByte, 0);
    case BMI => instrByte := 0x30;
    case BNE => instrByte := 0xD0;
    case BPL => instrByte := 0x10;
    case BRK => instrByte := 0x00;
    case BVC => instrByte := 0x50;
    case BVS => instrByte := 0x70;
    case CLC => instrByte := UpdateBbb(instrByte, 6); instrByte := UpdateCc(instrByte, 0);
    case CLD => instrByte := UpdateAaa(instrByte, 6); instrByte := UpdateBbb(instrByte, 6);
    case CLI =>
      instrByte := UpdateAaa(instrByte, 2); instrByte := UpdateBbb(instrByte, 6);
      instrByte := UpdateCc(instrByte, 0);
    case CLV => instrByte := UpdateAaa(instrByte, 5); instrByte := UpdateBbb(instrByte, 6);
    case CMP => instrByte := UpdateAaa(instrByte, 6); instrByte := UpdateCc(instrByte, 1);
    case CPX => instrByte := UpdateAaa(instrByte, 7); instrByte := UpdateCc(instrByte, 0);
    case CPY => instrByte := UpdateAaa(instrByte, 6); instrByte := UpdateCc(instrByte, 0);
    case DEC => instrByte := UpdateAaa(instrByte, 6); instrByte := UpdateCc(instrByte, 2);
    case DEX =>
      instrByte := UpdateAaa(instrByte, 6); instrByte := UpdateBbb(instrByte, 2);
      instrByte := UpdateCc(instrByte, 2);
    case DEY => instrByte := 0x88;
    case EOR => instrByte := UpdateAaa(instrByte, 2); instrByte := UpdateCc(instrByte, 1);
    case INC => instrByte := UpdateAaa(instrByte, 7); instrByte := UpdateCc(instrByte, 2);
    case INX => instrByte := 0xE8;
    case INY => instrByte := 0xC8;
    case JMP => instrByte := UpdateAaa(instrByte, 2); instrByte := UpdateCc(instrByte, 0);
    case JSR => instrByte := 0x20;
    case LDA => instrByte := UpdateAaa(instrByte, 5); instrByte := UpdateCc(instrByte, 1);
    case LDX => instrByte := UpdateAaa(instrByte, 5); instrByte := UpdateCc(instrByte, 2);
    case LDY => instrByte := UpdateAaa(instrByte, 5); instrByte := UpdateCc(instrByte, 0);
    case LSR => instrByte := UpdateAaa(instrByte, 2); instrByte := UpdateCc(instrByte, 2);
    case NOP =>
      instrByte := UpdateAaa(instrByte, 7); instrByte := UpdateBbb(instrByte, 2);
      instrByte := UpdateCc(instrByte, 2);
    case ORA => instrByte := UpdateAaa(instrByte, 0); instrByte := UpdateCc(instrByte, 1);
    case PHA => instrByte := 0x48;
    case PHP => instrByte := 0x08;
    case PLA => instrByte := 0x68;
    case PLP => instrByte := UpdateAaa(instrByte, 1); instrByte := UpdateBbb(instrByte, 2);
    case ROL => instrByte := UpdateAaa(instrByte, 1); instrByte := UpdateCc(instrByte, 2);
    case ROR => instrByte := UpdateAaa(instrByte, 3); instrByte := UpdateCc(instrByte, 2);
    case RTI => instrByte := 0x40;
    case RTS => instrByte := 0x60;
    case SBC => instrByte := UpdateAaa(instrByte, 7); instrByte := UpdateCc(instrByte, 1);
    case SEC =>
      instrByte := UpdateAaa(instrByte, 1); instrByte := UpdateBbb(instrByte, 6);
      instrByte := UpdateCc(instrByte, 0);
    case SED => instrByte := UpdateAaa(instrByte, 7); instrByte := UpdateBbb(instrByte, 6);
    case SEI => instrByte := UpdateAaa(instrByte, 3); instrByte := UpdateBbb(instrByte, 6);
    case STA => instrByte := UpdateAaa(instrByte, 4); instrByte := UpdateCc(instrByte, 1);
    case STX => instrByte := UpdateAaa(instrByte, 4); instrByte := UpdateCc(instrByte, 2);
    case STY => instrByte := UpdateAaa(instrByte, 4); instrByte := UpdateCc(instrByte, 0);
    case TAX => instrByte := 0xAA;
    case TAY => instrByte := 0xA8;
    case TSX => instrByte := 0xBA;
    case TXA => instrByte := 0x8A;
    case TXS => instrByte := 0x9A;
    case TYA => instrByte := 0x98;
  }

  /// `emit`: the opcode byte, its bbb replaced according to the operand
  /// for cc=01 and cc=10, then the operand bytes, appended to `stream`.
  method Emit(pi: ParsedInstruction, stream: seq<Word>) returns (r: Result<seq<Word>>)
    ensures r == (var bytes :- Encode(pi); Ok(stream + bytes))
  {
    if pi.instr.None? {
      return Err(MissingInstruction);
    }
    var instrByte := InitialByte(pi.instr.value);
    if pi.operand.Some? && (Cc(instrByte) == 1 || Cc(instrByte) == 2) {
      var bbb :- ModeBbb(instrByte, pi.operand.value);
      instrByte := UpdateBbb(instrByte, bbb.value);
    }
    var out := stream + [instrByte];
    if pi.operand.Some? {
      out := out + OperandBytes(pi.operand.value);
      assert out == stream + ([instrByte] + OperandBytes(pi.operand.value));
    } else {
      assert out == stream + ([instrByte] + []);
    }
    r := Ok(out);
  }

  /// `parse_line`: `eval`, then `emit` onto the stream.  It evaluates with
  /// the corrected `Eval`, so it agrees with the code as written exactly
  /// on the lines whose operand is not empty.
  method ParseLine(line: string, stream: seq<Word>) returns (r: Result<seq<Word>>)
    ensures r == (var bytes :- Assemble(line); Ok(stream + bytes))
    ensures Split(line).None? || Split(line).value.1 != "" ==>
              r == (var bytes :- AssembleAsWritten(line); Ok(stream + bytes))
  {
    EvalAsWrittenAgrees(line);
    var instr :- Eval(line);
    r := Emit(instr, stream);
  }

  // Properties of the encoding.

  /// The operand only ever replaces bbb: aaa and cc stay those of the
  /// instruction.
  lemma OpcodeKeepsAaaCc(base: Word, operand: Option<AddrMode>)
    ensures Opcode(base, operand).Ok? ==>
              Aaa(Opcode(base, operand).value) == Aaa(base) && Cc(Opcode(base, operand).value) == Cc(base)
  {
  }

  /// A cc=00 opcode, among them every fixed byte but four, is emitted as
  /// it is whatever the operand.
  lemma CcZeroKeepsOpcode(base: Word, operand: Option<AddrMode>)
    requires Cc(base) == 0
    ensures Opcode(base, operand) == Ok(base)
  {
  }

  /// The opcode of an operand whose mode gives a bbb: the instruction's
  /// aaa and cc with that bbb.
  lemma AdjustedFields(base: Word, m: AddrMode)
    requires ModeBbb(base, m).Ok? && ModeBbb(base, m).value.Some?
    ensures Opcode(base, Some(m)) == Ok(FieldsByte(Aaa(base), ModeBbb(base, m).value.value, Cc(base)))
  {
    FieldsDetermineByte(UpdateBbb(base, ModeBbb(base, m).value.value),
                        FieldsByte(Aaa(base), ModeBbb(base, m).value.value, Cc(base)));
  }

  /// The cc=01 group, ORA AND EOR ADC STA LDA CMP SBC, and no other
  /// instruction, has cc=01.
  lemma GroupOneInstructions(i: Instruction)
    ensures Cc(BaseOpcode(i)) == 1 <==> i.ORA? || i.AND? || i.EOR? || i.ADC? || i.STA? || i.LDA? || i.CMP? || i.SBC?
  {
  }


  /// A cc=01 opcode is `aaa << 5 | bbb << 2 | 01` with bbb 011, 111, 110 or
  /// 010 for an absolute, absolute X, absolute Y or immediate operand;
  /// the zero-page modes are unimplemented and every other mode panics.
  lemma GroupOneAddressing(base: Word, m: AddrMode)
    requires Cc(base) == 1
    ensures m.Absolute? ==> Opcode(base, Some(m)) == Ok(FieldsByte(Aaa(base), 3, 1))
    ensures m.AbsoluteX? ==> Opcode(base, Some(m)) == Ok(FieldsByte(Aaa(base), 7, 1))
    ensures m.AbsoluteY? ==> Opcode(base, Some(m)) == Ok(FieldsByte(Aaa(base), 6, 1))
    ensures m.Immediate? ==> Opcode(base, Some(m)) == Ok(FieldsByte(Aaa(base), 2, 1))
    ensures m.Zeropage? || m.ZeropageX? || m.ZeropageY? ==> Opcode(base, Some(m)) == Err(Unimplemented(base))
    ensures m.Implied? || m.Indirect? || m.IndirectX? || m.IndirectY? || m.Relative? ==>
              Opcode(base, Some(m)) == Err(IllegalAddressing)
  {
    if m.Absolute? || m.AbsoluteX? || m.AbsoluteY? || m.Immediate? {
      AdjustedFields(base, m);
    }
  }

  /// The cc=10 instructions: the shifts and rotates, STX, LDX, DEC, INC,
  /// DEX, NOP, and the fixed TAX, TXA, TXS and TSX.
  lemma GroupTwoInstructions(i: Instruction)
    ensures Cc(BaseOpcode(i)) == 2 <==>
              i.ASL? || i.ROL? || i.LSR? || i.ROR? || i.STX? || i.LDX? || i.DEC? || i.INC?
              || i.DEX? || i.NOP? || i.TAX? || i.TXA? || i.TXS? || i.TSX?
  {
    if i.ASL? || i.ROL? || i.LSR? || i.ROR? || i.STX? || i.LDX? || i.DEC? {
      GroupTwoIncludesFirst(i);
    } else if i.INC? || i.DEX? || i.NOP? || i.TAX? || i.TXA? || i.TXS? || i.TSX? {
      GroupTwoIncludesSecond(i);
    } else {
      GroupTwoExcludes(i);
    }
  }

  lemma GroupTwoIncludesFirst(i: Instruction)
    requires i.ASL? || i.ROL? || i.LSR? || i.ROR? || i.STX? || i.LDX? || i.DEC?
    ensures Cc(BaseOpcode(i)) == 2
  {
  }

  lemma GroupTwoIncludesSecond(i: Instruction)
    requires i.INC? || i.DEX? || i.NOP? || i.TAX? || i.TXA? || i.TXS? || i.TSX?
    ensures Cc(BaseOpcode(i)) == 2
  {
  }

  lemma GroupTwoExcludes(i: Instruction)
    requires !(i.ASL? || i.ROL? || i.LSR? || i.ROR? || i.STX? || i.LDX? || i.DEC? || i.INC?
               || i.DEX? || i.NOP? || i.TAX? || i.TXA? || i.TXS? || i.TSX?)
    ensures Cc(BaseOpcode(i)) != 2
  {
  }


  /// A cc=10 opcode takes bbb 011 for all three absolute modes and 000 for
  /// an immediate operand; an implied operand, like every mode but the
  /// zero-page ones, panics, so none of the cc=10 instructions can be
  /// written without an operand.
  lemma GroupTwoAddressing(base: Word, m: AddrMode)
    requires Cc(base) == 2
    ensures m.Absolute? || m.AbsoluteX? || m.AbsoluteY? ==> Opcode(base, Some(m)) == Ok(FieldsByte(Aaa(base), 3, 2))
    ensures m.Immediate? ==> Opcode(base, Some(m)) == Ok(FieldsByte(Aaa(base), 0, 2))
    ensures m.Zeropage? || m.ZeropageX? || m.ZeropageY? ==> Opcode(base, Some(m)) == Err(Unimplemented(base))
    ensures m.Implied? || m.Indirect? || m.IndirectX? || m.IndirectY? || m.Relative? ==>
              Opcode(base, Some(m)) == Err(IllegalAddressing)
  {
    if m.Absolute? || m.AbsoluteX? || m.AbsoluteY? || m.Immediate? {
      AdjustedFields(base, m);
    }
  }

  /// An encoded instruction is its opcode followed by the operand bytes:
  /// two, low byte first, for an address; one for a byte operand; none
  /// for `Implied`.
  lemma EncodeLayout(pi: ParsedInstruction)
    requires Encode(pi).Ok? && pi.operand.Some?
    ensures var bytes, m := Encode(pi).value, pi.operand.value;
            && bytes[0] == Opcode(BaseOpcode(pi.instr.value), pi.operand).value
            && (m.Absolute? || m.AbsoluteX? || m.AbsoluteY? || m.Indirect? ==>
                  |bytes| == 3 && FromWords(bytes[2], bytes[1]) == m.address)
            && (m.Implied? ==> |bytes| == 1)
            && (!(m.Absolute? || m.AbsoluteX? || m.AbsoluteY? || m.Indirect? || m.Implied?) ==>
                  |bytes| == 2 && bytes[1] == m.value)
  {
    var m := pi.operand.value;
    if m.Absolute? || m.AbsoluteX? || m.AbsoluteY? || m.Indirect? {
      FromWordsToWords(m.address);
    }
  }

  // Worked examples: the first two lines of the assembler's test program,
  // and two implied instructions.

  // Parsing what is printed.

  /// No operand form holds a line break or begins with whitespace, and
  /// the one with no prefix is empty.
  lemma FormIsOneWord(i: nat)
    requires i < FORM_COUNT
    ensures '\n' !in FormAt(i).prefix && '\n' !in FormAt(i).suffix
    ensures |FormAt(i).prefix| > 0 ==> !IsWhitespace(FormAt(i).prefix[0])
    ensures FormAt(i).prefix == "" ==> FormAt(i).digits == 0 && FormAt(i).suffix == ""
  {
  }

  /// Upper-case digits are neither line breaks nor whitespace.
  lemma UpperDigitsAreOneWord(g: string)
    requires AllUpperHexDigits(g)
    ensures '\n' !in g
    ensures |g| > 0 ==> !IsWhitespace(g[0])
  {
    forall k | 0 <= k < |g|
      ensures g[k] != '\n'
    {
      assert IsUpperHexDigit(g[k]);
    }
  }

  /// The printed form of an operand has no line break and does not start
  /// with whitespace.
  lemma OperandTextIsOneWord(m: AddrMode)
    requires OperandText(m).Some?
    ensures forall k :: 0 <= k < |OperandText(m).value| ==> OperandText(m).value[k] != '\n'
    ensures |OperandText(m).value| > 0 ==> !IsWhitespace(OperandText(m).value[0])
  {
    var f := FormAt(FormOf(m));
    OperandDigitsFit(m);
    FormIsOneWord(FormOf(m));
    var g := OperandDigits(m);
    UpperDigitsAreOneWord(g);
    var o := OperandText(m).value;
    assert o == f.prefix + g + f.suffix;
    assert '\n' !in o;
    forall k | 0 <= k < |o|
      ensures o[k] != '\n'
    {
      assert o[k] in o;
    }
    if |f.prefix| > 0 {
      assert o[0] == f.prefix[0];
    } else {
      assert o == g;
    }
  }

  /// A mnemonic followed by a printed operand evaluates to that
  /// instruction and operand.
  lemma EvalPrinted(i: Instruction, m: AddrMode)
    requires OperandText(m).Some?
    ensures Eval(JoinLine(Mnemonic(i), OperandText(m).value)) == Ok(ParsedInstruction(Some(i), Some(m)))
  {
    var mnemonic, operand := Mnemonic(i), OperandText(m).value;
    OperandTextIsOneWord(m);
    SplitJoin(mnemonic, operand);
    EvalOperationKnowsEveryMnemonic(i);
    ClassifyPrinted(m);
    EvalFrom(JoinLine(mnemonic, operand), mnemonic, operand, i, m);
  }

  /// `eval` from its steps: the split, the mnemonic, the operand.
  lemma EvalFrom(line: string, mnemonic: string, operand: string, i: Instruction, m: AddrMode)
    requires Split(line) == Some((mnemonic, operand))
    requires EvalOperation(mnemonic) == Ok(i) && Classify(operand) == Ok(m)
    ensures Eval(line) == Ok(ParsedInstruction(Some(i), Some(m)))
  {
  }

  /// A mnemonic followed by a printed operand assembles to the encoding of
  /// that instruction and operand.
  lemma AssemblePrinted(i: Instruction, m: AddrMode)
    requires OperandText(m).Some?
    ensures Assemble(JoinLine(Mnemonic(i), OperandText(m).value)) == Encode(ParsedInstruction(Some(i), Some(m)))
  {
    EvalPrinted(i, m);
  }

  /// An implied operand adds no byte to the opcode.
  lemma EncodeImplied(i: Instruction)
    ensures Encode(ParsedInstruction(Some(i), Some(Implied)))
            == (var b :- Opcode(BaseOpcode(i), Some(Implied)); Ok([b]))
  {
    var opcode := Opcode(BaseOpcode(i), Some(Implied));
    assert OperandBytes(Implied) == [];
    if opcode.Ok? {
      assert [opcode.value] + [] == [opcode.value];
      assert Encode(ParsedInstruction(Some(i), Some(Implied))) == Ok([opcode.value]);
    } else {
      assert Encode(ParsedInstruction(Some(i), Some(Implied))) == Err(opcode.fault);
    }
  }

  /// As written, a mnemonic alone never assembles: its operand is empty.
  lemma BareMnemonicAsWritten(i: Instruction)
    ensures AssembleAsWritten(Mnemonic(i)) == Err(NoCaptureGroup(""))
  {
    var mnemonic := Mnemonic(i);
    SplitJoin(mnemonic, "");
    assert JoinLine(mnemonic, "") == mnemonic;
    EvalOperationKnowsEveryMnemonic(i);
    EvalAsWrittenAgrees(mnemonic);
  }

  /// With the corrected classifier, a mnemonic alone assembles to its
  /// opcode when it has cc=00; with cc=01 or cc=10 the implied operand
  /// panics in `emit`.
  lemma AssembleMnemonicAlone(i: Instruction)
    ensures Cc(BaseOpcode(i)) == 0 ==> Assemble(Mnemonic(i)) == Ok([BaseOpcode(i)])
    ensures Cc(BaseOpcode(i)) == 1 || Cc(BaseOpcode(i)) == 2 ==> Assemble(Mnemonic(i)) == Err(IllegalAddressing)
  {
    PrintedImplied();
    AssemblePrinted(i, Implied);
    assert JoinLine(Mnemonic(i), "") == Mnemonic(i);
    EncodeImplied(i);
    var b := BaseOpcode(i);
    if Cc(b) == 0 {
      CcZeroKeepsOpcode(b, Some(Implied));
    } else if Cc(b) == 1 {
      GroupOneAddressing(b, Implied);
    } else if Cc(b) == 2 {
      GroupTwoAddressing(b, Implied);
    }
  }

  lemma PrintedImplied()
    ensures OperandText(Implied) == Some("")
  {
    assert FormAt(FormOf(Implied)) == Form("", 0, "");
    assert "" + OperandDigits(Implied) + "" == "";
  }

  lemma PrintedOne()
    ensures OperandText(Immediate(0x01)) == Some("#$01")
  {
    assert (0x01 as bv8) as nat == 1;
    assert OperandDigits(Immediate(0x01)) == HexDigits(1, 2) == "01";
    assert FormAt(FormOf(Immediate(0x01))) == Form("#$", 2, "");
    assert "#$" + "01" + "" == "#$01";
  }

  lemma PrintedTwoHundred()
    ensures OperandText(Absolute(0x0200)) == Some("$0200")
  {
    assert (0x0200 as bv16) as nat == 0x200;
    assert OperandDigits(Absolute(0x0200)) == HexDigits(0x200, 4) == "0200";
    assert FormAt(FormOf(Absolute(0x0200))) == Form("$", 4, "");
    assert "$" + "0200" + "" == "$0200";
  }

  lemma EncodeLdaImmediate()
    ensures Encode(ParsedInstruction(Some(LDA), Some(Immediate(0x01)))) == Ok([0xA9, 0x01])
  {
    var base := BaseOpcode(LDA);
    assert base == FieldsByte(5, 0, 1);
    assert Aaa(base) == 5 && Cc(base) == 1;
    GroupOneAddressing(base, Immediate(0x01));
    assert FieldsByte(5, 2, 1) == 0xA9;
    assert Opcode(base, Some(Immediate(0x01))) == Ok(0xA9);
    assert OperandBytes(Immediate(0x01)) == [0x01];
    var bytes: seq<Word> := [0xA9] + [0x01];
    assert bytes == [0xA9, 0x01];
  }

  lemma EncodeStaAbsolute()
    ensures Encode(ParsedInstruction(Some(STA), Some(Absolute(0x0200)))) == Ok([0x8D, 0x00, 0x02])
  {
    var base := BaseOpcode(STA);
    assert base == FieldsByte(4, 0, 1);
    assert Aaa(base) == 4 && Cc(base) == 1;
    GroupOneAddressing(base, Absolute(0x0200));
    assert FieldsByte(4, 3, 1) == 0x8D;
    assert Opcode(base, Some(Absolute(0x0200))) == Ok(0x8D);
    ToWordsFromWords(0x02, 0x00);
    assert FromWords(0x02, 0x00) == 0x0200;
    assert OperandBytes(Absolute(0x0200)) == [0x00, 0x02];
    var bytes: seq<Word> := [0x8D] + [0x00, 0x02];
    assert bytes == [0x8D, 0x00, 0x02];
  }

  lemma AssembleLdaImmediate()
    ensures Assemble("LDA #$01") == Ok([0xA9, 0x01])
  {
    PrintedOne();
    assert JoinLine(Mnemonic(LDA), OperandText(Immediate(0x01)).value) == "LDA #$01";
    AssemblePrinted(LDA, Immediate(0x01));
    EncodeLdaImmediate();
  }

  lemma AssembleStaAbsolute()
    ensures Assemble("STA $0200") == Ok([0x8D, 0x00, 0x02])
  {
    PrintedTwoHundred();
    assert JoinLine(Mnemonic(STA), OperandText(Absolute(0x0200)).value) == "STA $0200";
    AssemblePrinted(STA, Absolute(0x0200));
    EncodeStaAbsolute();
  }

  /// As written, `RTS` panics in `eval_operand`.
  lemma RtsAsWritten()
    ensures AssembleAsWritten("RTS") == Err(NoCaptureGroup(""))
  {
    BareMnemonicAsWritten(RTS);
    assert Mnemonic(RTS) == "RTS";
  }

  /// With the corrected operand classification an implied instruction
  /// assembles to its single byte.
  lemma AssembleRts()
    ensures Assemble("RTS") == Ok([0x60])
  {
    PrintedImplied();
    assert JoinLine(Mnemonic(RTS), OperandText(Implied).value) == "RTS";
    AssemblePrinted(RTS, Implied);
    EncodeImplied(RTS);
    assert BaseOpcode(RTS) == 0x60;
    CcZeroKeepsOpcode(0x60, Some(Implied));
  }

  /// As written, `TAX` panics in `eval_operand`, as every mnemonic alone
  /// does.
  lemma TaxAsWritten()
    ensures AssembleAsWritten("TAX") == Err(NoCaptureGroup(""))
  {
    BareMnemonicAsWritten(TAX);
    assert Mnemonic(TAX) == "TAX";
  }

  /// With the corrected classifier `TAX` still panics, later: it is a
  /// fixed byte with cc=10, and `emit` refuses the implied operand for
  /// cc=10.  As written it never gets that far: `TaxAsWritten` panics on
  /// `&cap[1]` in `eval_operand`.
  lemma AssembleTaxPanics()
    ensures Assemble("TAX") == Err(IllegalAddressing)
  {
    PrintedImplied();
    assert JoinLine(Mnemonic(TAX), OperandText(Implied).value) == "TAX";
    AssemblePrinted(TAX, Implied);
    EncodeImplied(TAX);
    assert BaseOpcode(TAX) == 0xAA;
    GroupTwoAddressing(0xAA, Implied);
  }

  /// BIT and JSR both leave the first `match` as 0x20, a cc=00 byte the
  /// operand does not change.
  lemma EncodeJsrByteAbsolute(i: Instruction)
    requires i.BIT? || i.JSR?
    ensures Encode(ParsedInstruction(Some(i), Some(Absolute(0x0200)))) == Ok([0x20, 0x00, 0x02])
  {
    var base := BaseOpcode(i);
    assert base == 0x20;
    assert Cc(base) == 0;
    CcZeroKeepsOpcode(base, Some(Absolute(0x0200)));
    ToWordsFromWords(0x02, 0x00);
    assert FromWords(0x02, 0x00) == 0x0200;
    assert OperandBytes(Absolute(0x0200)) == [0x00, 0x02];
    var bytes: seq<Word> := [0x20] + [0x00, 0x02];
    assert bytes == [0x20, 0x00, 0x02];
  }

  /// The cc=00 arms set no bbb and the operand does not change it, so
  /// `BIT $0200` is emitted with JSR's byte: the same bytes as
  /// `JSR $0200`.
  lemma AssembleBitAbsolute()
    ensures Assemble("BIT $0200") == Ok([0x20, 0x00, 0x02])
  {
    PrintedTwoHundred();
    assert JoinLine(Mnemonic(BIT), OperandText(Absolute(0x0200)).value) == "BIT $0200";
    AssemblePrinted(BIT, Absolute(0x0200));
    EncodeJsrByteAbsolute(BIT);
  }

  lemma AssembleJsrAbsolute()
    ensures Assemble("JSR $0200") == Ok([0x20, 0x00, 0x02])
  {
    PrintedTwoHundred();
    assert JoinLine(Mnemonic(JSR), OperandText(Absolute(0x0200)).value) == "JSR $0200";
    AssemblePrinted(JSR, Absolute(0x0200));
    EncodeJsrByteAbsolute(JSR);
  }
}
