/// The emulator's two value types, `word` (a byte) and `doubleword` (an
/// address or program counter), with their bit queries, conversions,
/// shift/rotate-with-carry helpers and arithmetic.  Every operation builds a
/// new value from its inputs.  Rust's unchecked `+`/`-` panic on overflow in
/// a debug build; here they carry the no-overflow condition as a `requires`,
/// and the exact result is stated in a wider bit-vector so that "no wrap" is
/// visible in the contract.
module Words {
  import opened Outcome

  type Word = bv8
  type DoubleWord = bv16

  /// Bit 8: the carry out of an 8-bit sum computed in 16 bits.
  const CARRY_BIT: bv16 := 0x100

  /// `carry_bit_u16`: is bit 8 of `v` set?
  function CarryBitU16(v: bv16): (r: bool)
    ensures r <==> (v >> 8) & 1 == 1
  {
    v & CARRY_BIT != 0
  }

  /// `get_bit_at_u8`: bit `n` of a byte, or nothing when `n` is not a bit index.
  function GetBitAtU8(data: bv8, n: bv8): (r: Option<bool>)
    ensures r.Some? <==> n <= 7
    ensures n <= 7 ==> (r.value <==> (data >> n) & 1 == 1)
  {
    if n <= 7 then Some(data & (1 << n) != 0) else None
  }

  /// `get_bit_at_u16`: the same query on a 16-bit value, for n up to 15.
  function GetBitAtU16(data: bv16, n: bv8): (r: Option<bool>)
    ensures r.Some? <==> n <= 15
    ensures n <= 15 ==> (r.value <==> (data >> n) & 1 == 1)
  {
    if n <= 15 then BitQuery16(data, n); Some(data & (1 << n) != 0) else None
  }

  /// Masking bit `n` and shifting it down agree; the split over `n` keeps
  /// each 16-bit case small for the solver.
  lemma BitQuery16(data: bv16, n: bv8)
    requires n <= 15
    ensures (data & (1 << n) != 0) <==> (data >> n) & 1 == 1
  {
    if n < 8 {
      if n < 4 { if n < 2 {} else {} } else { if n < 6 {} else {} }
    } else {
      if n < 12 { if n < 10 {} else {} } else { if n < 14 {} else {} }
    }
  }

  /// `word::bit_at` delegates to the byte query.
  function BitAt(w: Word, n: bv8): (r: Option<bool>)
    ensures r.Some? <==> n <= 7
    ensures n <= 7 ==> (r.value <==> (w >> n) & 1 == 1)
  {
    GetBitAtU8(w, n)
  }

  /// `doubleword::bit_at` delegates to the 16-bit query.
  function DoubleBitAt(d: DoubleWord, n: bv8): (r: Option<bool>)
    ensures r.Some? <==> n <= 15
    ensures n <= 15 ==> (r.value <==> (d >> n) & 1 == 1)
  {
    GetBitAtU16(d, n)
  }

  /// `native_value_signed`: the byte read as a two's-complement `i8`.
  function NativeValueSigned(w: Word): (r: int)
    ensures -128 <= r < 128
    ensures r < 0 <==> w >= 0x80
    ensures r == 0 <==> w == 0
  {
    if w < 0x80 then w as int else w as int - 256
  }

  /// The `i8` reading agrees with the byte modulo 256.
  lemma NativeValueSignedResidue(w: Word)
    ensures (NativeValueSigned(w) - w as int) % 256 == 0
  {
  }

  /// `as_doubleword`: zero extension.
  function AsDoubleWord(w: Word): (r: DoubleWord)
    ensures r >> 8 == 0
    ensures r as bv8 == w
  {
    w as bv16
  }

  /// `From<u16>` and `From<i16>` for `word` (an `i16` is carried as its
  /// 16-bit pattern): only the low 8 bits survive.
  function LowByte(v: bv16): (r: Word)
    ensures AsDoubleWord(r) == v & 0xFF
  {
    (v & 0xFF) as bv8
  }

  lemma LowByteAsDoubleWord(w: Word)
    ensures LowByte(AsDoubleWord(w)) == w
  {
  }

  /// Widening a 16-bit value to an integer loses nothing; the solver sees
  /// this through the round trip back to 16 bits.
  lemma AsIntInjective(i: bv16, j: bv16)
    requires i as int == j as int
    ensures i == j
  {
    assert (i as int) as bv16 == i;
    assert (j as int) as bv16 == j;
  }

  // Shifts and rotates that also return the bit shifted out.

  /// `logical_shift_left_carry`: shift the zero-extended byte left in 16 bits;
  /// the result is the low byte and the carry is bit 8.  A shift by 16 or
  /// more overflows `u16`.
  function LogicalShiftLeftCarry(v: Word, rhs: bv16): (r: (Word, bool))
    requires rhs < 16
    ensures rhs <= 8 ==> r.0 == v << rhs
    ensures rhs == 0 ==> !r.1
    ensures 1 <= rhs <= 8 ==> (r.1 <==> (v >> (8 - rhs)) & 1 == 1)
    ensures rhs > 8 ==> r == (0, false)
  {
    var intermediate := (v as bv16) << rhs;
    ((intermediate & 0xFF) as bv8, CarryBitU16(intermediate))
  }

  /// `logical_shift_right_carry`: a 16-bit rotate right of the zero-extended
  /// byte; the result is the low byte and the carry is bit 15.  The rotate
  /// amount is taken modulo 16, so it never panics.
  function LogicalShiftRightCarry(v: Word, rhs: bv32): (r: (Word, bool))
    ensures rhs % 16 == 0 ==> r == (v, false)
    ensures 1 <= rhs % 16 <= 8 ==> r.0 == v >> (rhs % 16)
    ensures 1 <= rhs % 16 <= 8 ==> (r.1 <==> (v >> (rhs % 16 - 1)) & 1 == 1)
    ensures rhs % 16 > 8 ==> r.0 == v << (16 - rhs % 16) && !r.1
  {
    var intermediate := (v as bv16).RotateRight((rhs % 16) as int);
    ((intermediate & 0xFF) as bv8, intermediate & 0x8000 != 0)
  }

  /// `arith_shift_left_carry`: the byte, widened to `i16`, shifted left; the
  /// bit pattern is that of the logical shift.
  function ArithShiftLeftCarry(v: Word, rhs: bv8): (r: (Word, bool))
    requires rhs < 16
    ensures r == LogicalShiftLeftCarry(v, rhs as bv16)
  {
    var intermediate := (v as bv16) << rhs;
    ((intermediate & 0xFF) as bv8, CarryBitU16(intermediate))
  }

  /// `arith_shift_right_carry`: an `i8` arithmetic shift right, so the vacated
  /// high bits copy bit 7; the carry is bit 0 of the input whatever the
  /// amount.  A shift by 8 or more overflows `i8`.
  function ArithShiftRightCarry(v: Word, rhs: bv8): (r: (Word, bool))
    requires rhs < 8
    ensures r.1 <==> v & 1 == 1
    ensures r.0 << rhs == v & (0xFF << rhs)
    ensures r.0 >> (7 - rhs) == if v >= 0x80 then 0xFF >> (7 - rhs) else 0
  {
    var shifted := if v >= 0x80 then !((!v) >> rhs) else v >> rhs;
    (shifted, v & 1 != 0)
  }

  /// `rotate_left_carry`: the receiver is ignored; `data` moves left by one,
  /// the old carry enters at bit 0 and bit 7 leaves as the new carry.
  function RotateLeftCarry(data: Word, carry: bool): (r: (Word, bool))
    ensures r.1 <==> data >= 0x80
    ensures r.0 >> 1 == data & 0x7F
    ensures (r.0 & 1 == 1) <==> carry
  {
    var retCarry := BitAt(data, 7).value;
    ((data << 1) | (if carry then 1 else 0), retCarry)
  }

  /// `rotate_right_carry`: the receiver is ignored; `data` moves right by one,
  /// the old carry enters at bit 7 and bit 0 leaves as the new carry.
  function RotateRightCarry(data: Word, carry: bool): (r: (Word, bool))
    ensures r.1 <==> data & 1 == 1
    ensures r.0 << 1 == data & 0xFE
    ensures r.0 >= 0x80 <==> carry
  {
    var retCarry := BitAt(data, 0).value;
    ((data >> 1) | ((if carry then 1 else 0) << 7), retCarry)
  }

  /// Rotating left and then right through the carry restores byte and carry.
  lemma RotateRoundTrip(data: Word, carry: bool)
    ensures RotateRightCarry(RotateLeftCarry(data, carry).0, RotateLeftCarry(data, carry).1) == (data, carry)
    ensures RotateLeftCarry(RotateRightCarry(data, carry).0, RotateRightCarry(data, carry).1) == (data, carry)
  {
  }

  // Byte arithmetic.

  /// `ClAdd` for `word`: addition modulo 256.
  function ClAdd(a: Word, b: Word): (r: Word)
    ensures r as bv16 == (a as bv16 + b as bv16) % 0x100
  {
    a + b
  }

  /// `Add<word>`/`Add<u8>` for `word`: defined only when the sum fits a byte,
  /// and then it is the exact sum.
  function Add(a: Word, b: Word): (r: Word)
    requires (a as bv16 + b as bv16) >> 8 == 0
    ensures r as bv16 == a as bv16 + b as bv16
  {
    a + b
  }

  /// `Sub<word>`/`Sub<u8>` for `word`: defined only without borrow.
  function Sub(a: Word, b: Word): (r: Word)
    requires b <= a
    ensures r <= a && r as bv16 + b as bv16 == a as bv16
  {
    a - b
  }

  // Doublewords.

  /// `from_words`: `lo` is the low byte, `hi` the high byte (little endian).
  function FromWords(hi: Word, lo: Word): (r: DoubleWord)
    ensures r == hi as bv16 * 0x100 + lo as bv16
  {
    (hi as bv16 << 8) | lo as bv16
  }

  /// `to_words`: the little-endian bytes, low byte first.
  function ToWords(d: DoubleWord): (r: seq<Word>)
    ensures |r| == 2
    ensures r[0] as bv16 == d % 0x100 && r[1] as bv16 == d / 0x100
  {
    [(d & 0xFF) as bv8, (d >> 8) as bv8]
  }

  lemma ToWordsFromWords(hi: Word, lo: Word)
    ensures ToWords(FromWords(hi, lo)) == [lo, hi]
  {
  }

  lemma FromWordsToWords(d: DoubleWord)
    ensures FromWords(ToWords(d)[1], ToWords(d)[0]) == d
  {
  }

  /// `ClAdd<doubleword>`: addition modulo 65536.
  function DoubleClAdd(a: DoubleWord, b: DoubleWord): (r: DoubleWord)
    ensures r as bv32 == (a as bv32 + b as bv32) % 0x10000
  {
    a + b
  }

  /// `ClAdd<word>` for `doubleword`: the byte is zero-extended, then the sum
  /// wraps modulo 65536.
  function DoubleClAddWord(a: DoubleWord, w: Word): (r: DoubleWord)
    ensures r as bv32 == (a as bv32 + w as bv32) % 0x10000
  {
    a + w as bv16
  }

  /// `Add<doubleword>`/`Add<u16>`: defined only when the sum fits 16 bits.
  function DoubleAdd(a: DoubleWord, b: DoubleWord): DoubleWord
    requires (a as bv32 + b as bv32) >> 16 == 0
  {
    a + b
  }

  /// Within its precondition `DoubleAdd` does not wrap.
  lemma DoubleAddExact(a: DoubleWord, b: DoubleWord)
    requires (a as bv32 + b as bv32) >> 16 == 0
    ensures DoubleAdd(a, b) as bv32 == a as bv32 + b as bv32
  {
  }

  /// `Add<word>`/`Add<u8>` for `doubleword`: the byte is zero-extended and the
  /// sum must fit 16 bits.
  function DoubleAddWord(a: DoubleWord, w: Word): DoubleWord
    requires (a as bv32 + w as bv32) >> 16 == 0
  {
    a + w as bv16
  }

  /// Within its precondition `DoubleAddWord` does not wrap.
  lemma DoubleAddWordExact(a: DoubleWord, w: Word)
    requires (a as bv32 + w as bv32) >> 16 == 0
    ensures DoubleAddWord(a, w) as bv32 == a as bv32 + w as bv32
  {
  }

  /// No `i16` overflow in `a + b`, both read as `i16`: when the sign bits
  /// agree, the sum keeps that sign bit.
  predicate NoI16Overflow(a: bv16, b: bv16)
  {
    (a >> 15) != (b >> 15) || ((a + b) >> 15) == (a >> 15)
  }

  /// `Add<i16>` for `doubleword`: the address is reinterpreted as `i16`, the
  /// `i16` addition must not overflow, and the sum is reinterpreted as `u16`.
  /// Two's complement makes that the same bit pattern as the 16-bit wrapping
  /// sum.
  function AddI16(d: DoubleWord, offset: bv16): DoubleWord
    requires NoI16Overflow(d, offset)
  {
    d + offset
  }

  /// `AddI16` is the 16-bit wrapping sum of the two patterns.
  lemma AddI16Wraps(d: DoubleWord, offset: bv16)
    requires NoI16Overflow(d, offset)
    ensures AddI16(d, offset) as bv32 == (d as bv32 + offset as bv32) % 0x10000
  {
  }

  // The operators as they behave in a build that checks overflow: the value,
  // or the panic.

  function CheckedAdd(a: Word, b: Word): Result<Word>
  {
    if (a as bv16 + b as bv16) >> 8 == 0 then Ok(Add(a, b)) else Err(ArithmeticOverflow)
  }

  function CheckedSub(a: Word, b: Word): Result<Word>
  {
    if b <= a then Ok(Sub(a, b)) else Err(ArithmeticOverflow)
  }

  function CheckedDoubleAdd(a: DoubleWord, b: DoubleWord): Result<DoubleWord>
  {
    if (a as bv32 + b as bv32) >> 16 == 0 then Ok(DoubleAdd(a, b)) else Err(ArithmeticOverflow)
  }

  function CheckedDoubleAddWord(a: DoubleWord, w: Word): Result<DoubleWord>
  {
    if (a as bv32 + w as bv32) >> 16 == 0 then Ok(DoubleAddWord(a, w)) else Err(ArithmeticOverflow)
  }

  function CheckedAddI16(d: DoubleWord, offset: bv16): Result<DoubleWord>
  {
    if NoI16Overflow(d, offset) then Ok(AddI16(d, offset)) else Err(ArithmeticOverflow)
  }

  /// A checked 16-bit sum that succeeds is the exact sum.
  lemma CheckedDoubleAddExact(a: DoubleWord, b: DoubleWord, c: DoubleWord)
    requires CheckedDoubleAdd(a, b) == Ok(c)
    ensures c as bv32 == a as bv32 + b as bv32
  {
    DoubleAddExact(a, b);
  }

  /// Adding a zero-extended byte to an address as `i16`: it succeeds from
  /// the upper half, where the address reads as negative, or when the sum
  /// stays below 0x8000, and gives the 16-bit wrapping sum.
  lemma CheckedAddI16Byte(d: DoubleWord, off: bv16)
    requires off < 0x100
    ensures CheckedAddI16(d, off) == if d >= 0x8000 || d + off < 0x8000 then Ok(d + off) else Err(ArithmeticOverflow)
  {
  }

  /// A checked address-plus-byte is the wrapping sum when it does not
  /// leave 16 bits.
  lemma CheckedDoubleAddWordSum(a: DoubleWord, w: Word)
    ensures CheckedDoubleAddWord(a, w)
         == if (a as bv32 + w as bv32) >> 16 == 0 then Ok(a + w as bv16) else Err(ArithmeticOverflow)
  {
  }

  /// Two zero-extended bytes always add within 16 bits, exactly.
  lemma ZeroExtendedSum(a: Word, b: Word)
    ensures CheckedDoubleAdd(AsDoubleWord(a), AsDoubleWord(b)) == Ok(AsDoubleWord(a) + AsDoubleWord(b))
    ensures (AsDoubleWord(a) + AsDoubleWord(b)) as bv32 == a as bv32 + b as bv32
  {
    var x, y := AsDoubleWord(a), AsDoubleWord(b);
    assert x < 0x100 && y < 0x100;
    assert (x as bv32 + y as bv32) >> 16 == 0;
    DoubleAddExact(x, y);
  }

  // The aaabbbcc fields of an opcode byte.

  /// Bits 7-5: the operation.
  function Aaa(w: Word): (r: bv8)
    ensures r < 8 && r << 5 == w & 0xE0
  {
    w >> 5
  }

  /// Bits 4-2: the addressing mode.
  function Bbb(w: Word): (r: bv8)
    ensures r < 8 && r << 2 == w & 0x1C
  {
    (w >> 2) & 7
  }

  /// Bits 1-0: the instruction group.
  function Cc(w: Word): (r: bv8)
    ensures r < 4 && r == w & 0x03
  {
    w & 3
  }

  /// `update_aaa`: replace bits 7-5, keep the others.
  function UpdateAaa(w: Word, v: bv8): (r: Word)
    requires v < 8
    ensures Aaa(r) == v && Bbb(r) == Bbb(w) && Cc(r) == Cc(w)
  {
    (w & 0x1F) | (v << 5)
  }

  /// `update_bbb`: replace bits 4-2, keep the others.
  function UpdateBbb(w: Word, v: bv8): (r: Word)
    requires v < 8
    ensures Aaa(r) == Aaa(w) && Bbb(r) == v && Cc(r) == Cc(w)
  {
    (w & 0xE3) | (v << 2)
  }

  /// `update_cc`: replace bits 1-0, keep the others.
  function UpdateCc(w: Word, v: bv8): (r: Word)
    requires v < 4
    ensures Aaa(r) == Aaa(w) && Bbb(r) == Bbb(w) && Cc(r) == v
  {
    (w & 0xFC) | v
  }

  /// The three fields determine the byte.
  lemma FieldsDetermineByte(w: Word, u: Word)
    requires Aaa(w) == Aaa(u) && Bbb(w) == Bbb(u) && Cc(w) == Cc(u)
    ensures w == u
  {
  }
}
