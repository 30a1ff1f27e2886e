/// The arithmetic and logic helpers of the CPU as functions of the status
/// byte and their operands: each gives the computed byte (where there is
/// one) and the new status byte.  `System` applies them to its registers.
module Alu {
  import opened Words
  import opened Status

  /// `AddSubMode`.
  datatype AddSubMode = Add | Sub

  /// Bits of P outside Z and N.
  const NOT_ZN: Word := 0x7D

  /// `update_flags_zn`: the byte is read as `i8`; negative sets N and clears
  /// Z, zero sets Z and clears N, positive clears both.
  function FlagsZN(p: Word, v: Word): (r: Word)
    ensures IsSet(r, Zero) <==> v == 0
    ensures IsSet(r, Negative) <==> v >= 0x80
    ensures r & NOT_ZN == p & NOT_ZN
  {
    var signed := NativeValueSigned(v);
    if signed < 0 then Set(Clear(p, Zero), Negative)
    else if signed == 0 then Clear(Set(p, Zero), Negative)
    else Clear(Clear(p, Zero), Negative)
  }

  /// `compare`: an 8-bit `overflowing_sub`; the borrow goes to V (not C)
  /// and Z/N come from the wrapped difference.
  function CompareFlags(p: Word, lhs: Word, rhs: Word): (r: Word)
    ensures IsSet(r, Overflow) <==> lhs < rhs
    ensures IsSet(r, Zero) <==> lhs == rhs
    ensures IsSet(r, Negative) <==> lhs - rhs >= 0x80
    ensures r & 0x3D == p & 0x3D
  {
    var res, didOverflow := lhs - rhs, lhs < rhs;
    FlagsZN(Update(p, Overflow, didOverflow), res)
  }

  /// `or`, `and`, `eor` (and `xor`, which is `eor`): the bitwise result and
  /// Z/N set from it.
  function Or(p: Word, lhs: Word, rhs: Word): (r: (Word, Word))
    ensures r.0 == lhs | rhs
    ensures IsSet(r.1, Zero) <==> lhs == 0 && rhs == 0
    ensures IsSet(r.1, Negative) <==> lhs >= 0x80 || rhs >= 0x80
    ensures r.1 & NOT_ZN == p & NOT_ZN
  {
    var ret := lhs | rhs;
    (ret, FlagsZN(p, ret))
  }

  function And(p: Word, lhs: Word, rhs: Word): (r: (Word, Word))
    ensures r.0 == lhs & rhs
    ensures IsSet(r.1, Zero) <==> lhs & rhs == 0
    ensures IsSet(r.1, Negative) <==> lhs >= 0x80 && rhs >= 0x80
    ensures r.1 & NOT_ZN == p & NOT_ZN
  {
    var ret := lhs & rhs;
    (ret, FlagsZN(p, ret))
  }

  function Eor(p: Word, lhs: Word, rhs: Word): (r: (Word, Word))
    ensures r.0 == lhs ^ rhs
    ensures IsSet(r.1, Zero) <==> lhs == rhs
    ensures IsSet(r.1, Negative) <==> (lhs >= 0x80) != (rhs >= 0x80)
    ensures r.1 & NOT_ZN == p & NOT_ZN
  {
    var ret := lhs ^ rhs;
    (ret, FlagsZN(p, ret))
  }

  /// A value of Rust's `i16`.
  type I16 = x: int | -0x8000 <= x < 0x8000

  /// Whether an exact result leaves the `i16` range.
  predicate OutOfI16(x: int)
  {
    !(-0x8000 <= x < 0x8000)
  }

  /// Two's-complement wrapping into the `i16` range.
  function WrapI16(x: int): I16
  {
    (x + 0x8000) % 0x10000 - 0x8000
  }

  /// `i16::overflowing_add` and `i16::overflowing_sub`.
  function OverflowingAddSub(x: I16, y: I16, mode: AddSubMode): (I16, bool)
  {
    var exact := if mode == Add then x + y else x - y;
    (WrapI16(exact), OutOfI16(exact))
  }

  /// `x & CARRY_BIT != 0` for an `i16`: bit 8 of its 16-bit two's-complement
  /// pattern.
  predicate I16Bit8(x: I16)
  {
    (x % 0x10000) / 0x100 % 2 == 1
  }

  /// `word::from(i16)`: `val as u8`, the low byte of the pattern.
  function WordFromI16(x: I16): Word
  {
    (x % 0x100) as bv8
  }

  /// The carry flag as the `0`/`1` that `C() as i16` gives.
  function CarryIn(p: Word): (c: I16)
    ensures c == 0 || c == 1
    ensures c == 1 <==> IsSet(p, Carry)
  {
    if IsSet(p, Carry) then 1 else 0
  }

  /// The two `i16` steps of `op_carry`: C plus or minus the operand, then
  /// plus or minus the accumulator; the result and whether either step
  /// overflowed.
  function OpCarrySteps(c: I16, m: I16, acc: I16, mode: AddSubMode): (I16, bool)
  {
    var (res, didOverflow) := OverflowingAddSub(c, m, mode);
    var (res2, didOverflow2) := OverflowingAddSub(res, acc, mode);
    (res2, didOverflow || didOverflow2)
  }

  /// `op_carry` (behind `adc`/`add_carry` and `sbc`/`sub_carry`): the
  /// operand and the accumulator are read as `i8` and widened to `i16`.
  /// C becomes bit 8 of the `i16` result, V the overflow of either step,
  /// and the low byte is the result, with Z/N from it.
  function OpCarry(p: Word, a: Word, val: Word, mode: AddSubMode): (r: (Word, Word))
    ensures IsSet(r.1, Zero) <==> r.0 == 0
    ensures IsSet(r.1, Negative) <==> r.0 >= 0x80
    ensures r.1 & 0x3C == p & 0x3C
  {
    var c := CarryIn(p);
    var m: I16 := NativeValueSigned(val);
    var acc: I16 := NativeValueSigned(a);
    var (res2, didOverflow) := OpCarrySteps(c, m, acc, mode);
    var ret := WordFromI16(res2);
    (ret, CarryOverflowZN(p, I16Bit8(res2), didOverflow, ret))
  }

  /// The flag updates that end `op_carry`: C, then V, then Z/N from the
  /// result byte.
  function CarryOverflowZN(p: Word, carry: bool, overflow: bool, ret: Word): Word
  {
    var p1 := Update(p, Carry, carry);
    var p2 := Update(p1, Overflow, overflow);
    FlagsZN(p2, ret)
  }

  /// The exact sum or difference of the two steps of `op_carry`.
  function ExactSum(c: int, m: int, acc: int, mode: AddSubMode): int
  {
    if mode == Add then c + m + acc else c - m - acc
  }

  /// The exact sum or difference that `op_carry` forms from P, A and the
  /// operand.
  function OpCarryExact(p: Word, a: Word, val: Word, mode: AddSubMode): int
  {
    ExactSum(CarryIn(p), NativeValueSigned(val), NativeValueSigned(a), mode)
  }

  lemma WrapInRange(x: int)
    requires !OutOfI16(x)
    ensures WrapI16(x) == x
  {
  }

  /// Neither `i16` step can overflow: a carry of 0 or 1 and two bytes read
  /// as `i8` stay within -256..257.
  lemma {:induction false} OpCarryStepsExact(c: I16, m: I16, acc: I16, mode: AddSubMode)
    requires 0 <= c <= 1 && -0x80 <= m < 0x80 && -0x80 <= acc < 0x80
    ensures OpCarrySteps(c, m, acc, mode) == (ExactSum(c, m, acc, mode), false)
  {
    var first := if mode == Add then c + m else c - m;
    WrapInRange(first);
    WrapInRange(if mode == Add then first + acc else first - acc);
  }

  /// `op_carry` with both `i16` steps replaced by the exact sum.
  lemma {:induction false} OpCarryForm(p: Word, a: Word, val: Word, mode: AddSubMode)
    ensures var s := OpCarryExact(p, a, val, mode);
            OpCarry(p, a, val, mode) == (WordFromI16(s), CarryOverflowZN(p, I16Bit8(s), false, WordFromI16(s)))
  {
    var c, m, acc := CarryIn(p), NativeValueSigned(val), NativeValueSigned(a);
    var st := OpCarrySteps(c, m, acc, mode);
    assert OpCarry(p, a, val, mode)
        == (WordFromI16(st.0), CarryOverflowZN(p, I16Bit8(st.0), st.1, WordFromI16(st.0)));
    OpCarryStepsExact(c, m, acc, mode);
  }

  /// The exact sum lies within -256..257.
  lemma OpCarryExactRange(p: Word, a: Word, val: Word, mode: AddSubMode)
    ensures -0x100 <= OpCarryExact(p, a, val, mode) <= 0x101
  {
    var c, m, acc := CarryIn(p), NativeValueSigned(val), NativeValueSigned(a);
    assert 0 <= c <= 1 && -0x80 <= m < 0x80 && -0x80 <= acc < 0x80;
    ExactSumRange(c, m, acc, mode);
  }

  lemma ExactSumRange(c: int, m: int, acc: int, mode: AddSubMode)
    requires 0 <= c <= 1 && -0x80 <= m < 0x80 && -0x80 <= acc < 0x80
    ensures -0x100 <= ExactSum(c, m, acc, mode) <= 0x101
  {
  }

  /// What `op_carry` computes: the result byte is the low byte of the exact
  /// sum or difference, C is its bit 8 and V is always cleared.
  lemma {:induction false} OpCarrySum(p: Word, a: Word, val: Word, mode: AddSubMode)
    ensures -0x100 <= OpCarryExact(p, a, val, mode) <= 0x101
    ensures OpCarry(p, a, val, mode).0 == (OpCarryExact(p, a, val, mode) % 0x100) as bv8
    ensures IsSet(OpCarry(p, a, val, mode).1, Carry) <==> OpCarryExact(p, a, val, mode) % 0x200 >= 0x100
    ensures !IsSet(OpCarry(p, a, val, mode).1, Overflow)
  {
    var s := OpCarryExact(p, a, val, mode);
    OpCarryExactRange(p, a, val, mode);
    OpCarryForm(p, a, val, mode);
    I16BitsBit8(s);
    CarryOverflowThenZN(p, I16Bit8(s), false, WordFromI16(s));
  }

  /// Z/N after C and V leaves C and V as they were set.
  lemma CarryOverflowThenZN(p: Word, carry: bool, overflow: bool, v: Word)
    ensures IsSet(CarryOverflowZN(p, carry, overflow, v), Carry) == carry
    ensures IsSet(CarryOverflowZN(p, carry, overflow, v), Overflow) == overflow
  {
    UpdateKeepsOtherFlags(Update(p, Carry, carry), Overflow, Carry, overflow);
  }

  /// Bit 8 of the pattern of a small `i16`.
  lemma I16BitsBit8(x: I16)
    requires -0x100 <= x <= 0x101
    ensures I16Bit8(x) <==> x % 0x200 >= 0x100
  {
  }

  /// `asl`: shift left by one; C takes the old bit 7, Z/N the result.
  function Asl(p: Word, v: Word): (r: (Word, Word))
    ensures r.0 == v << 1
    ensures r.1 == Update(FlagsZN(p, v << 1), Carry, v >= 0x80)
  {
    var (ret, carry) := ArithShiftLeftCarry(v, 1);
    (ret, Update(FlagsZN(p, ret), Carry, carry))
  }

  /// `lsr`: shift right by one; C takes the old bit 0, Z/N the result.
  function Lsr(p: Word, v: Word): (r: (Word, Word))
    ensures r.0 == v >> 1
    ensures r.1 == Update(FlagsZN(p, v >> 1), Carry, v & 1 == 1)
  {
    var (ret, carry) := LogicalShiftRightCarry(v, 1);
    (ret, Update(FlagsZN(p, ret), Carry, carry))
  }

  /// `rol`: rotate left through C.
  function Rol(p: Word, v: Word): (r: (Word, Word))
    ensures r.0 == (v << 1) | (if IsSet(p, Carry) then 1 else 0)
    ensures r.1 == FlagsZN(Update(p, Carry, v >= 0x80), r.0)
  {
    var (ret, carry) := RotateLeftCarry(v, IsSet(p, Carry));
    (ret, FlagsZN(Update(p, Carry, carry), ret))
  }

  /// `ror`: rotate right through C.
  function Ror(p: Word, v: Word): (r: (Word, Word))
    ensures r.0 == (v >> 1) | (if IsSet(p, Carry) then 0x80 else 0)
    ensures r.1 == FlagsZN(Update(p, Carry, v & 1 == 1), r.0)
  {
    var (ret, carry) := RotateRightCarry(v, IsSet(p, Carry));
    (ret, FlagsZN(Update(p, Carry, carry), ret))
  }

  /// ROR undoes ROL: the byte and the carry flag come back.
  lemma RorUndoesRol(p: Word, v: Word)
    ensures Ror(Rol(p, v).1, Rol(p, v).0).0 == v
    ensures IsSet(Ror(Rol(p, v).1, Rol(p, v).0).1, Carry) == IsSet(p, Carry)
  {
    var (w, q) := Rol(p, v);
    assert IsSet(q, Carry) == (v >= 0x80);
  }

  /// 0x50 + 0x50 with C clear: the result 0xA0 is negative and C stays
  /// clear, but V stays clear too, where a 6502 reports signed overflow.
  lemma AdcSignedOverflowNotFlagged()
    ensures OpCarry(0, 0x50, 0x50, Add) == (0xA0, N_BIT)
  {
    OpCarryForm(0, 0x50, 0x50, Add);
    assert OpCarryExact(0, 0x50, 0x50, Add) == 0xA0;
    WordOfA0();
    assert CarryOverflowZN(0, false, false, 0xA0) == N_BIT;
  }

  /// 0xFF + 0x01 with C clear: the operand reads as -1, so the `i16` sum is
  /// 0 and C stays clear, where a 6502 carries out of bit 7.
  lemma AdcUnsignedCarryNotFlagged()
    ensures OpCarry(0, 0x01, 0xFF, Add) == (0x00, Z_BIT)
  {
    OpCarryForm(0, 0x01, 0xFF, Add);
    assert OpCarryExact(0, 0x01, 0xFF, Add) == 0;
    WordOfZero();
    assert !I16Bit8(0);
    assert CarryOverflowZN(0, false, false, 0x00) == Z_BIT;
  }

  lemma WordOfZero()
    ensures WordFromI16(0) == 0
  {
  }

  lemma WordOfA0()
    ensures WordFromI16(0xA0) == 0xA0
  {
  }
}
