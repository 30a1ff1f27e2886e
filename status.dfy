/// The processor status byte P and its seven named flags.  Bit 5 has no
/// name and is never touched by the flag helpers.
module Status {
  import opened Words

  const C_BIT: Word := 1 << 0
  const Z_BIT: Word := 1 << 1
  const I_BIT: Word := 1 << 2
  const D_BIT: Word := 1 << 3
  const B_BIT: Word := 1 << 4
  const V_BIT: Word := 1 << 6
  const N_BIT: Word := 1 << 7

  datatype Flag = Carry | Zero | InterruptDisable | Decimal | Break | Overflow | Negative

  /// The bit of P that holds a flag: a single bit, never bit 5.
  function Mask(f: Flag): (m: Word)
    ensures m != 0 && m & (m - 1) == 0
    ensures m != 0x20
  {
    match f
    case Carry => C_BIT
    case Zero => Z_BIT
    case InterruptDisable => I_BIT
    case Decimal => D_BIT
    case Break => B_BIT
    case Overflow => V_BIT
    case Negative => N_BIT
  }

  /// Distinct flags live in distinct bits.
  lemma MasksDistinct(f: Flag, g: Flag)
    requires f != g
    ensures Mask(f) & Mask(g) == 0
  {
  }

  /// The getters `C()`, `Z()`, ..., `N()`.
  function IsSet(p: Word, f: Flag): (r: bool)
    ensures r <==> p & Mask(f) != 0
  {
    p & Mask(f) == Mask(f)
  }

  /// `set_C`, ..., `set_N`: the named bit becomes 1, every other bit stays.
  function Set(p: Word, f: Flag): (r: Word)
    ensures IsSet(r, f)
    ensures r & !Mask(f) == p & !Mask(f)
  {
    p | Mask(f)
  }

  /// `clear_C`, ..., `clear_N`: the named bit becomes 0, every other bit stays.
  function Clear(p: Word, f: Flag): (r: Word)
    ensures !IsSet(r, f)
    ensures r & !Mask(f) == p & !Mask(f)
  {
    p & !Mask(f)
  }

  /// `update_C`, ..., `update_N`: set on true, clear on false.
  function Update(p: Word, f: Flag, value: bool): (r: Word)
    ensures IsSet(r, f) == value
    ensures r & !Mask(f) == p & !Mask(f)
  {
    if value then Set(p, f) else Clear(p, f)
  }

  /// Updating one flag leaves the reading of every other flag unchanged.
  lemma UpdateKeepsOtherFlags(p: Word, f: Flag, g: Flag, value: bool)
    requires f != g
    ensures IsSet(Update(p, f, value), g) == IsSet(p, g)
  {
    MasksDistinct(f, g);
  }

  /// Updating a flag to the value it already has changes nothing.
  lemma UpdateIdempotent(p: Word, f: Flag)
    ensures Update(p, f, IsSet(p, f)) == p
  {
  }
}
