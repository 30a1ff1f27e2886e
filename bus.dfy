/// The Famicom-style memory bus: 2 KiB of internal RAM mirrored four times
/// over 0x0000-0x1FFF, stubbed PPU/APU/test-mode registers at 0x2000-0x401F,
/// and a read-only 32 KiB cartridge window at 0x8000-0xFFFF.  Anything in
/// 0x4020-0x7FFF is unmapped and panics.
///
/// The pure functions `AccessLoad`/`AccessStore` describe one access on the
/// contents of RAM and cartridge; the classes hold the arrays that the
/// source updates in place and are proved against those functions.
module Bus {
  import opened Outcome
  import opened Words

  const RAM_SIZE_BYTES: nat := 0x800
  const CART_SIZE_BYTES: nat := 0x8000

  /// `MemoryAccessType`.
  datatype AccessType = Store | Load

  /// A buffer of `n` zero bytes.
  function Zeroes(n: nat): (r: seq<Word>)
    ensures |r| == n
    ensures forall i :: 0 <= i < n ==> r[i] == 0
  {
    seq(n, _ => 0)
  }

  /// The cartridge after a program stream has been copied to its start.
  function Pushed(program: seq<Word>, stream: seq<Word>): (r: seq<Word>)
    requires |stream| <= |program|
    ensures |r| == |program|
    ensures forall i :: 0 <= i < |stream| ==> r[i] == stream[i]
    ensures forall i :: |stream| <= i < |program| ==> r[i] == program[i]
  {
    stream + program[|stream|..]
  }

  /// The RAM cell that a CPU address in 0x0000-0x1FFF reaches.
  function RamIndex(address: DoubleWord): (i: nat)
    requires address < 0x2000
    ensures i < RAM_SIZE_BYTES
  {
    (address % 0x800) as int
  }

  /// `FamicomMemory::access` with `MemoryAccessType::Load`: a byte for RAM and
  /// cartridge, nothing for the register stubs, a panic elsewhere.
  function AccessLoad(ram: seq<Word>, cart: seq<Word>, address: DoubleWord): (r: Result<Option<Word>>)
    requires |ram| == RAM_SIZE_BYTES && |cart| == CART_SIZE_BYTES
    ensures r.Ok? <==> address < 0x4020 || address >= 0x8000
    ensures r.Ok? ==> (r.value.Some? <==> address < 0x2000 || address >= 0x8000)
  {
    if address <= 0x1FFF then Ok(Some(ram[RamIndex(address)]))
    else if address <= 0x401F then Ok(None)   // PPU, APU and I/O, test mode
    else if address >= 0x8000 then Ok(Some(cart[(address - 0x8000) as int]))
    else Err(UnmappedAddress(address))
  }

  /// `FamicomMemory::access` with `MemoryAccessType::Store`: the new RAM, or a
  /// panic for a missing value, a ROM address or an unmapped one.
  function AccessStore(ram: seq<Word>, address: DoubleWord, data: Option<Word>): (r: Result<seq<Word>>)
    requires |ram| == RAM_SIZE_BYTES
    ensures r.Ok? <==> address < 0x4020 && (data.Some? || address >= 0x2000)
    ensures r.Ok? ==> |r.value| == RAM_SIZE_BYTES
    ensures 0x2000 <= address < 0x4020 ==> r == Ok(ram)
    ensures address >= 0x8000 ==> r == Err(RomWrite(address))
  {
    if address <= 0x1FFF then
      if data.None? then Err(StoreWithoutValue(address))
      else Ok(ram[RamIndex(address) := data.value])
    else if address <= 0x401F then Ok(ram)
    else if address >= 0x8000 then Err(RomWrite(address))
    else Err(UnmappedAddress(address))
  }

  /// `IO6502::load`: the byte, or a panic where `access` gives nothing.
  function LoadSpec(ram: seq<Word>, cart: seq<Word>, address: DoubleWord): (r: Result<Word>)
    requires |ram| == RAM_SIZE_BYTES && |cart| == CART_SIZE_BYTES
    ensures r.Ok? <==> address < 0x2000 || address >= 0x8000
    ensures 0x2000 <= address < 0x4020 ==> r == Err(UnmappedLoad(address))
    ensures 0x4020 <= address < 0x8000 ==> r == Err(UnmappedAddress(address))
  {
    var found :- AccessLoad(ram, cart, address);
    if found.None? then Err(UnmappedLoad(address)) else Ok(found.value)
  }

  /// `IO6502::store`: the new RAM contents, or the panic.
  function StoreSpec(ram: seq<Word>, address: DoubleWord, value: Word): (r: Result<seq<Word>>)
    requires |ram| == RAM_SIZE_BYTES
    ensures r.Ok? <==> address < 0x4020
    ensures r.Ok? ==> |r.value| == RAM_SIZE_BYTES
    ensures r.Err? ==> r.fault == (if address >= 0x8000 then RomWrite(address) else UnmappedAddress(address))
  {
    AccessStore(ram, address, Some(value))
  }

  /// A store to a RAM address is seen by a load from every address sharing
  /// its cell, and no other load changes.
  lemma StoreThenLoad(ram: seq<Word>, cart: seq<Word>, a: DoubleWord, b: DoubleWord, v: Word)
    requires |ram| == RAM_SIZE_BYTES && |cart| == CART_SIZE_BYTES
    requires a < 0x2000
    ensures StoreSpec(ram, a, v).Ok?
    ensures LoadSpec(StoreSpec(ram, a, v).value, cart, b)
         == if b < 0x2000 && a % 0x800 == b % 0x800 then Ok(v) else LoadSpec(ram, cart, b)
  {
    StoreToRam(ram, a, v);
    if b < 0x2000 {
      StoreThenLoadRam(ram, cart, a, b, v);
      RamIndexSameCell(a, b);
    } else {
      LoadAboveRam(ram, ram[RamIndex(a) := v], cart, b);
    }
  }

  /// The RAM half of `StoreThenLoad`, by cell.
  lemma StoreThenLoadRam(ram: seq<Word>, cart: seq<Word>, a: DoubleWord, b: DoubleWord, v: Word)
    requires |ram| == RAM_SIZE_BYTES && |cart| == CART_SIZE_BYTES
    requires a < 0x2000 && b < 0x2000
    ensures LoadSpec(ram[RamIndex(a) := v], cart, b)
         == if RamIndex(a) == RamIndex(b) then Ok(v) else LoadSpec(ram, cart, b)
  {
    LoadFromRam(ram[RamIndex(a) := v], cart, b);
    UpdatedCell(ram, a, b, v);
    LoadFromRam(ram, cart, b);
  }

  /// After writing the cell of `a`, the cell of `b` holds the new byte when
  /// it is the same cell and its old byte otherwise.
  lemma UpdatedCell(ram: seq<Word>, a: DoubleWord, b: DoubleWord, v: Word)
    requires |ram| == RAM_SIZE_BYTES && a < 0x2000 && b < 0x2000
    ensures ram[RamIndex(a) := v][RamIndex(b)] == if RamIndex(a) == RamIndex(b) then v else ram[RamIndex(b)]
  {
  }

  /// A store to RAM writes the cell its address folds onto.
  lemma StoreToRam(ram: seq<Word>, a: DoubleWord, v: Word)
    requires |ram| == RAM_SIZE_BYTES && a < 0x2000
    ensures StoreSpec(ram, a, v) == Ok(ram[RamIndex(a) := v])
  {
  }

  /// A load from RAM reads the cell its address folds onto.
  lemma LoadFromRam(ram: seq<Word>, cart: seq<Word>, b: DoubleWord)
    requires |ram| == RAM_SIZE_BYTES && |cart| == CART_SIZE_BYTES && b < 0x2000
    ensures LoadSpec(ram, cart, b) == Ok(ram[RamIndex(b)])
  {
  }

  /// A load above the RAM mirrors does not look at the RAM.
  lemma LoadAboveRam(ram: seq<Word>, ram': seq<Word>, cart: seq<Word>, b: DoubleWord)
    requires |ram| == RAM_SIZE_BYTES && |ram'| == RAM_SIZE_BYTES && |cart| == CART_SIZE_BYTES
    requires b >= 0x2000
    ensures LoadSpec(ram, cart, b) == LoadSpec(ram', cart, b)
  {
  }

  /// Two RAM addresses reach the same cell exactly when they agree modulo 0x800.
  lemma RamIndexSameCell(a: DoubleWord, b: DoubleWord)
    requires a < 0x2000 && b < 0x2000
    ensures RamIndex(a) == RamIndex(b) <==> a % 0x800 == b % 0x800
  {
    var i, j := a % 0x800, b % 0x800;
    assert RamIndex(a) == i as int && RamIndex(b) == j as int;
    if i as int == j as int {
      AsIntInjective(i, j);
    }
  }

  /// Mirroring: a store at a RAM address `a` is visible at `a + k * 0x800`
  /// for each of the four copies.
  lemma MirroredStoreVisible(ram: seq<Word>, cart: seq<Word>, a: DoubleWord, k: DoubleWord, v: Word)
    requires |ram| == RAM_SIZE_BYTES && |cart| == CART_SIZE_BYTES
    requires a < 0x800 && k < 4
    ensures StoreSpec(ram, a, v).Ok?
    ensures LoadSpec(StoreSpec(ram, a, v).value, cart, a + k * 0x800) == Ok(v)
  {
    assert (a + k * 0x800) % 0x800 == a % 0x800;
    StoreThenLoad(ram, cart, a, a + k * 0x800, v);
  }

  /// The cartridge window reads the program byte at `address - 0x8000` and
  /// refuses stores.
  lemma CartridgeWindow(ram: seq<Word>, cart: seq<Word>, address: DoubleWord, v: Word)
    requires |ram| == RAM_SIZE_BYTES && |cart| == CART_SIZE_BYTES
    requires address >= 0x8000
    ensures LoadSpec(ram, cart, address) == Ok(cart[(address - 0x8000) as int])
    ensures StoreSpec(ram, address, v) == Err(RomWrite(address))
  {
  }

  /// `Ram`: the 2 KiB of internal memory.
  class Ram {
    const data: array<Word>

    predicate Valid()
    {
      data.Length == RAM_SIZE_BYTES
    }

    /// `Ram::new`: all zero.
    constructor ()
      ensures Valid() && fresh(data)
      ensures data[..] == Zeroes(RAM_SIZE_BYTES)
    {
      data := new Word[RAM_SIZE_BYTES](_ => 0);
    }

    /// `Ram::write`; the debug assertion bounds the address.
    method Write(address: DoubleWord, value: Word)
      requires Valid() && address <= 0x07FF
      modifies data
      ensures data[..] == old(data[..])[address as int := value]
    {
      data[address as int] := value;
    }

    /// `Ram::read`.
    method Read(address: DoubleWord) returns (w: Word)
      requires Valid() && address <= 0x07FF
      ensures w == data[address as int]
    {
      w := data[address as int];
    }

    /// `Ram::reset`: every byte becomes zero.
    method Reset()
      requires Valid()
      modifies data
      ensures data[..] == Zeroes(RAM_SIZE_BYTES)
    {
      var i := 0;
      while i < data.Length
        invariant 0 <= i <= data.Length
        invariant forall k :: 0 <= k < i ==> data[k] == 0
      {
        data[i] := 0;
        i := i + 1;
      }
    }
  }

  /// `Cartridge`: the 32 KiB program ROM.
  class Cartridge {
    const program: array<Word>

    predicate Valid()
    {
      program.Length == CART_SIZE_BYTES
    }

    /// `Cartridge::new_zeroed`.
    constructor NewZeroed()
      ensures Valid() && fresh(program)
      ensures program[..] == Zeroes(CART_SIZE_BYTES)
    {
      program := new Word[CART_SIZE_BYTES](_ => 0);
    }

    /// `Cartridge::push_program`: stream byte `i` goes to offset `i`; a
    /// stream longer than the ROM would index past its end.
    method PushProgram(stream: seq<Word>)
      requires Valid() && |stream| <= CART_SIZE_BYTES
      modifies program
      ensures program[..] == Pushed(old(program[..]), stream)
    {
      var byteIdx := 0;
      while byteIdx < |stream|
        invariant 0 <= byteIdx <= |stream|
        invariant forall k :: 0 <= k < byteIdx ==> program[k] == stream[k]
        invariant forall k :: byteIdx <= k < program.Length ==> program[k] == old(program[k])
      {
        program[byteIdx] := stream[byteIdx];
        byteIdx := byteIdx + 1;
      }
    }

    /// `Cartridge::read`.
    method Read(address: DoubleWord) returns (w: Word)
      requires Valid() && address < 0x8000
      ensures w == program[address as int]
    {
      w := program[address as int];
    }
  }

  /// `FamicomMemory`: RAM and cartridge behind the address decoder.
  class FamicomMemory {
    const internalRam: Ram
    const cart: Cartridge

    predicate Valid()
    {
      internalRam.Valid() && cart.Valid() && internalRam.data != cart.program
    }

    function RamContents(): (r: seq<Word>)
      reads internalRam.data
    {
      internalRam.data[..]
    }

    function CartContents(): (r: seq<Word>)
      reads cart.program
    {
      cart.program[..]
    }

    /// `FamicomMemory::new_resetted`: zeroed RAM and an empty cartridge.
    constructor NewResetted()
      ensures Valid() && fresh(internalRam.data) && fresh(cart.program)
      ensures RamContents() == Zeroes(RAM_SIZE_BYTES)
      ensures CartContents() == Zeroes(CART_SIZE_BYTES)
    {
      internalRam := new Ram();
      cart := new Cartridge.NewZeroed();
      new;
      internalRam.Reset();
    }

    /// `FamicomMemory::reset`: RAM only; the cartridge keeps its program.
    method Reset()
      requires Valid()
      modifies internalRam.data
      ensures RamContents() == Zeroes(RAM_SIZE_BYTES)
      ensures CartContents() == old(CartContents())
    {
      internalRam.Reset();
    }

    /// `FamicomMemory::push_program`.
    method PushProgram(stream: seq<Word>)
      requires Valid() && |stream| <= CART_SIZE_BYTES
      modifies cart.program
      ensures CartContents() == Pushed(old(CartContents()), stream)
      ensures RamContents() == old(RamContents())
    {
      cart.PushProgram(stream);
    }

    /// `FamicomMemory::access`.
    method Access(address: DoubleWord, tpe: AccessType, data: Option<Word>) returns (r: Result<Option<Word>>)
      requires Valid()
      modifies internalRam.data
      ensures CartContents() == old(CartContents())
      ensures tpe == AccessType.Load ==> r == AccessLoad(old(RamContents()), CartContents(), address)
      ensures tpe == AccessType.Load ==> RamContents() == old(RamContents())
      ensures tpe == AccessType.Store ==> match AccessStore(old(RamContents()), address, data)
                               case Ok(ram) => r == Ok(None) && RamContents() == ram
                               case Err(f) => r == Err(f)
    {
      if address <= 0x1FFF {
        r := AccessRam(address, tpe, data);
      } else if address <= 0x401F {
        r := Ok(None);
      } else if address >= 0x8000 {
        r := AccessCart(address, tpe);
      } else {
        r := Err(UnmappedAddress(address));
      }
    }

    /// The RAM arm of `access`: the address is folded onto the 2 KiB.
    method AccessRam(address: DoubleWord, tpe: AccessType, data: Option<Word>) returns (r: Result<Option<Word>>)
      requires Valid() && address <= 0x1FFF
      modifies internalRam.data
      ensures CartContents() == old(CartContents())
      ensures tpe == AccessType.Load ==> r == AccessLoad(old(RamContents()), CartContents(), address)
      ensures tpe == AccessType.Load ==> RamContents() == old(RamContents())
      ensures tpe == AccessType.Store ==> match AccessStore(old(RamContents()), address, data)
                               case Ok(ram) => r == Ok(None) && RamContents() == ram
                               case Err(f) => r == Err(f)
    {
      var realAddress := address % 0x800;
      match tpe
      case Load =>
        var w := internalRam.Read(realAddress);
        r := Ok(Some(w));
      case Store =>
        if data.None? {
          r := Err(StoreWithoutValue(address));
          return;
        }
        internalRam.Write(realAddress, data.value);
        r := Ok(None);
    }

    /// The cartridge arm of `access`: loads read the window, stores fault.
    method AccessCart(address: DoubleWord, tpe: AccessType) returns (r: Result<Option<Word>>)
      requires Valid() && address >= 0x8000
      ensures tpe == AccessType.Load ==> r == AccessLoad(RamContents(), CartContents(), address)
      ensures tpe == AccessType.Store ==> r == Err(RomWrite(address))
    {
      match tpe
      case Load =>
        var offset := address - 0x8000;
        var w := cart.Read(offset);
        assert AccessLoad(RamContents(), CartContents(), address) == Ok(Some(CartContents()[offset as int]));
        r := Ok(Some(w));
      case Store =>
        r := Err(RomWrite(address));
    }

    /// `IO6502::store`.
    method Store(address: DoubleWord, value: Word) returns (r: Result<()>)
      requires Valid()
      modifies internalRam.data
      ensures CartContents() == old(CartContents())
      ensures match StoreSpec(old(RamContents()), address, value)
              case Ok(ram) => r == Ok(()) && RamContents() == ram
              case Err(f) => r == Err(f)
    {
      var found := Access(address, AccessType.Store, Some(value));
      if found.Err? {
        return Err(found.fault);
      }
      r := Ok(());
    }

    /// `IO6502::load`.
    method Load(address: DoubleWord) returns (r: Result<Word>)
      requires Valid()
      modifies internalRam.data
      ensures RamContents() == old(RamContents()) && CartContents() == old(CartContents())
      ensures r == LoadSpec(RamContents(), CartContents(), address)
    {
      var found := Access(address, AccessType.Load, None);
      if found.Err? {
        return Err(found.fault);
      }
      if found.value.None? {
        return Err(UnmappedLoad(address));
      }
      r := Ok(found.value.value);
    }
  }
}
