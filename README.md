# A verified model of a partial NES 6502 emulator and its assembler

This project models, in Dafny, the core of a MOS 6502 emulator written in
Rust for a Nintendo-Entertainment-System-style host, together with the
small assembler that produces the opcode bytes the emulator decodes.
It proves properties of the model.

The model follows the code as written, panics included. An unchecked
`+`/`-` that would panic in a debug build, an `expect`/`unwrap` on
`None`, a `panic!` and an `unimplemented!()` each become a distinct `Err`
of the `Outcome.Result` type.

Modules, following the program's structure:

| module | file | models |
|---|---|---|
| `Outcome` | outcome.dfy | the panics, as a `Result`/`Option` pair |
| `Words` | words.dfy | `word`/`doubleword` of `src/cpu/datastructures.rs`: bit queries, wrapping and unchecked arithmetic, little-endian composition, shifts and rotates with carry, the aaa/bbb/cc opcode fields |
| `Bus` | bus.dfy | `Ram`, `Cartridge` and `FamicomMemory` of `src/cpu/mod.rs`: 2 KiB RAM mirrored up to 0x1FFF, stubbed registers up to 0x401F, a read-only 32 KiB window from 0x8000. Classes over arrays, proved against functions of the contents |
| `Status` | status.dfy | the seven flag bits of P, with their getters, setters and updates |
| `Alu` | alu.dfy | `update_flags_zn`, `compare`, `or`/`and`/`eor`, `op_carry`, `asl`/`lsr`/`rol`/`ror` |
| `Cpu` | cpu.dfy | `System<FamicomMemory>` as functions of its state: loads and stores, the stack, PC advance, the addressing helpers, and the aaa/bbb/cc decoder `alternate_exec` split into its operand and operation stages |
| `CpuProperties`, `CpuExamples` | cpu_lemmas.dfy, cpu_examples.dfy | what each instruction does, the stack round trips, PC advance, the faults, and the unit tests of `src/cpu/mod.rs` as lemmas |
| `Emulator` | system.dfy | the class `System`, whose methods update the registers in place over a `FamicomMemory` and are proved against module `Cpu` |
| `Assembler` | assembler.dfy | `src/assembler/mod.rs`: line splitting, the mnemonic table, the nine operand forms, the hex parsers, `emit` and `parse_line` |
| `RoundTrip` | round_trip.dfy | the assembler's encoding against the CPU's decoding |
| `DraftCpu`, `DraftProperties`, `DraftEmulator` | draft_cpu.dfy, draft_lemmas.dfy, draft_system.dfy | the earlier single-file CPU of `src/main.rs`: flags, `compare`, the stack, branches and the nibble-matrix `exec` |

Where the Rust code and the 6502 it imitates disagree, the model follows
the code, and lemmas name the difference:

- `compare` sets V on a borrow and leaves C alone (`Alu.CompareFlags`).
- `op_carry` never sets V, and it does not set C on 0xFF + 0x01 (`Alu.AdcSignedOverflowNotFlagged`, `Alu.AdcUnsignedCarryNotFlagged`).
- `zeropage_address_x` does not wrap within the zero page, and `zeropage_address_y` adds X (`Cpu.ZeropageAddressX`, `Cpu.ZeropageAddressY`).
- The `(ind,X)` address is the operand byte plus X, wrapped, with no address read from the zero page (`Cpu.IndirectAddressX`).
- AND, EOR, ADC and SBC discard their result and change only P (`CpuProperties.StepAnd`, `StepEor`, `StepAdcSbc`).
- The mnemonic table has 56 entries.
- Byte and address `+` is unchecked, so it panics on overflow rather than wrapping; only `cl_add` wraps.
- The cc=00 arms of `emit` never set bbb, so `BIT $0200` is emitted as `JSR $0200` (`Assembler.AssembleBitAbsolute`).

## Model

| member | source | states |
|---|---|---|
| Words.CarryBitU16 | src/cpu/datastructures.rs:9-20 | true exactly when bit 8 (`CARRY_BIT`) of the 16-bit value is set |
| Words.GetBitAtU8 | src/cpu/datastructures.rs:22-28 | `Some` exactly for n ≤ 7, and then the value of bit n of the byte; `None` otherwise |
| Words.GetBitAtU16 | src/cpu/datastructures.rs:30-36 | `Some` exactly for n ≤ 15, and then the value of bit n; `None` otherwise |
| Words.BitAt | src/cpu/datastructures.rs:102-104 | `word::bit_at` answers like the byte query: `Some(bit n)` for n ≤ 7, `None` above |
| Words.DoubleBitAt | src/cpu/datastructures.rs:392-394 | `doubleword::bit_at` answers like the 16-bit query: `Some(bit n)` for n ≤ 15, `None` above |
| Words.NativeValueSigned | src/cpu/datastructures.rs:118-121 | the `i8` reading lies in -128..127, is negative exactly when bit 7 is set and zero exactly for 0 |
| Words.NativeValueSignedResidue | src/cpu/datastructures.rs:118-121 | the `i8` reading equals the unsigned byte modulo 256 |
| Words.AsDoubleWord | src/cpu/datastructures.rs:140-144 | zero extension: the high byte is 0 and the low byte is the word |
| Words.LowByte | src/cpu/datastructures.rs:367-381 | `From<u16>`/`From<i16>` keep exactly the low 8 bits |
| Words.LowByteAsDoubleWord | src/cpu/datastructures.rs:140-144 | truncating a zero-extended byte gives the byte back |
| Words.LogicalShiftLeftCarry | src/cpu/datastructures.rs:148-155 | for shifts up to 8 the byte is `v << n` and the carry is the last bit shifted out of bit 7; no carry for 0; shifts 9..15 give `(0, false)`; 16 and more overflow `u16` and are excluded |
| Words.LogicalShiftRightCarry | src/cpu/datastructures.rs:159-167 | the 16-bit rotate by `n mod 16`: for 1..8 the byte is `v >> n` with carry = bit n-1 of v; 0 gives `(v, false)`; 9..15 bring high bits back as `v << (16-n)` with no carry |
| Words.ArithShiftLeftCarry | src/cpu/datastructures.rs:171-178 | the same byte and carry as the logical left shift |
| Words.ArithShiftRightCarry | src/cpu/datastructures.rs:182-189 | an `i8` arithmetic shift: the kept bits are `v`'s upper bits, the vacated high bits copy bit 7, and the carry is bit 0 of `v` whatever the amount |
| Words.RotateLeftCarry | src/cpu/datastructures.rs:193-197 | the receiver is ignored; carry-out is bit 7 of `data`, bits 7..1 of the result are bits 6..0 of `data`, bit 0 is the carry-in |
| Words.RotateRightCarry | src/cpu/datastructures.rs:201-205 | the receiver is ignored; carry-out is bit 0 of `data`, bits 6..0 of the result are bits 7..1 of `data`, bit 7 is the carry-in |
| Words.RotateRoundTrip | src/cpu/datastructures.rs:193-205 | rotating left then right through the carry (and right then left) restores both byte and carry |
| Words.ClAdd | src/cpu/datastructures.rs:208-217 | the sum modulo 256 |
| Words.Add | src/cpu/datastructures.rs:219-237 | defined only when the sum fits a byte; then exactly the sum |
| Words.Sub | src/cpu/datastructures.rs:239-257 | defined only without borrow; then the exact difference |
| Words.FromWords | src/cpu/datastructures.rs:417-421 | little endian: `hi * 256 + lo` |
| Words.ToWords | src/cpu/datastructures.rs:423-426 | two bytes, the low byte first, then the high byte |
| Words.ToWordsFromWords | src/cpu/datastructures.rs:417-426 | `to_words(from_words(hi, lo)) == [lo, hi]` |
| Words.FromWordsToWords | src/cpu/datastructures.rs:417-426 | `from_words(w[1], w[0])` rebuilds the doubleword |
| Words.DoubleClAdd | src/cpu/datastructures.rs:435-444 | the sum modulo 65536 |
| Words.DoubleClAddWord | src/cpu/datastructures.rs:446-455 | the byte is zero-extended, then the sum wraps modulo 65536 |
| Words.DoubleAddExact | src/cpu/datastructures.rs:457-473 | `Add<doubleword>`/`Add<u16>`, defined only when the sum fits 16 bits, is then the exact sum |
| Words.DoubleAddWordExact | src/cpu/datastructures.rs:475-491 | `Add<word>`/`Add<u8>` zero-extend the byte and, defined only without 16-bit overflow, give the exact sum |
| Words.AddI16Wraps | src/cpu/datastructures.rs:503-510 | `Add<i16>`, defined only without `i16` overflow, is the 16-bit wrapping sum of the two bit patterns |
| Words.CheckedDoubleAddExact | src/cpu/datastructures.rs:457-464 | a 16-bit `+` that does not panic gives the exact sum |
| Words.CheckedAddI16Byte | src/cpu/datastructures.rs:503-510 | adding a zero-extended byte as `i16` succeeds exactly when the address is in the upper half or the sum stays below 0x8000, and then gives the wrapping sum |
| Words.CheckedDoubleAddWordSum | src/cpu/datastructures.rs:475-482 | address + byte panics exactly when the sum leaves 16 bits, and otherwise is the wrapping sum |
| Words.ZeroExtendedSum | src/cpu/mod.rs:747-749 | two zero-extended bytes add within 16 bits, so the 16-bit `+` never panics and gives the exact sum |
| Words.Aaa | src/assembler/mod.rs:247-251 | bits 7-5 of the opcode byte |
| Words.Bbb | src/assembler/mod.rs:247-251 | bits 4-2 of the opcode byte |
| Words.Cc | src/assembler/mod.rs:247-251 | bits 1-0 of the opcode byte |
| Words.UpdateAaa | src/assembler/mod.rs:249-251 | sets bits 7-5 to the value and keeps bbb and cc |
| Words.UpdateBbb | src/assembler/mod.rs:460-479 | sets bits 4-2 to the value and keeps aaa and cc |
| Words.UpdateCc | src/assembler/mod.rs:249-251 | sets bits 1-0 to the value and keeps aaa and bbb |
| Words.FieldsDetermineByte | src/cpu/mod.rs:943-951 | two bytes with the same aaa, bbb and cc fields are equal, so decoding by fields loses nothing |
| Bus.Pushed | src/cpu/mod.rs:211-217 | the ROM after copying a stream: byte i of the stream at offset i, every other offset unchanged, length unchanged |
| Bus.RamIndex | src/cpu/mod.rs:298-299 | every RAM-range address folds onto one of the 2048 cells |
| Bus.AccessLoad | src/cpu/mod.rs:295-319 | a load succeeds exactly below 0x4020 or from 0x8000 up, and yields a byte exactly for RAM and cartridge (the 0x2000-0x401F stubs yield nothing) |
| Bus.AccessStore | src/cpu/mod.rs:295-319 | a store succeeds exactly below 0x4020 and, in RAM, only with a value; it is a no-op on the stubs and a ROM-write panic from 0x8000 up |
| Bus.LoadSpec | src/cpu/mod.rs:287-289 | `load` gives a byte exactly for RAM and cartridge; stubs fail as an unmapped load (`expect` on `None`), 0x4020-0x7FFF as an unmapped address |
| Bus.StoreSpec | src/cpu/mod.rs:282-285 | `store` succeeds exactly below 0x4020 and keeps the RAM size; the failure is the ROM write from 0x8000 up and the unmapped address otherwise |
| Bus.StoreThenLoad | src/cpu/mod.rs:298-307 | after a store to a RAM address, a load from any address in the same cell gives the stored byte and every other load is unchanged |
| Bus.StoreThenLoadRam | src/cpu/mod.rs:298-307 | the RAM half of the above, by cell |
| Bus.UpdatedCell | src/cpu/mod.rs:299-303 | after writing the cell of `a`, the cell of `b` holds the new byte exactly when it is the same cell |
| Bus.StoreToRam | src/cpu/mod.rs:298-305 | a RAM store writes the cell its address folds onto, and nothing else |
| Bus.LoadFromRam | src/cpu/mod.rs:298-301 | a RAM load reads the cell its address folds onto |
| Bus.LoadAboveRam | src/cpu/mod.rs:308-317 | a load at 0x2000 or above does not depend on the RAM |
| Bus.RamIndexSameCell | src/cpu/mod.rs:299 | two RAM addresses share a cell exactly when they agree modulo 0x800 |
| Bus.MirroredStoreVisible | src/cpu/mod.rs:60-86 | a store at `a` below 0x800 is seen at `a + k*0x800` for k = 0..3 |
| Bus.CartridgeWindow | src/cpu/mod.rs:311-316 | a load from 0x8000 up reads program byte `address - 0x8000`; a store there is the ROM-write panic |
| Bus.Ram.constructor | src/cpu/mod.rs:177-182 | a fresh RAM of 2048 zero bytes |
| Bus.Ram.Write | src/cpu/mod.rs:184-188 | writes exactly the addressed byte; the debug assertion's bound is the precondition |
| Bus.Ram.Read | src/cpu/mod.rs:190-193 | returns the addressed byte |
| Bus.Ram.Reset | src/cpu/mod.rs:195-197 | every byte becomes zero |
| Bus.Cartridge.NewZeroed | src/cpu/mod.rs:205-209 | a fresh ROM of 32 KiB zero bytes |
| Bus.Cartridge.PushProgram | src/cpu/mod.rs:211-217 | the loop leaves the ROM equal to `Pushed(old ROM, stream)`; a stream longer than the ROM would index past its end |
| Bus.Cartridge.Read | src/cpu/mod.rs:219-221 | returns the byte at the offset |
| Bus.FamicomMemory.NewResetted | src/cpu/mod.rs:260-269 | zeroed RAM and zeroed ROM |
| Bus.FamicomMemory.Reset | src/cpu/mod.rs:271-273 | RAM all zero, cartridge untouched |
| Bus.FamicomMemory.PushProgram | src/cpu/mod.rs:275-280 | the cartridge becomes `Pushed(old, stream)`, RAM untouched |
| Bus.FamicomMemory.Access | src/cpu/mod.rs:295-319 | dispatch by range; a load returns `AccessLoad` and changes nothing, a store leaves exactly the RAM of `AccessStore` (or fails with its fault); the cartridge never changes |
| Bus.FamicomMemory.AccessRam | src/cpu/mod.rs:298-307 | the RAM arm, against the same two functions |
| Bus.FamicomMemory.AccessCart | src/cpu/mod.rs:311-316 | the cartridge arm: loads read the window, stores are the ROM-write panic |
| Bus.FamicomMemory.Store | src/cpu/mod.rs:282-285 | the new RAM is `StoreSpec`'s, or the call fails with its fault; the cartridge never changes |
| Bus.FamicomMemory.Load | src/cpu/mod.rs:287-289 | returns `LoadSpec` and changes nothing |
| Status.Mask | src/cpu/mod.rs:336-342 | each flag's mask is a single bit and never bit 5 |
| Status.MasksDistinct | src/cpu/mod.rs:336-342 | distinct flags occupy distinct bits |
| Status.IsSet | src/cpu/mod.rs:501-504 | the getters `C()` ... `N()` read exactly their bit of P |
| Status.Set | src/cpu/mod.rs:506-510 | `set_F` makes F read as set and keeps every other bit of P |
| Status.Clear | src/cpu/mod.rs:512-516 | `clear_F` makes F read as clear and keeps every other bit of P |
| Status.Update | src/cpu/mod.rs:518-525 | `update_F(v)` makes F read as `v` and keeps every other bit of P |
| Status.UpdateKeepsOtherFlags | src/cpu/mod.rs:503-688 | updating one flag leaves every other flag's reading unchanged |
| Status.UpdateIdempotent | src/cpu/mod.rs:518-525 | updating a flag to its current value leaves P unchanged |
| Alu.FlagsZN | src/cpu/mod.rs:784-801 | Z set exactly for 0, N set exactly when bit 7 is set, all other bits of P kept |
| Alu.CompareFlags | src/cpu/mod.rs:821-829 | V set exactly when `lhs < rhs` (the borrow), Z exactly when equal, N from bit 7 of the wrapped difference; C and the other bits untouched |
| Alu.Or | src/cpu/mod.rs:831-836 | result `lhs \| rhs`; Z set exactly when both operands are 0, N exactly when either has bit 7; every other bit of P kept |
| Alu.And | src/cpu/mod.rs:838-843 | result `lhs & rhs`; Z set exactly when the operands share no bit, N exactly when both have bit 7; every other bit of P kept |
| Alu.Eor | src/cpu/mod.rs:845-857 | result `lhs ^ rhs` (`xor` is the same); Z set exactly when the operands are equal, N exactly when one of them has bit 7; every other bit of P kept |
| Alu.CarryIn | src/cpu/mod.rs:863 | `C() as i16` is 1 exactly when C is set, else 0 |
| Alu.OpCarry | src/cpu/mod.rs:862-881 | Z set exactly for a zero result byte, N exactly when its bit 7 is set; I, D, B and bit 5 of P kept (the carry and overflow are in `OpCarrySum`) |
| Alu.OpCarryStepsExact | src/cpu/mod.rs:863-874 | neither `i16` step of `op_carry` can overflow: both give the exact value |
| Alu.OpCarryForm | src/cpu/mod.rs:862-881 | `op_carry` equals its flag updates applied to the exact sum or difference |
| Alu.OpCarryExactRange | src/cpu/mod.rs:863-874 | the exact sum or difference lies within -256..257 |
| Alu.OpCarrySum | src/cpu/mod.rs:862-881 | the result byte is the low byte of `C ± sext(m) ± sext(A)`, C is bit 8 of that `i16`, and V is always cleared |
| Alu.CarryOverflowThenZN | src/cpu/mod.rs:876-879 | the final Z/N update keeps the C and V just written |
| Alu.I16BitsBit8 | src/cpu/mod.rs:876 | for values in -256..257, `x & CARRY_BIT != 0` is bit 8 of the two's-complement pattern |
| Alu.Asl | src/cpu/mod.rs:907-914 | result `v << 1`, C = old bit 7, Z/N from the result |
| Alu.Lsr | src/cpu/mod.rs:916-922 | result `v >> 1`, C = old bit 0, Z/N from the result |
| Alu.Rol | src/cpu/mod.rs:924-931 | result `v << 1` with the old C in bit 0; new C = old bit 7; Z/N from the result |
| Alu.Ror | src/cpu/mod.rs:933-940 | result `v >> 1` with the old C in bit 7; new C = old bit 0; Z/N from the result |
| Alu.RorUndoesRol | src/cpu/mod.rs:924-940 | ROR after ROL restores both the byte and the carry flag |
| Alu.AdcSignedOverflowNotFlagged | src/cpu/mod.rs:862-881 | 0x50 + 0x50 with C clear gives 0xA0 with N set but V clear |
| Alu.AdcUnsignedCarryNotFlagged | src/cpu/mod.rs:862-881 | 0xFF + 0x01 with C clear gives 0 with Z set but C clear |
| Cpu.LowNibble | src/cpu/mod.rs:229-233 | `low_nibble` is below 16 (bits 3-0) |
| Cpu.HighNibble | src/cpu/mod.rs:235-238 | `high_nibble` is below 16 (bits 7-4 shifted down) |
| Cpu.NibblesRebuildByte | src/cpu/mod.rs:229-238 | `high << 4 \| low` rebuilds the byte, so the two nibbles lose nothing |
| Cpu.Store | src/cpu/mod.rs:414-417 | a `System::store` that succeeds changes only the RAM contents |
| Cpu.Load | src/cpu/mod.rs:419-422 | RAM addresses read their mirrored cell and 0x8000 up the program byte at `address - 0x8000`; the load succeeds exactly for those two ranges |
| Cpu.LoadOffset | src/cpu/mod.rs:424-428 | fails exactly when the load does; otherwise the byte zero-extended, never negative |
| Cpu.LoadDoubleWord | src/cpu/mod.rs:430-436 | at 0xFFFF the `+ 1` panics; a success reads both bytes, the low one at the address and the high one after it |
| Cpu.ImmediateValue | src/cpu/mod.rs:728-731 | at PC 0xFFFF the `+ 1` panics; otherwise the load of the byte at PC + 1 |
| Cpu.ImmediateAddress | src/cpu/mod.rs:733-735 | succeeds exactly when that byte is read, and is the byte zero-extended |
| Cpu.AbsoluteAddress | src/cpu/mod.rs:805-810 | from PC 0xFFFE up the additions panic; a success has read the bytes at PC + 1 and PC + 2 |
| Cpu.AbsoluteValue | src/cpu/mod.rs:813-817 | the load at the absolute address, with its fault when the address fails |
| Cpu.IndirectAddress | src/cpu/mod.rs:692-696 | reads the same two bytes as `absolute_address`, with the same faults: no second dereference |
| Cpu.IndirectValue | src/cpu/mod.rs:699-704 | the load at that address |
| Cpu.IndirectAddressX | src/cpu/mod.rs:706-709 | succeeds exactly when the operand byte is read, and is operand byte plus X wrapped to 8 bits; nothing is read from the zero page |
| Cpu.IndirectValueX | src/cpu/mod.rs:712-717 | the load at that address |
| Cpu.IndirectValueY | src/cpu/mod.rs:720-725 | Y is added to the zero-page byte named by the operand, not to an address; the byte `+` panics when the sum reaches 0x100 |
| Cpu.ZeropageAddress | src/cpu/mod.rs:738-741 | the operand byte zero-extended, like `immediate_address` |
| Cpu.ZeropageAddressX | src/cpu/mod.rs:746-749 | the exact 16-bit sum of operand byte and X, so it can leave the zero page |
| Cpu.ZeropageAddressY | src/cpu/mod.rs:752-755 | also operand byte plus X, not Y |
| Cpu.ZeropageValue | src/cpu/mod.rs:758-762 | the load at the zero-page address |
| Cpu.ZeropageValueX | src/cpu/mod.rs:765-770 | the load at the X-indexed address |
| Cpu.ZeropageValueY | src/cpu/mod.rs:773-777 | the load at the same X-indexed address |
| Cpu.PushWord | src/cpu/mod.rs:444-448 | with S at 0xFF the `+ 1` panics; otherwise the byte is written to RAM cell S and S grows by one, nothing else changing |
| Cpu.PushDoubleWord | src/cpu/mod.rs:450-456 | from S 0xFE up it panics; otherwise the low byte goes to cell S, the high byte to S + 1, S grows by two, nothing else changing |
| Cpu.PullWord | src/cpu/mod.rs:458-464 | with S at 0 the `- 1` panics; otherwise S shrinks by one and the byte of cell S - 1 is returned |
| Cpu.PullDoubleWord | src/cpu/mod.rs:466-471 | with S below 2 it panics; otherwise S shrinks by two and the doubleword has its low byte from the new S and its high byte from the cell after |
| Cpu.AdvancePc | src/cpu/mod.rs:477-493 | succeeds exactly when PC + n fits 16 bits, and then changes only PC |
| Cpu.RelativeJump | src/cpu/mod.rs:495-499 | at PC 0xFFFF it panics; a success changes only PC |
| Cpu.BranchOn | src/cpu/mod.rs:389-395 | the relative jump when the condition holds; otherwise PC + 2, failing exactly when that leaves 16 bits |
| Cpu.ResolveOperand | src/cpu/mod.rs:945-1028 | bbb 5 and up is `unimplemented!()`; a success has `pc_offset` 0, 2 or 3, with an operand and an address exactly when it is not 0 |
| Cpu.Run | src/cpu/mod.rs:365-373 | a run of no instruction leaves the state; a finished run keeps the state well formed and the cartridge unchanged |
| Cpu.RunNext | src/cpu/mod.rs:365-373 | a run whose first `advance_exec` panics stops with that panic |
| Cpu.RunGoesOn | src/cpu/mod.rs:365-373 | after a first instruction that succeeds, the run is the run of the rest from the new state |
| Cpu.RunStopsAt | src/cpu/mod.rs:365-373 | a first instruction that panics ends the run with that panic |
| Cpu.Operate | src/cpu/mod.rs:1033-1286 | the operation stage never moves PC and never changes the cartridge |
| Cpu.GroupOne | src/cpu/mod.rs:1182-1210 | the cc=1 arm never moves PC and never changes the cartridge |
| Cpu.Step | src/cpu/mod.rs:943-1288 | `alternate_exec` keeps the state well formed and never changes the cartridge |
| Cpu.AdvanceExec | src/cpu/mod.rs:438-442 | fetching and executing the opcode at PC keeps the state well formed and the cartridge unchanged |
| Cpu.RunAfterStep | src/cpu/mod.rs:366-373 | a run of n steps is one `advance_exec` followed by the run of n - 1, or stops with the first step's panic |
| CpuProperties.ResolveOperandOffset | src/cpu/mod.rs:943-1028 | the operand stage fixes `pc_offset` by the bbb/cc/aaa table alone, fetches an operand and an address exactly when that offset is not 0, and succeeds only for bbb below 4 or bbb 4 outside cc=1 |
| CpuProperties.StepAdvancesPc | src/cpu/mod.rs:1287 | a successful `alternate_exec` adds exactly its `pc_offset`, which is 2 or 3, to PC without overflow |
| CpuProperties.StepParts | src/cpu/mod.rs:943-1288 | a successful `alternate_exec` is the operand stage, then the operation, then PC plus `pc_offset` |
| CpuProperties.ImplementedOffset | src/cpu/mod.rs:950-1028 | every opcode with a non-panicking arm fetches an operand (offset 2 or 3) |
| CpuProperties.StepOnlyImplemented | src/cpu/mod.rs:950-1286 | only the cc=1 group with bbb 0-3, STX (bbb 1, 3) and LDX (bbb 0, 1, 3) can succeed; everything else ends in `unimplemented!()` or a memory panic |
| CpuProperties.StepFaults | src/cpu/mod.rs:943-1288 | an implemented opcode panics only through memory or an unchecked addition; the `unwrap` calls never fail |
| CpuProperties.ResolveFaults | src/cpu/mod.rs:950-1028 | the operand stage fails through memory or an addition, or on `unimplemented!()` |
| CpuProperties.OperateFaults | src/cpu/mod.rs:1033-1286 | given what the operand stage fetched, the operation stage fails only through memory or `unimplemented!()`, never on `unwrap` |
| CpuProperties.StepGroupOneParts | src/cpu/mod.rs:1182-1210 | a successful cc=1 instruction is `GroupOne` on a fetched operand and address, with PC advanced |
| CpuProperties.StepOra | src/cpu/mod.rs:1184-1186 | ORA: A becomes A \| operand, Z/N set from it, nothing else but PC changes |
| CpuProperties.StepAnd | src/cpu/mod.rs:1187-1189 | AND: Z/N set from A & operand, but the result is discarded: A and everything else but P and PC stay |
| CpuProperties.StepEor | src/cpu/mod.rs:1190-1192 | EOR: Z/N set from A ^ operand; only P and PC change |
| CpuProperties.StepAdcSbc | src/cpu/mod.rs:1193-1207 | ADC/SBC: P is what `op_carry` makes of A and the operand (C = bit 8 of the exact sum, V cleared); A keeps its value |
| CpuProperties.GroupOneOra | src/cpu/mod.rs:1184-1186 | the ORA arm writes A \| operand and its Z/N |
| CpuProperties.GroupOneAnd | src/cpu/mod.rs:1187-1189 | the AND arm changes only P, to the Z/N of A & operand |
| CpuProperties.GroupOneEor | src/cpu/mod.rs:1190-1192 | the EOR arm changes only P, to the Z/N of A ^ operand |
| CpuProperties.GroupOneCarry | src/cpu/mod.rs:1193-1207 | the ADC and SBC arms change only P, to `op_carry`'s flags |
| CpuProperties.GroupOneCompare | src/cpu/mod.rs:1202-1204 | the CMP arm changes only P, to `CompareFlags(P, A, operand)` |
| CpuProperties.StepCmp | src/cpu/mod.rs:1202-1204 | CMP: P is set by `compare` (V when A is below the operand, Z when equal); only P and PC change |
| CpuProperties.StepLda | src/cpu/mod.rs:1199-1201 | LDA: A becomes the operand with no flag change; only A and PC change |
| CpuProperties.StepSta | src/cpu/mod.rs:1196-1198 | STA: the target address is in RAM, A is stored there, and only RAM and PC change |
| CpuProperties.OperandFromAddress | src/cpu/mod.rs:950-1028 | the fetched operand is the byte at the fetched address, except for the immediate forms, whose address is the operand byte itself |
| CpuProperties.StepLdx | src/cpu/mod.rs:1244-1249 | LDX: X becomes the operand with no flag change; only X and PC change |
| CpuProperties.StepStx | src/cpu/mod.rs:1228-1232 | STX: the arm is empty, so only PC moves |
| CpuProperties.StaAbsoluteToRegisterFails | src/cpu/mod.rs:1010-1012 | `STA abs` to a PPU/APU/IO register panics before storing, because the operand stage loads the target first and those addresses give nothing |
| CpuProperties.PushPullWord | src/cpu/mod.rs:444-464 | `pull_word` after `push_word` returns the byte and restores S; the byte sits at zero-page address S |
| CpuProperties.PushDoubleWordStores | src/cpu/mod.rs:450-456 | with room on the page, `push_doubleword` stores the low byte at S and the high byte at S + 1, adds 2 to S and changes nothing else but RAM |
| CpuProperties.PullDoubleWordFrom | src/cpu/mod.rs:466-471 | `pull_doubleword` subtracts 2 from S and reads the low byte at S and the high byte at S + 1 |
| CpuProperties.PushPullDoubleWord | src/cpu/mod.rs:450-471 | `pull_doubleword` after `push_doubleword` returns the doubleword and restores S |
| CpuProperties.AdvancePcAdds | src/cpu/mod.rs:477-493 | `advance_pc_n` adds exactly n, or panics exactly when PC + n leaves 16 bits; nothing else changes |
| CpuProperties.RelativeJumpTaken | src/cpu/mod.rs:495-499 | `relative_jump` adds the zero-extended byte after the opcode to PC when the `i16` sum does not overflow |
| CpuProperties.RelativeJumpOverflows | src/cpu/mod.rs:495-499 | below 0x8000, a target reaching 0x8000 overflows `i16` and panics |
| CpuProperties.RelativeJumpFrom | src/cpu/mod.rs:495-499 | `relative_jump` composed from its three steps |
| CpuExamples.PcAdvancesInSteps | src/cpu/mod.rs:25-36 | from PC 0, `advance_pc_1`, `_2`, `_3` land on 1, 3 and 6 |
| CpuExamples.Start | src/cpu/mod.rs:16-20 | the reset system with the program copied in is well formed |
| CpuExamples.LoadProgramByte | src/cpu/mod.rs:311-313 | byte i of the program is loaded from 0x8000 + i |
| CpuExamples.StepFrom | src/cpu/mod.rs:943-1288 | `alternate_exec` composed from its three stages |
| CpuExamples.AdvanceExecFrom | src/cpu/mod.rs:438-442 | `advance_exec` composed from the fetch and the execution |
| CpuExamples.FirstInstruction | src/cpu/mod.rs:90-104 | `AND #$00` sets Z and leaves A at 0, PC at 0x8002 |
| CpuExamples.SecondInstruction | src/cpu/mod.rs:90-104 | `ORA #$01` puts 1 in A and clears Z |
| CpuExamples.ThirdInstruction | src/cpu/mod.rs:90-104 | `STA $01` stores A in RAM cell 1 |
| CpuExamples.RunStoresOne | src/cpu/mod.rs:90-104 | three steps of `29 00 09 01 85 01` from 0x8000 succeed, leave 1 at `$0001` and PC at 0x8006 |
| CpuExamples.NibblesOf0x31 | src/cpu/mod.rs:160-166 | the nibbles of 0x31 are 1 and 3 |
| Cpu.Reset | src/cpu/mod.rs:397-405 | A, X, Y, S, P and PC become 0; RAM and cartridge are untouched |
| CpuProperties.AbsoluteAddressLittleEndian | src/cpu/mod.rs:692-696 | `absolute_address` is `from_words(byte at PC+2, byte at PC+1)`, and `indirect_address` is the same address, with no second dereference |
| CpuProperties.AbsoluteAddressHighFirst | src/cpu/mod.rs:806-810 | the high byte is loaded first, so its fault is the one reported |
| Emulator.System.State | src/cpu/mod.rs:322-333 | the registers of `System` and the contents of its RAM and cartridge form a valid state of the model |
| Emulator.System.NewResetted | src/cpu/mod.rs:351-363 | every register is 0, RAM is zeroed and the cartridge is empty |
| Emulator.System.Reset | src/cpu/mod.rs:397-405 | the registers become `Cpu.Reset`'s, all zero, with memory untouched |
| Emulator.System.SetFlag | src/cpu/mod.rs:506-681 | `set_F` leaves P as `Set(P, F)`, F reads as set and nothing else changes |
| Emulator.System.ClearFlag | src/cpu/mod.rs:512-681 | `clear_F` leaves P as `Clear(P, F)`, F reads as clear and nothing else changes |
| Emulator.System.UpdateFlag | src/cpu/mod.rs:518-688 | `update_F(v)` leaves P as `Update(P, F, v)`, F reads as `v` and nothing else changes |
| Emulator.System.UpdateFlagsZN | src/cpu/mod.rs:784-801 | the three-way branch on the `i8` reading leaves P as `FlagsZN`; nothing else changes |
| Emulator.System.Compare | src/cpu/mod.rs:821-829 | P becomes `CompareFlags(P, lhs, rhs)`; nothing else changes |
| Emulator.System.Or | src/cpu/mod.rs:831-836 | returns `lhs \| rhs`, P gets its Z/N; nothing else changes |
| Emulator.System.And | src/cpu/mod.rs:838-843 | returns `lhs & rhs`, P gets its Z/N; nothing else changes |
| Emulator.System.Eor | src/cpu/mod.rs:845-857 | returns `lhs ^ rhs`, P gets its Z/N; nothing else changes |
| Emulator.System.OpCarry | src/cpu/mod.rs:860-881 | the `i16` steps leave the result and P of `Alu.OpCarry`; nothing else changes |
| Emulator.System.Adc | src/cpu/mod.rs:883-893 | `op_carry` in Add mode |
| Emulator.System.Sbc | src/cpu/mod.rs:895-905 | `op_carry` in Sub mode |
| Emulator.System.Asl | src/cpu/mod.rs:907-914 | returns `v << 1` with P from `Alu.Asl` (C = old bit 7); nothing else changes |
| Emulator.System.Lsr | src/cpu/mod.rs:916-922 | returns `v >> 1` with P from `Alu.Lsr` (C = old bit 0); nothing else changes |
| Emulator.System.Rol | src/cpu/mod.rs:924-931 | the rotate through C of `Alu.Rol`; nothing else changes |
| Emulator.System.Ror | src/cpu/mod.rs:933-940 | the rotate through C of `Alu.Ror`; nothing else changes |
| Emulator.System.Load | src/cpu/mod.rs:419-422 | returns the bus's `LoadSpec` and changes nothing |
| Emulator.System.Store | src/cpu/mod.rs:414-417 | reaches the state of `Cpu.Store` (only RAM changes) or stops with its fault |
| Emulator.System.LoadRam | src/cpu/mod.rs:298-301 | a load below 0x2000 never faults and changes nothing |
| Emulator.System.StoreRam | src/cpu/mod.rs:298-305 | a store below 0x2000 never faults and leaves the state of `Cpu.Store` |
| Emulator.System.LoadOffset | src/cpu/mod.rs:424-428 | returns `Cpu.LoadOffset`, the loaded byte zero-extended, changing nothing |
| Emulator.System.LoadDoubleWord | src/cpu/mod.rs:430-436 | returns the little-endian doubleword at the address (low byte first), changing nothing |
| Emulator.System.ImmediateValue | src/cpu/mod.rs:727-731 | returns the byte at PC + 1, changing nothing |
| Emulator.System.ImmediateAddress | src/cpu/mod.rs:733-735 | returns that byte zero-extended, changing nothing |
| Emulator.System.AbsoluteAddress | src/cpu/mod.rs:803-810 | returns `Cpu.AbsoluteAddress` (high byte first, little endian), changing nothing |
| Emulator.System.AbsoluteValue | src/cpu/mod.rs:812-817 | returns the byte at the absolute address, changing nothing |
| Emulator.System.IndirectAddress | src/cpu/mod.rs:692-696 | returns the same address as `absolute_address`, changing nothing |
| Emulator.System.IndirectValue | src/cpu/mod.rs:698-704 | returns the byte at that address, changing nothing |
| Emulator.System.IndirectAddressX | src/cpu/mod.rs:706-709 | returns operand byte plus X wrapped to a byte, changing nothing |
| Emulator.System.IndirectValueX | src/cpu/mod.rs:711-717 | returns the byte at that address, changing nothing |
| Emulator.System.IndirectValueY | src/cpu/mod.rs:719-725 | returns the zero-page byte plus Y (panicking on byte overflow), changing nothing |
| Emulator.System.ZeropageAddress | src/cpu/mod.rs:737-741 | returns the operand byte zero-extended, changing nothing |
| Emulator.System.ZeropageAddressX | src/cpu/mod.rs:745-749 | returns operand byte + X as a 16-bit sum, changing nothing |
| Emulator.System.ZeropageAddressY | src/cpu/mod.rs:751-755 | returns operand byte + X (not Y), changing nothing |
| Emulator.System.ZeropageValue | src/cpu/mod.rs:757-762 | returns the byte at the zero-page address, changing nothing |
| Emulator.System.ZeropageValueX | src/cpu/mod.rs:764-770 | returns the byte at the X-indexed address, changing nothing |
| Emulator.System.ZeropageValueY | src/cpu/mod.rs:772-777 | returns the byte at the same X-indexed address, changing nothing |
| Emulator.System.PushWord | src/cpu/mod.rs:444-448 | reaches the state of `Cpu.PushWord` (byte at S, S + 1) or its fault |
| Emulator.System.PushDoubleWord | src/cpu/mod.rs:450-456 | reaches the state of `Cpu.PushDoubleWord` (low byte at S, high at S + 1, S + 2) or its fault |
| Emulator.System.PullWord | src/cpu/mod.rs:458-464 | reaches the state and byte of `Cpu.PullWord` or its fault |
| Emulator.System.PullDoubleWord | src/cpu/mod.rs:466-471 | reaches the state and doubleword of `Cpu.PullDoubleWord` or its fault |
| Emulator.System.AdvancePc | src/cpu/mod.rs:477-493 | reaches the state of `Cpu.AdvancePc` (PC + n exactly) or the overflow |
| Emulator.System.RelativeJump | src/cpu/mod.rs:495-499 | reaches the state of `Cpu.RelativeJump` or its fault |
| Emulator.System.BranchOn | src/cpu/mod.rs:389-395 | reaches the state of `Cpu.BranchOn`: the jump when true, PC + 2 when false |
| Emulator.System.ResolveOperand | src/cpu/mod.rs:945-1028 | the mutable `operand`/`address`/`pc_offset` locals end as `Cpu.ResolveOperand` says; nothing changes |
| Emulator.System.GroupOne | src/cpu/mod.rs:1182-1210 | the cc=1 arm reaches the state of `Cpu.GroupOne` or its fault |
| Emulator.System.Operate | src/cpu/mod.rs:1033-1286 | the second `match` reaches the state of `Cpu.Operate` or its fault |
| Emulator.System.AlternateExec | src/cpu/mod.rs:943-1288 | reaches the state of `Cpu.Step` or its fault |
| Emulator.System.AdvanceExec | src/cpu/mod.rs:438-442 | reaches the state of `Cpu.AdvanceExec` or its fault |
| Emulator.System.RunProgrammFor | src/cpu/mod.rs:365-373 | the cartridge gets the program, then the loop reaches `Cpu.Run(…, count)` or the first fault |
| Emulator.System.RunInstructions | src/cpu/mod.rs:368-371 | the loop of `run_programm_for` reaches `Cpu.Run(…, count)` or the first fault |
| Emulator.System.AdvanceOne | src/cpu/mod.rs:368-371 | one iteration: the rest of the run goes on from the new state, or the run stops with the panic |
| Assembler.Mnemonic | src/assembler/mod.rs:543-600 | every variant of `Instructions` is written as three upper-case letters |
| Assembler.EvalOperation | src/assembler/mod.rs:85-147 | a text outside the table is the "unrecognised operation" panic; only three-character texts are recognised |
| Assembler.EvalOperationKnowsEveryMnemonic | src/assembler/mod.rs:86-147 | `eval_operation` maps the text of each of the 56 mnemonics to its own instruction |
| Assembler.EvalOperationOnlyMnemonics | src/assembler/mod.rs:86-147 | `eval_operation` succeeds only on the text of the instruction it returns; any other text is the "unrecognised operation" panic, so the table and `Mnemonic` are inverse |
| Assembler.HexDigitValue | src/assembler/mod.rs:150-158 | a digit read by `from_str_radix(_, 16)` has a value below 16 |
| Assembler.HexDigits | src/assembler/mod.rs:605-615 | the printing of a number has exactly the width asked for and only the digits `[0-9A-F]` the operand patterns accept |
| Assembler.UpperHexCharValue | src/assembler/mod.rs:150-158 | each printed digit reads back as its value |
| Assembler.HexValueOfDigits | src/assembler/mod.rs:150-158 | reading the printed digits of a number that fits the width gives the number back |
| Assembler.DigitsOfHexValue | src/assembler/mod.rs:605-615 | a string of upper-case digits is the printing of its value, and that value is below 16 to the power of its length |
| Assembler.FromStrRadix16Digits | src/assembler/mod.rs:150-158 | `from_str_radix` on unsigned digits whose value is in range returns that value |
| Assembler.ParseWordHex | src/assembler/mod.rs:155-158 | a failure is the `expect` panic on that text; non-empty hex digits parse exactly when their value is at most 0xFF, and then to that value |
| Assembler.ParseDoubleWordHex | src/assembler/mod.rs:150-153 | the same for `u16`: non-empty hex digits parse exactly when their value is at most 0xFFFF, and then to that value |
| Assembler.ParseWordHexRoundTrip | src/assembler/mod.rs:156-158 | `parse_word_hex` reads back every byte printed as two digits |
| Assembler.ParseDoubleWordHexRoundTrip | src/assembler/mod.rs:151-153 | `parse_doubleword_hex` reads back every doubleword printed as four digits |
| Assembler.ParseHexOnPatternDigits | src/assembler/mod.rs:160-203 | on the two or four digits an operand pattern captures, the `expect` in `parse_word_hex`/`parse_doubleword_hex` never fires |
| Assembler.HexValueBound | src/assembler/mod.rs:150-158 | n hex digits denote a value below 16 to the n |
| Assembler.SevenCharacterForms | src/assembler/mod.rs:605-615 | a seven-character operand matches only the abs X, abs Y, ind, ind X or ind Y pattern, each told apart by its first, fifth and last characters |
| Assembler.FormsDisjoint | src/assembler/mod.rs:605-615 | no operand text matches two of the nine `OPERAND_REGEXES`, so the "found 2" panic of `eval_operand` cannot fire |
| Assembler.FirstMatchBelow | src/assembler/mod.rs:165-197 | the pattern found is the first of the given ones that matches, and none is found exactly when none matches |
| Assembler.FirstMatchStable | src/assembler/mod.rs:165-197 | once a pattern matches, trying further patterns does not change which one was found |
| Assembler.Classify | src/assembler/mod.rs:160-203 | corrected `eval_operand` (the `^$` pattern gives `Implied`): an operand is classified exactly when one of the nine patterns matches it; otherwise it is the "unrecognised operand" panic |
| Assembler.EvalOperand | src/assembler/mod.rs:160-203 | `eval_operand` as written: the empty operand fails on `&cap[1]` of the group-less `^$` pattern; any other operand gets the mode of the pattern it matches, or the "unrecognised operand" panic |
| Assembler.FormOf | src/assembler/mod.rs:605-615 | each addressing mode has one of the nine patterns as its printed form, except the zero-page modes, which no pattern produces |
| Assembler.MatchesJoin | src/assembler/mod.rs:605-615 | a pattern matches its prefix, digits of its width and its suffix, and captures exactly those digits |
| Assembler.OnlyMatch | src/assembler/mod.rs:165-197 | an operand that matches a pattern is classified by that pattern |
| Assembler.OperandDigitsFit | src/assembler/mod.rs:605-615 | a mode's printed operand has as many upper-case digits as its pattern captures |
| Assembler.ModeOfAddressDigits | src/assembler/mod.rs:185-193 | parsing the printed digits of an address mode gives the same mode and address |
| Assembler.ModeOfByteDigits | src/assembler/mod.rs:188-195 | parsing the printed digits of a byte-operand mode gives the same mode and byte |
| Assembler.ClassifyPrinted | src/assembler/mod.rs:160-203 | printing a mode and classifying the text gives the mode back (print-then-parse round trip) |
| Assembler.ModeOfPattern | src/assembler/mod.rs:185-195 | the digits each pattern captures parse into a mode printed in that pattern whose operand is the value of the digits |
| Assembler.ClassifiedText | src/assembler/mod.rs:160-203 | a classified operand is in the printed form of its mode with the mode's operand equal to its digits' value; failure is only the "unrecognised operand" error (parse-then-print direction) |
| Assembler.ClassifyEmpty | src/assembler/mod.rs:189 | the empty operand of an implied instruction is classified `Implied` |
| Assembler.SkipSpaces | src/assembler/mod.rs:603 | the `\s*` of `SPLIT_REGEX`: the position reached follows only whitespace and stops at a non-space or the end |
| Assembler.SkipWord | src/assembler/mod.rs:603 | the `\S+` of `SPLIT_REGEX`: the position reached follows only non-space characters and stops at whitespace or the end |
| Assembler.LineEnd | src/assembler/mod.rs:603 | the `.*` of `SPLIT_REGEX`: the position reached follows no line break and stops at one or at the end |
| Assembler.Split | src/assembler/mod.rs:207-214 | a line splits exactly when it has a non-space character; the mnemonic part is a non-empty run of non-space characters, the operand part has no line break and does not start with whitespace |
| Assembler.SplitJoin | src/assembler/mod.rs:205-216 | a mnemonic and an operand of that shape, joined by a space, split back into the two |
| Assembler.Eval | src/assembler/mod.rs:205-226 | corrected `eval`: a line with no non-space character is the "unrecognised line" panic; a success holds the instruction whose mnemonic is the first word and the mode `Classify` gives the rest |
| Assembler.EvalAsWritten | src/assembler/mod.rs:160-226 | `eval` as written: a line with no non-space character is the "unrecognised line" panic, a line with an empty operand always fails, and a success never holds `Implied` |
| Assembler.EvalAsWrittenAgrees | src/assembler/mod.rs:160-226 | `eval` as written and the corrected `Eval` agree on every line whose operand is not empty; with an empty operand and a known mnemonic the former panics on `&cap[1]` |
| Assembler.FieldsByte | src/assembler/mod.rs:249-251 | the byte built from aaa, bbb and cc has exactly those fields |
| Assembler.BaseOpcode | src/assembler/mod.rs:247-453 | the first `match` of `emit` never gives cc=11 |
| Assembler.ModeBbb | src/assembler/mod.rs:460-500 | the bbb an operand selects is a three-bit field |
| Assembler.Opcode | src/assembler/mod.rs:456-500 | with no operand the byte is kept; a failure needs an operand and a cc=01 or cc=10 byte |
| Assembler.OperandBytes | src/assembler/mod.rs:505-520 | an operand adds at most two bytes |
| Assembler.Encode | src/assembler/mod.rs:229-522 | no instruction is the `unwrap` panic; an encoding is one to three bytes and begins with the opcode |
| Assembler.Assemble | src/assembler/mod.rs:45-52 | corrected pipeline: a line `Eval` refuses fails with `Eval`'s fault; an assembled line is one to three bytes |
| Assembler.AssembleAsWritten | src/assembler/mod.rs:45-52 | as written: every line with an empty operand fails; an assembled line is one to three bytes |
| Assembler.InitialByte | src/assembler/mod.rs:246-453 | the first `match` of `emit`, run from a zero byte, yields the instruction's base opcode |
| Assembler.Emit | src/assembler/mod.rs:229-523 | `emit` appends to the stream exactly the encoding of the instruction: opcode then operand bytes; every panic leaves an error |
| Assembler.ParseLine | src/assembler/mod.rs:45-52 | `parse_line` over the corrected `Eval`: appends the assembly of the line to the stream, or fails as `eval` or `emit` does; on lines whose operand is not empty this is also `parse_line` as written |
| Assembler.OpcodeKeepsAaaCc | src/assembler/mod.rs:456-500 | the operand only ever changes bbb: the opcode keeps the instruction's aaa and cc |
| Assembler.CcZeroKeepsOpcode | src/assembler/mod.rs:460-500 | a cc=00 opcode is emitted unchanged whatever the operand |
| Assembler.AdjustedFields | src/assembler/mod.rs:460-500 | when the operand selects a bbb, the opcode is the instruction's aaa and cc with that bbb |
| Assembler.GroupOneInstructions | src/assembler/mod.rs:249-453 | exactly ORA, AND, EOR, ADC, STA, LDA, CMP and SBC get cc=01 |
| Assembler.GroupOneAddressing | src/assembler/mod.rs:460-479 | for cc=01: bbb 011, 111, 110, 010 for absolute, absolute X, absolute Y, immediate; zero-page modes are `unimplemented!()`; implied, indirect and relative panic |
| Assembler.GroupTwoInstructions | src/assembler/mod.rs:249-453 | exactly the shifts and rotates, STX, LDX, DEC, INC, DEX, NOP, TAX, TXA, TXS and TSX get cc=10 |
| Assembler.GroupTwoAddressing | src/assembler/mod.rs:481-500 | for cc=10: bbb 011 for all three absolute modes and 000 for immediate; zero-page modes are `unimplemented!()`; implied, indirect and relative panic |
| Assembler.EncodeLayout | src/assembler/mod.rs:502-522 | an encoding is the opcode, then two operand bytes low byte first for an address, one for a byte operand, none for `Implied` |
| Assembler.FormIsOneWord | src/assembler/mod.rs:605-615 | no operand pattern holds a line break or begins with whitespace, and the one without a prefix, `^$`, is empty |
| Assembler.UpperDigitsAreOneWord | src/assembler/mod.rs:605-615 | the digits `[0-9A-F]` are neither line breaks nor whitespace |
| Assembler.OperandTextIsOneWord | src/assembler/mod.rs:605-615 | a printed operand has no line break and does not start with whitespace |
| Assembler.EvalPrinted | src/assembler/mod.rs:205-226 | corrected `Eval`: a mnemonic followed by a printed operand evaluates to that instruction and mode (for `Implied`, the bare mnemonic, where the code as written panics) |
| Assembler.AssemblePrinted | src/assembler/mod.rs:45-52 | corrected pipeline: a mnemonic followed by a printed operand assembles to the encoding of that instruction and mode |
| Assembler.EncodeImplied | src/assembler/mod.rs:502-522 | an implied operand adds no byte after the opcode |
| Assembler.BareMnemonicAsWritten | src/assembler/mod.rs:169-170 | as written, a mnemonic alone never assembles: its empty operand panics on `&cap[1]` of `^$` |
| Assembler.AssembleMnemonicAlone | src/assembler/mod.rs:456-502 | corrected pipeline: a mnemonic alone assembles to its base opcode when it has cc=00, and panics in `emit` for cc=01 and cc=10 |
| Assembler.EncodeLdaImmediate | src/assembler/mod.rs:9 | `LDA #$01` encodes as A9 01 |
| Assembler.EncodeStaAbsolute | src/assembler/mod.rs:10 | `STA $0200` encodes as 8D 00 02 |
| Assembler.AssembleLdaImmediate | src/assembler/mod.rs:9 | the first line of the test program assembles to A9 01 |
| Assembler.AssembleStaAbsolute | src/assembler/mod.rs:10 | the second line of the test program assembles to 8D 00 02 |
| Assembler.RtsAsWritten | src/assembler/mod.rs:169-170 | as written, `RTS` panics in `eval_operand` |
| Assembler.AssembleRts | src/assembler/mod.rs:404-407 | corrected pipeline: `RTS` assembles to its single byte 60 |
| Assembler.TaxAsWritten | src/assembler/mod.rs:169-170 | as written, `TAX` panics in `eval_operand` on `&cap[1]`, as every mnemonic alone does |
| Assembler.AssembleTaxPanics | src/assembler/mod.rs:481-500 | corrected pipeline: `TAX` still panics, later, because it is the fixed byte AA with cc=10 and `emit` refuses the implied operand there |
| Assembler.EncodeJsrByteAbsolute | src/assembler/mod.rs:270-273 | BIT and JSR both leave the first `match` with the byte 0x20, which no operand changes, so both encode `$0200` as 20 00 02 |
| Assembler.AssembleBitAbsolute | src/assembler/mod.rs:456-502 | `BIT $0200` assembles to 20 00 02, the bytes of `JSR $0200`: cc=00 opcodes never get a bbb |
| Assembler.AssembleJsrAbsolute | src/assembler/mod.rs:352-354 | `JSR $0200` assembles to 20 00 02 |
| RoundTrip.GroupOneOperation | src/cpu/mod.rs:1182-1210 | the cc=1 arm of `alternate_exec` runs one of the eight group-one operations for each aaa |
| RoundTrip.DecodeThenEncode | src/cpu/mod.rs:1182-1210 | the operation the decoder runs for an aaa is the mnemonic `emit` gives that same aaa and cc=01 (decode then encode) |
| RoundTrip.EncodeThenDecode | src/assembler/mod.rs:460-479 | every cc=01 mnemonic with an absolute, indexed or immediate operand is emitted as a cc=1 byte the decoder runs as the same operation; the decoder implements exactly the absolute and immediate forms and then advances PC by the length of the encoded instruction |
| RoundTrip.GroupOneOperationOfBase | src/assembler/mod.rs:249-453 | the aaa `emit` gives a cc=01 mnemonic selects that mnemonic's arm of the decoder |
| RoundTrip.GroupOneDecoding | src/cpu/mod.rs:950-1028 | the decoder runs a cc=1 byte exactly when bbb is 0 to 3, advancing PC by 3 for bbb 011 and by 2 for bbb 010 |
| RoundTrip.LoadStoreXDecoding | src/assembler/mod.rs:481-500 | LDX and STX with all three absolute forms are emitted as the same bbb 011 byte, run with a 3-byte advance; immediate gives bbb 000, run for LDX with a 2-byte advance and not at all for STX |
| RoundTrip.GroupZeroNeverRuns | src/cpu/mod.rs:1034-1178 | the instructions `emit` gives cc=00 never run: every cc=0 arm of `alternate_exec` is `unimplemented!()` |
| RoundTrip.FetchesAssembledOperand | src/cpu/mod.rs:990-1014 | with an assembled cc=01 instruction in memory at PC, the decoder fetches exactly the operand that was assembled: the immediate byte, or the byte at the absolute address written low byte first |
| RoundTrip.AssembledGroupOne | src/assembler/mod.rs:460-522 | an assembled cc=01 instruction with an immediate or absolute operand is a cc=01 opcode with bbb 010 or 011, followed by the byte or by the address low byte first |
| RoundTrip.EncodedAs | src/assembler/mod.rs:502-522 | the encoding is the opcode followed by the operand bytes |
| RoundTrip.FetchesImmediate | src/cpu/mod.rs:990-996 | the operand stage of a cc=1 byte with bbb 010 reads the byte after the opcode, with a 2-byte advance |
| RoundTrip.FetchesAbsolute | src/cpu/mod.rs:1002-1014 | the operand stage of a cc=1 byte with bbb 011 reads the address after the opcode, low byte first, and the byte there, with a 3-byte advance |
| RoundTrip.NextByte | src/cpu/mod.rs:729-736 | adding 1 to PC as a byte or as a doubleword is the same checked sum |
| RoundTrip.RunsAssembledLoad | src/cpu/mod.rs:1197-1199 | an assembled `LDA #$hh` at PC, when run, leaves hh in A and PC just past its two bytes |
| DraftCpu.Load | src/main.rs:411-413 | over the substituted flat memory, `load` reads a byte that storing back leaves the state as it was |
| DraftCpu.Store | src/main.rs:406-408 | `store` replaces one byte of memory and changes nothing else |
| DraftCpu.StoreThenLoad | src/main.rs:406-413 | over the substituted flat memory, a stored byte is seen by a load from the same address and by no other |
| DraftCpu.LoadOffset | src/main.rs:416-419 | the offset is the loaded byte zero-extended: below 0x100, with the byte as its low half |
| DraftCpu.LoadDoubleWord | src/main.rs:422-427 | at 0xFFFF the address of the high byte overflows; below it the result's bytes are the byte at the address and the byte after it, low first |
| DraftCpu.LowNibbleAsWritten | src/main.rs:390-393 | `low_nibble` as written equals the low four bits exactly for the bytes below 0x10 |
| DraftCpu.PushWord | src/main.rs:436-439 | with S at 0xFF the increment overflows; below it the byte is written at zero-page address S, S grows by one and nothing else changes |
| DraftCpu.PushDoubleWord | src/main.rs:442-447 | with S at 0xFE or above an increment overflows; below it S grows by two and only memory and S change |
| DraftCpu.PullWord | src/main.rs:451-455 | with S at 0 the decrement overflows; otherwise S drops by one and the byte at the new S is returned |
| DraftCpu.PullDoubleWord | src/main.rs:459-462 | with S below 2 the decrement overflows; otherwise S drops by two and the bytes at the new S and after it are returned, low first |
| DraftCpu.AdvancePc | src/main.rs:470-486 | `advance_pc_n` succeeds exactly when PC + n fits in 16 bits and changes only PC |
| DraftCpu.RelativeJump | src/main.rs:488-490 | at PC 0xFFFF reading the offset overflows; a jump changes only PC |
| DraftCpu.BranchOn | src/main.rs:372-377 | a branch changes only PC; not taken, it succeeds exactly when PC is at most 0xFFFD and then adds 2 |
| DraftCpu.CompareMask | src/main.rs:655-666 | V is set exactly on a borrow, N exactly when the wrapped difference is negative as an `i8`, C exactly otherwise, and no other bit |
| DraftCpu.Compare | src/main.rs:655-666 | at PC 0xFFFF reading the operand overflows; otherwise only P changes and no bit of P is cleared |
| DraftCpu.IndirectX | src/main.rs:620-624 | at PC 0xFFFF reading the operand overflows; otherwise the operand is the byte at the zero-page address held at (PC+1)+X, a wrapping 16-bit add |
| DraftCpu.IndirectY | src/main.rs:628-632 | at PC 0xFFFF reading the operand overflows; otherwise the operand is the byte at the zero-page address held at PC+1, plus Y, where leaving eight bits is the overflow panic |
| DraftCpu.Dispatch | src/main.rs:668-672 | a row of 0x10 or more is the "failed to convert" panic, rows 2 to F are `unimplemented!()`, and only rows 0 and 1 can succeed |
| DraftCpu.RowZero | src/main.rs:671-745 | row 0 of the opcode matrix is `unimplemented!()` exactly in columns 0 (BRK), 1 (BPL), 4 (RTI) and 8; any other failure is an overflow panic |
| DraftCpu.SubroutineArm | src/main.rs:679-706 | JSR and RTS fail only on an unchecked `+`/`-` leaving its type |
| DraftCpu.BranchArm | src/main.rs:685-741 | the branch arms fail only on an unchecked `+` leaving its type |
| DraftCpu.RegisterArm | src/main.rs:721-738 | LDY #, CPY # and CPX # fail only on an unchecked `+` leaving its type; what each arm computes is `DraftProperties.LdyImmediate` and `DraftProperties.CompareImmediate` |
| DraftCpu.RowOne | src/main.rs:746-813 | row 1 is `unimplemented!()` exactly in columns 6 to F; any other failure is an overflow panic; what columns 0 to 5 compute is `DraftProperties.OraIndirectX` to `DraftProperties.EorIndirectY` |
| DraftCpu.ExecAsWritten | src/main.rs:668-672 | `exec` as written succeeds only for the opcode 0x01 |
| DraftCpu.Exec | src/main.rs:668-672 | with the four-bit row, `exec` never ends in the "failed to convert" panic for the row |
| DraftProperties.PushPullWord | src/main.rs:436-455 | `pull_word` after `push_word` gives the byte back and restores S; the byte stays at zero-page address S and only memory and S changed |
| DraftProperties.StackBounds | src/main.rs:436-462 | pushing with S at 0xFF (0xFE for a doubleword) and pulling with S below 1 (2) is the overflow panic |
| DraftProperties.PushDoubleWordFrom | src/main.rs:442-447 | `push_doubleword` stores the low byte at S, the high byte at S+1, then adds 2 to S |
| DraftProperties.PullDoubleWordFrom | src/main.rs:459-462 | `pull_doubleword` subtracts 2 from S and reads the low byte there and the high byte after it |
| DraftProperties.PushPullDoubleWord | src/main.rs:442-462 | `pull_doubleword` after `push_doubleword` gives the doubleword back and restores S |
| DraftProperties.AdvancePcAdds | src/main.rs:470-486 | `advance_pc_n` adds n exactly, or panics when PC + n leaves 16 bits; nothing else changes |
| DraftProperties.BranchNotTaken | src/main.rs:372-377 | `branch_on(false)` skips the two bytes of the branch |
| DraftProperties.RelativeJumpFrom | src/main.rs:488-490 | `relative_jump` adds the offset read after the opcode to PC as an `i16`, or panics |
| DraftProperties.BranchTaken | src/main.rs:372-377 | `branch_on(true)` adds the zero-extended byte after the opcode to PC; from below 0x8000 a target at or past 0x8000 overflows `i16` and panics |
| DraftProperties.CompareFrom | src/main.rs:655-666 | `compare` ORs the mask for the byte after the opcode into P |
| DraftProperties.CompareReadsNext | src/main.rs:655-666 | `compare` reads its operand right after the opcode and ORs the mask into P |
| DraftProperties.OrMaskKeeps | src/main.rs:662-665 | ORing in a mask with none of the bits Z, I, D, B and 5 keeps every bit of P and sets the mask's V, N and C |
| DraftProperties.CompareOnlySets | src/main.rs:655-666 | `compare` never clears a bit of P: V on a borrow, N when the wrapped difference is negative, C otherwise; Z, I, D, B and every other register stay |
| DraftProperties.CompareFromClearFlags | src/main.rs:655-666 | from a clear P, `compare` leaves exactly the mask's bits |
| DraftProperties.JsrArm | src/main.rs:679-684 | the JSR arm pushes PC, then loads the target's bytes from PC+1 and PC+2 and jumps there |
| DraftProperties.JsrJumps | src/main.rs:679-684 | JSR pushes the address of the JSR itself and jumps to the little-endian address after the opcode |
| DraftProperties.PushedBelowPage | src/main.rs:442-447 | `push_doubleword` writes only the zero page and the first byte after it |
| DraftProperties.RtsArm | src/main.rs:704-706 | the RTS arm makes the pulled doubleword the new PC |
| DraftProperties.RtsAfterJsr | src/main.rs:679-706 | RTS after JSR restores S and puts PC back on the JSR itself, not on the instruction after it |
| DraftProperties.Bvc | src/main.rs:696-703 | BVC with V clear leaves the whole state unchanged, PC included; with V set it skips two bytes |
| DraftProperties.Branches | src/main.rs:685-741 | BMI on N, BVS on V, BCC and BCS on C, BNE and BEQ on Z: each jumps relatively when its condition holds and skips two bytes otherwise |
| DraftProperties.ExecRowZero | src/main.rs:670-672 | an opcode whose low four bits are 0 runs its arm of row 0 |
| DraftProperties.CompareArm | src/main.rs:728-738 | CPY # and CPX # compare, then skip two bytes |
| DraftProperties.CompareImmediate | src/main.rs:728-738 | CPX # and CPY # OR the mask for the byte after the opcode into P and skip two bytes; nothing else changes |
| DraftProperties.OraIndirectX | src/main.rs:749-812 | ORA (ind,X) sets A to A OR the operand, Z and N from it, and skips two bytes; the other registers stay |
| DraftProperties.OraIndirectY | src/main.rs:754-758 | ORA (ind),Y sets A to A OR the operand, Z and N from it, and skips two bytes; when adding Y overflows it panics |
| DraftProperties.AndIndirectX | src/main.rs:759-763 | AND (ind,X) sets A to A AND the operand, Z and N from it, and skips two bytes |
| DraftProperties.AndIndirectY | src/main.rs:764-768 | AND (ind),Y sets A to A AND the operand, Z and N from it, and skips two bytes; when adding Y overflows it panics |
| DraftProperties.EorIndirectX | src/main.rs:769-773 | EOR (ind,X) sets A to A XOR the operand, Z and N from it, and skips two bytes |
| DraftProperties.EorIndirectY | src/main.rs:774-778 | EOR (ind),Y sets A to A XOR the operand, Z and N from it, and skips two bytes; when adding Y overflows it panics |
| DraftProperties.LdyImmediate | src/main.rs:721-724 | LDY # sets Y to the byte at the zero-page address given after the opcode, changes nothing else and does not advance PC; at PC 0xFFFF it panics |
| DraftProperties.ExecDispatchesEveryByte | src/main.rs:668-1572 | with the row taken from the low four bits, no byte ends in a "failed to convert" panic and every opcode outside the implemented ones ends in `unimplemented!()` |
| DraftProperties.ExecRowOne | src/main.rs:746-748 | an opcode whose low four bits are 1 runs its arm of row 1 |
| DraftProperties.ImplementedFaults | src/main.rs:668-813 | an implemented opcode fails only when an unchecked `+`/`-` leaves its type |
| DraftProperties.ImplementedNibbles | src/main.rs:671-813 | the implemented opcodes are row 0 except columns 0, 1, 4 and 8, and row 1 columns 0 to 5 |
| DraftProperties.ExecAsWrittenOnlyLowBytes | src/main.rs:390-393 | `exec` as written dispatches on the whole byte: every opcode from 0x10 up ends in the "failed to convert" panic, and 0x00-0x0F behave as intended |
| DraftProperties.JsrAsWritten | src/main.rs:390-393 | as written, JSR (0x20) ends in the "failed to convert" panic, while the four-bit row sends it to its arm |
| DraftEmulator.System.State | src/main.rs:349-358 | the registers and memory of the draft `System` form a valid state of the model |
| DraftEmulator.System.Over | src/main.rs:349-358 | a system over a 64 KiB memory starts with every register zero and that memory |
| DraftEmulator.System.Reset | src/main.rs:380-387 | `reset` leaves the state `DraftCpu.Reset` gives: every register zero, memory untouched |
| DraftEmulator.System.SetFlag | src/main.rs:494-616 | `set_F` leaves P as `Set(P, F)`, F reads as set and nothing else changes |
| DraftEmulator.System.ClearFlag | src/main.rs:494-616 | `clear_F` leaves P as `Clear(P, F)`, F reads as clear and nothing else changes |
| DraftEmulator.System.UpdateFlagsZN | src/main.rs:635-650 | the three-way branch on the `i8` reading leaves P as `FlagsZN`; nothing else changes |
| DraftEmulator.System.Load | src/main.rs:411-413 | over the substituted flat memory, `load` returns the byte the model's memory holds |
| DraftEmulator.System.Store | src/main.rs:406-408 | over the substituted flat memory, `store` leaves the state `DraftCpu.Store` gives |
| DraftEmulator.System.LoadOffset | src/main.rs:416-419 | `load_offset` returns the model's offset |
| DraftEmulator.System.LoadDoubleWord | src/main.rs:422-427 | `load_doubleword` returns the model's doubleword, or its overflow panic |
| DraftEmulator.System.PushWord | src/main.rs:436-439 | `push_word` reaches the model's state or stops with its fault |
| DraftEmulator.System.PushDoubleWord | src/main.rs:442-447 | `push_doubleword` reaches the model's state or stops with its fault |
| DraftEmulator.System.PullWord | src/main.rs:451-455 | `pull_word` returns the model's byte and state, or its fault |
| DraftEmulator.System.PullDoubleWord | src/main.rs:459-462 | `pull_doubleword` returns the model's doubleword and state, or its fault |
| DraftEmulator.System.AdvancePc | src/main.rs:470-486 | `advance_pc_n` reaches the model's state or stops with its fault |
| DraftEmulator.System.RelativeJump | src/main.rs:488-490 | `relative_jump` reaches the model's state or stops with its fault |
| DraftEmulator.System.BranchOn | src/main.rs:372-377 | `branch_on` reaches the model's state or stops with its fault |
| DraftEmulator.System.Compare | src/main.rs:655-666 | `compare` reaches the model's state or stops with its fault |
| DraftEmulator.System.IndirectX | src/main.rs:620-624 | `indirect_x` returns the model's operand |
| DraftEmulator.System.IndirectY | src/main.rs:628-632 | `indirect_y` returns the model's operand, or its overflow panic |
| DraftEmulator.System.RowZero | src/main.rs:671-745 | row 0 of `exec` reaches the model's state or stops with its fault |
| DraftEmulator.System.SubroutineArm | src/main.rs:679-706 | the JSR and RTS arms reach the model's state or stop with its fault |
| DraftEmulator.System.BranchArm | src/main.rs:685-741 | the branch arms reach the model's state or stop with its fault |
| DraftEmulator.System.RegisterArm | src/main.rs:721-738 | the LDY #, CPY # and CPX # arms reach the model's state or stop with its fault |
| DraftEmulator.System.IndirectOperand | src/main.rs:749-778 | a row 1 arm reads the model's (ind,X) or (ind),Y operand |
| DraftEmulator.System.CombineIntoA | src/main.rs:749-778 | a row 1 arm writes ORA, AND or EOR of A and the operand back into A |
| DraftEmulator.System.RowOne | src/main.rs:746-813 | row 1 of `exec` reaches the model's state or stops with its fault |
| DraftEmulator.System.Dispatch | src/main.rs:668-1572 | `exec` with the row and column known reaches the model's state or stops with its fault |
| DraftEmulator.System.ExecAsWritten | src/main.rs:668-1572 | `exec` as written reaches the state `DraftCpu.ExecAsWritten` gives or stops with its fault |
| DraftEmulator.System.Exec | src/main.rs:668-1572 | `exec` with the four-bit row reaches the state `DraftCpu.Exec` gives or stops with its fault |
| DraftEmulator.System.AdvanceExec | src/main.rs:430-433 | `advance_exec` executes the opcode at PC as `DraftCpu.Exec` does |

## Left out

- The picture processor (`src/ppu/mod.rs`): its bodies are `todo!()`/`unimplemented!()` and its state is a `union`; there is no logic to state.
- `System::run` is an endless loop that prints; the model has the bounded `run_programm_for` (`Cpu.Run`, with `Cpu.RunAfterStep`) and drops the `println!`.
- Console output: `parse_program` ignores its argument and prints, the `Display` impl of `InstructionStream` only formats, the `println!` in `eval` only prints, and `main()` in `src/main.rs` only prints.
- The regex engine: the nine anchored operand patterns and `SPLIT_REGEX` are modelled as direct string matchers (`Assembler.Matches`, `Assembler.Split`). `OPERATION_REGEXES` and `ASSEMBLY_REGEXES` are never used and are left out.
- Commented-out code: the old opcode matrix of `src/cpu/mod.rs` and the state-machine parser of `src/assembler/mod.rs`.
- `unimplemented!()` and `panic!` arms are failure outcomes (`Unimplemented`, `IllegalAddressing`, ...); no semantics is invented for them.
- `relative_value` and `as_i16` are not part of this model: `as_i16` is not among the source files.
- `InstructionStream` and `Push` are not part of this model. The stream is a `seq<Word>`, and pushing a doubleword appends its two bytes low byte first, as the comment on `emit` says.
- The aaa/bbb/cc accessors and updaters are not among the source files. They are defined from the opcode layout `emit` cites: aaa is bits 7-5, bbb bits 4-2, cc bits 1-0.
- Debug-build overflow: an unchecked `+`/`-` that leaves its type is the fault `ArithmeticOverflow` where the code can reach it, and a precondition on the pure operators `Words.Add`, `Words.Sub`, `Words.DoubleAdd`, `Words.DoubleAddWord` and `Words.AddI16`. Release-build wrap-around is not modelled.
- The draft `Memory` of `src/main.rs` returns `None` from `access` for every address, so its `load` always panics on `unwrap`. The draft CPU is modelled over a flat 64 KiB memory instead, so that its flag, stack and dispatch behaviour can be stated.
- Timing: no cycle counts are modelled; the code keeps none.
- Bus.Ram.Write: the `debug_assert!(address <= 0x07ff)` is a precondition, not a panic outcome.
- Bus.Ram.Read: the `debug_assert!` bound is a precondition, not a panic outcome.
- Bus.Cartridge.PushProgram: a stream longer than 32 KiB would index past the ROM and panic; this is a precondition.
- Bus.FamicomMemory.PushProgram: the same precondition as `Bus.Cartridge.PushProgram`.
- Words.LogicalShiftLeftCarry: a shift by 16 or more overflows `u16` and panics; this is a precondition.
- Words.ArithShiftLeftCarry: the same precondition as `Words.LogicalShiftLeftCarry`.
- Words.ArithShiftRightCarry: a shift by 8 or more overflows `i8` and panics; this is a precondition.
- Assembler.Eval: uses the corrected classifier `Assembler.Classify`; as written, an empty operand panics at src/assembler/mod.rs:170 (`Assembler.EvalAsWritten`, related by `Assembler.EvalAsWrittenAgrees`).
- Assembler.Assemble: built on the corrected `Assembler.Eval`; as written, every line with an empty operand panics at src/assembler/mod.rs:170 (`Assembler.AssembleAsWritten`).
- Assembler.ParseLine: built on the corrected `Assembler.Eval`; it agrees with the code as written on every line whose operand is not empty.
- Assembler.EvalPrinted: about the corrected `Assembler.Eval`; for `Implied` the code as written panics at src/assembler/mod.rs:170.
- Assembler.AssemblePrinted: about the corrected pipeline; for `Implied` the code as written panics at src/assembler/mod.rs:170.
- Assembler.AssembleMnemonicAlone: about the corrected pipeline; as written every mnemonic alone panics at src/assembler/mod.rs:170 (`Assembler.BareMnemonicAsWritten`).
- Assembler.AssembleTaxPanics: about the corrected pipeline, where `TAX` panics in `emit`; as written it panics earlier, at src/assembler/mod.rs:170 (`Assembler.TaxAsWritten`).
- DraftEmulator.System.AdvanceExec: it runs the corrected `exec` (`DraftCpu.Exec`); the as-written dispatch is `DraftEmulator.System.ExecAsWritten`.

## Findings

| source | as written | input that shows it | evidently intended | confidence | as-written member | corrected member |
|---|---|---|---|---|---|---|
| src/assembler/mod.rs:169-190 | `&cap[1]` is taken before the pattern index is looked at, and pattern 4, `^$`, has no group 1, so the empty operand panics instead of giving `Implied` | the line `RTS` (the operand is empty) | the empty operand is classified `Implied`, and `RTS` assembles to 60 | high; not executed | Assembler.EvalOperand, Assembler.EvalAsWritten, Assembler.AssembleAsWritten, with Assembler.BareMnemonicAsWritten, Assembler.RtsAsWritten and Assembler.TaxAsWritten | Assembler.Classify, with Assembler.ClassifyEmpty; the pipeline built on it: Assembler.Eval, Assembler.Assemble, Assembler.ParseLine, with Assembler.EvalPrinted, Assembler.AssemblePrinted, Assembler.AssembleMnemonicAlone, Assembler.AssembleRts and Assembler.AssembleTaxPanics |
| src/main.rs:390-393 | `low_nibble` returns the whole byte, so `exec` reaches its matrix only for 0x00-0x0F and panics with "failed to convert" on every other byte | the opcode 0x20 (JSR) | the row is the low four bits, as `low_nibble` in `src/cpu/mod.rs` computes it | high; not executed | DraftCpu.ExecAsWritten, with DraftProperties.JsrAsWritten and DraftProperties.ExecAsWrittenOnlyLowBytes | DraftCpu.Exec, with DraftProperties.ExecDispatchesEveryByte and DraftProperties.RtsAfterJsr |
