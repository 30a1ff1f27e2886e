/// Outcomes shared by every component: the places where the Rust code panics
/// (a debug-build overflow, an `expect`, `unimplemented!()`, an explicit
/// `panic!`) become an `Err` carrying the reason, so that the rest of the
/// model can state exactly which inputs reach them.
module Outcome {

  /// Why an operation stopped where the source panics.
  datatype Fault =
    | ArithmeticOverflow              // unchecked `+`/`-` leaves its type (debug build)
    | ShiftOverflow                   // a shift by at least the operand's width (debug build)
    | UnmappedLoad(at: bv16)          // `load` got `None` back from `access`
    | UnmappedAddress(at: bv16)       // `access` outside every mapped range
    | RomWrite(at: bv16)              // `access` asked to store into the cartridge
    | StoreWithoutValue(at: bv16)     // `access(Store)` called with no data
    | Unimplemented(opcode: bv8)      // an `unimplemented!()` arm of the decoder
    | NibbleOutOfRange(opcode: bv8)   // the draft `exec` got a "nibble" above 0xF
    | MissingOperand                  // `operand.unwrap()` / `address.unwrap()` on `None`
    | UnknownOperation(text: string)  // mnemonic outside the table
    | UnknownOperand(text: string)    // operand matching none of the nine forms
    | AmbiguousOperand(text: string)  // operand matching two forms
    | NoCaptureGroup(text: string)    // `&cap[1]` on a pattern without a group
    | UnparsableLine(text: string)    // line without a non-space character
    | BadHex(text: string)            // `from_str_radix(..).expect(..)` failed
    | MissingInstruction              // `emit` with no instruction
    | IllegalAddressing               // `emit` arm that panics for this operand kind

  /// The result of an operation that may panic; supports `:-`.
  datatype Result<T> = Ok(value: T) | Err(fault: Fault) {
    predicate IsFailure() { Err? }
    function PropagateFailure<U>(): Result<U> requires Err? { Err(fault) }
    function Extract(): T requires Ok? { value }
  }

  datatype Option<T> = None | Some(value: T)
}
