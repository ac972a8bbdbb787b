/** Failure outcomes of the interpreter. Every one of them is a Rust panic in the
    source (an explicit `panic!`, `todo!`, or an index out of bounds); the model
    returns them as values instead. */
module Faults {

  /** The panics the interpreter can raise. */
  datatype Fault =
    | StackOverflow             // `panic!("Stack overflow!")`
    | StackUnderflow            // `panic!("Stack underflow!")`
    | IllegalJump               // `panic!("Jumping to illegal address!")`
    | IllegalWrite              // `panic!("Writing out of memory bounds.")`
    | IllegalRead               // `panic!("Illegal read.")`
    | UnrepresentableCharacter  // `panic!("Unrepresentable character!")`
    | IndexOutOfBounds          // a Rust array or slice index past the end
    | Unimplemented(opcode: int) // `todo!("opcode {:04x}")`

  datatype Result<T> = Ok(value: T) | Err(fault: Fault)

  datatype Option<T> = None | Some(value: T)

  /** What one fetch-decode-execute cycle ends in. */
  datatype Outcome<M> =
    | Running(machine: M)   // the cycle finished; the machine carries on
    | Halted(machine: M)    // the cycle fetched the halt opcode 0x0000
    | Failed(fault: Fault)  // the cycle panicked
}
