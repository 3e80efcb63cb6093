/** The optional-value datatype used for every decoder that can run out of input. */
module Wrappers {

  /** `None` stands for "no value": a truncated buffer, an unknown opcode, an unsupported rate. */
  datatype Option<+T> = None | Some(value: T)
}
