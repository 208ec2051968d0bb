/** Option and Result, the two ways the modelled code reports "nothing here" and "this threw". */
module Wrappers {

  /** `None` stands for JavaScript's `undefined`. */
  datatype Option<+T> = None | Some(value: T)

  /** `Err(message)` stands for a thrown `Error` whose `.message` is `message`. */
  datatype Result<+T> = Ok(value: T) | Err(error: string)
}
