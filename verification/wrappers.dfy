/** The optional value used wherever the game works with a Java reference that may be null. */
module Wrappers {

  /** `None` stands for a null reference, `Some(v)` for a present one. */
  datatype Option<+T> = None | Some(value: T)
}
