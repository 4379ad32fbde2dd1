/** The nullable references and absent values of the source, made explicit. */
module Wrappers {

  /** `None` stands for Java's `null` (or an unset value). */
  datatype Option<+T> = None | Some(value: T)
}
