/** Nullable references and exceptions of the modelled C# code, as values. */
module Wrappers {

  /** A reference that may be null: `None` stands for C#'s `null` / `default(T)`. */
  datatype Option<+T> = None | Some(value: T)

  /** The outcome of an operation that may throw: `Err` carries what was thrown. */
  datatype Result<+T, +E> = Ok(value: T) | Err(error: E)
}
