/**
 The pieces of the C# runtime that the operators of `Result` and `Result<T>`
 rely on: nullable references, the two exceptions an operator can raise, and
 the identity of the operand an operator hands back.
 */
module Runtime {

  /** A reference that may be null: `None` is the null reference. */
  datatype Option<+T> = None | Some(value: T)

  /** The two parameters of a binary operator, `self` (left) and `other` (right).
      An operator returns one of its operands unchanged; which one it returns is
      what the library's tests check with `ReferenceEquals`. */
  datatype Operand = Self | Other

  /** The exceptions an operator application can raise. */
  datatype Exception =
    | ArgumentNullException(paramName: Operand)
    | NullReferenceException

  /** The outcome of evaluating an operator expression: it either returns, or
      raises an exception and returns nothing. */
  datatype Outcome<+R> = Returned(value: R) | Threw(exception: Exception)

  /** The operand designated by `op`. */
  function Chosen<R>(op: Operand, self: R, other: R): R
  {
    match op
    case Self => self
    case Other => other
  }
}
