/** Failure-compatible wrappers shared by the conversions.
    - Option<T> is Rust's Option (also SQL's nullable column).
    - Fatal<T> is the result of Rust code that may panic: either the value, or the
      reason the process would abort.
 */
module Wrappers {

  datatype Option<+T> = None | Some(value: T) {

    /** Rust's `unwrap_or` */
    function UnwrapOr(default: T): T {
      match this
      case Some(v) => v
      case None => default
    }
  }

  /** Why a conversion panics. */
  datatype PanicReason =
    | SliceLength(expected: nat, actual: nat)  // a fixed-width hash built from a slice of another width
    | ExpectFailed(message: string)            // `Option::expect` / `Result::expect` on the failing case
    | UnwrapFailed                             // `Option::unwrap` on `None`

  /** The value a Rust expression yields, or the panic that aborts it. */
  datatype Fatal<+T> = Value(value: T) | Panic(reason: PanicReason) {

    predicate IsFailure() {
      Panic?
    }

    function PropagateFailure<U>(): Fatal<U>
      requires Panic?
    {
      Panic(reason)
    }

    function Extract(): T
      requires Value?
    {
      value
    }
  }

  /** Rust's `Option::expect(message)` */
  function Expect<T>(o: Option<T>, message: string): Fatal<T> {
    match o
    case Some(v) => Value(v)
    case None => Panic(ExpectFailed(message))
  }

  /** Rust's `Option::unwrap()` */
  function Unwrap<T>(o: Option<T>): Fatal<T> {
    match o
    case Some(v) => Value(v)
    case None => Panic(UnwrapFailed)
  }
}
