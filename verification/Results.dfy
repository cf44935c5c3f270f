/** Optional values and fallible results shared by every contract module.

    A contract call on Terra either commits or is rolled back as a whole, so a Rust
    panic (an overflow, an underflow, a division by zero, an `unwrap` on nothing) and a
    returned `StdError` have the same outcome: both are an `Err` here. */
module Results {

  datatype Option<+T> = None | Some(value: T)

  datatype Error =
    | Overflow
    | Underflow
    | DivideByZero
    | Panic
    | Generic(message: string)

  datatype Result<+T> = Ok(value: T) | Err(error: Error) {

    predicate IsFailure() {
      Err?
    }

    function PropagateFailure<U>(): Result<U>
      requires Err?
    {
      Err(error)
    }

    function Extract(): T
      requires Ok?
    {
      value
    }
  }
}
