/**
 * Shared result types.  Every `fatal_error`, `exit (1)` and `Assert` of the
 * compiler core ends the whole run; here each one becomes an `Err` value so
 * that the error paths are part of every contract instead of a precondition.
 */
module Common {

  datatype Option<+T> = None | Some(value: T)

  /** `Fatal` is a user-facing error (`fatal_error`, `exit`); `Internal` is a
      failed internal assertion (`Assert`). */
  datatype Error = Fatal(msg: string) | Internal(msg: string)

  datatype Result<+T> = Ok(value: T) | Err(error: Error) {
    predicate IsFailure() { Err? }
    function PropagateFailure<U>(): Result<U>
      requires Err?
    {
      Err(error)
    }
    function Extract(): T
      requires Ok?
    {
      value
    }
  }
}
