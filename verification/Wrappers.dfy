/** Result shapes shared by the protocol modules. */
module Wrappers {

  datatype Option<+T> = None | Some(value: T)

  /** A system call on a machine that may lose power: either the machine dies
      before the call takes effect, or the call is done and yields a value.
      `:-` passes a death on to the caller, which so loses all volatile state. */
  datatype Step<+T> = Crashed | Done(value: T) {
    predicate IsFailure() {
      Crashed?
    }

    function PropagateFailure<U>(): Step<U>
      requires Crashed?
    {
      Crashed
    }

    function Extract(): T
      requires Done?
    {
      value
    }
  }

  /** What a database transaction returns: a value, or the error it was rolled
      back for. */
  datatype Result<+T, +E> = Ok(value: T) | Err(error: E) {
    predicate IsFailure() {
      Err?
    }

    function PropagateFailure<U>(): Result<U, E>
      requires Err?
    {
      Err(error)
    }

    function Extract(): T
      requires Ok?
    {
      value
    }
  }
}
