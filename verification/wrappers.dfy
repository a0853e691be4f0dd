/** Failure-compatible datatypes shared by the whole model.
    - Option<T> stands for a JavaScript value that may be `undefined`/`null`.
    - Result<T> stands for a JavaScript computation that either returns a value
      or throws; every `try { … } catch` of the application is a match on it.
    - Call<T> is the answer of a hosted model provider: it throws, or it answers
      with an output that may be absent.
 */
module Wrappers {

  datatype Option<+T> = None | Some(value: T) {

    predicate IsFailure() {
      None?
    }

    function PropagateFailure<U>(): Option<U>
      requires None?
    {
      None
    }

    function Extract(): T
      requires Some?
    {
      value
    }

    /** `x ?? d` */
    function GetOr(default: T): T {
      match this
      case Some(v) => v
      case None => default
    }
  }

  datatype Result<+T> = Ok(value: T) | Threw {

    predicate IsFailure() {
      Threw?
    }

    function PropagateFailure<U>(): Result<U>
      requires Threw?
    {
      Threw
    }

    function Extract(): T
      requires Ok?
    {
      value
    }

    /** The value of a `try` block whose `catch` yields `default`. */
    function Recover(default: T): T {
      match this
      case Ok(v) => v
      case Threw => default
    }
  }

  /** One request to the model provider. */
  datatype Call<+T> = ProviderThrew | Answered(output: Option<T>)
}
