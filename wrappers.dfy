/** Option and Result, the failure-compatible wrappers used across the model. */
module Wrappers {

  datatype Option<+T> = None | Some(value: T)

  /** Why a row could not be processed; each stands for a Python exception
      that abandons the whole parse. */
  datatype Error =
    | MissingField(index: nat)   // IndexError on line[index]
    | BadDate(text: string)      // ValueError from datetime.strptime
    | BadNumber(text: string)    // ValueError from the numeric conversion

  datatype Result<+T> = Ok(value: T) | Err(error: Error) {
    predicate IsFailure() { Err? }

    function PropagateFailure<U>(): Result<U>
      requires Err?
    {
      Err(error)
    }

    function Extract(): T
      requires Ok?
    {
      value
    }
  }
}
