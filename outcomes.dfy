/** Option and Result values used where the modelled code raises, panics or yields
    `undefined` instead of returning a value. */
module Outcomes {

  datatype Option<+T> = None | Some(value: T)

  /** Why an operation of the modelled code did not produce a value. */
  datatype Error =
    | KeyError(key: int)        // a Python dict lookup of a missing key
    | IndexPanic(row: nat)      // a Go slice index out of range at this row
    | ReadFailure(member: int)  // a file of this ensemble member could not be read
    | TypeError                 // a JavaScript property read on `undefined`

  datatype Result<+T> = Failure(error: Error) | Success(value: T)

  /** Some element of a non-empty set: the next key of an iteration over a dict. */
  method Pick<T>(s: set<T>) returns (x: T)
    requires s != {}
    ensures x in s
  {
    x :| x in s;
  }
}
