/** The two JavaScript exceptions the board's code can raise, and a result that either
    carries a value or says which exception the call raised. */
module Outcomes {

  datatype Fault =
    | TypeError       // a property read on `undefined`, e.g. `rows[r].length` for a missing row
    | ReferenceError  // a read of an undeclared variable

  datatype Result<T> = Ok(value: T) | Err(fault: Fault)
}
