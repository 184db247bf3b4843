/** Option and Result values shared by the adapters and the writer, and the
    error kinds a row or a write can end in. */
module Outcomes {

  datatype Option<+T> = None | Some(value: T)

  /** The error kinds of the converter. Every error is scoped: a row error
      belongs to one input row, a write error to one write call. */
  datatype Error =
    | MissingFields(found: nat, expected: nat)  // the row has fewer columns than the intermediate row has fields
    | BadDate(column: string)                   // a date column does not parse; the column its message names
    | BadAmount                                 // a money column does not parse
    | WriteFailed                               // the output stream refused the serialized line

  datatype Result<+T> = Ok(value: T) | Err(error: Error)

  /** The result of an operation that yields no value. */
  datatype Outcome = Pass | Fail(error: Error)
}
