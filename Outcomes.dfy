/** Failures raised by the core: the exceptions thrown by the .NET dictionary
    and by the lane-name mappings, as values. */
module Outcomes {

  datatype Error =
    | KeyNotFound                        // Dictionary indexer on a missing key
    | DuplicateKey                       // Dictionary.Add on a key already present
    | ArgumentOutOfRange(value: bv32)    // a switch over the flags enum fell through
    | NoNoteTypeForString(input: string) // a lane name that is not accepted

  datatype Result<+T> = Success(value: T) | Failure(error: Error)

  datatype Outcome = Pass | Fail(error: Error)
}
