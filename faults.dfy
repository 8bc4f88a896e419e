/** The ways a run of the comparison script stops early that the model
    covers, and the result types that carry them. Each is an uncaught Python
    exception in the script: the run ends there, and whatever was already
    written to the output file stays. */
module Faults {

  datatype Fault =
    | NoInputFiles        // fnames_in[0] on an empty input list (IndexError)
    | MissingField        // a data row too short for s[1] or nums[i] (IndexError)
    | LengthNotInteger    // int(s[1]) on a length field that is not an integer (ValueError)
    | PercentOutOfRange   // the range assertion on a percentage field (AssertionError)
    | ZeroAssemblyLength  // the final division by assembly_len == 0 (ZeroDivisionError)

  datatype Option<+T> = None | Some(value: T)

  datatype Result<+T> = Ok(value: T) | Err(fault: Fault)
}
