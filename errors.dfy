/**
 * The outcomes of the simulators' operations. The Python code raises
 * `DeviceError` in its constructors and otherwise lets the interpreter's
 * own exceptions escape; each of those is a `Fault` here.
 */
module Errors {

  datatype Fault =
    | IndexError         // positional access past the end of a list or table
    | KeyError           // dictionary or column lookup of a missing key
    | TypeError          // use of a pandas class placeholder as if it were a table
    | FileNotFoundError  // opening or reading a file that does not exist
    | DeviceError(message: string)

  datatype Result<+T> = Ok(value: T) | Err(fault: Fault)

  datatype Outcome = Pass | Fail(fault: Fault)

  datatype Option<+T> = None | Some(value: T)

  /**
   * A field that holds either data or one of the pandas classes
   * (`pd.DataFrame`, `pd.Series`) the constructors store as placeholders.
   */
  datatype Slot<+T> = Placeholder | Value(value: T)
}
