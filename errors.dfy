/** The failures the sync core lets propagate, and the wrappers that carry them. */
module Errors {

  /** The exceptions of the core that end a sync cycle. */
  datatype Error =
    | FormatError                 // ValueError raised by datetime.fromisoformat
    | MissingField(name: string)  // KeyError raised for a reading without a vital field
    | EmptyDayfile                // IndexError raised by taking [0] of a dayfile with no items

  datatype Result<T> = Ok(value: T) | Err(error: Error)

  datatype Option<T> = None | Some(value: T)
}
