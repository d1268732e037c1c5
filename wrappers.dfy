/** Option and Result, and the Python exceptions the pipeline raises or absorbs. */
module Wrappers {

  datatype Option<+T> = None | Some(value: T)

  datatype Result<+T, +E> = Ok(value: T) | Err(error: E)

  /** The kinds of exception the modelled code can raise. */
  datatype Exception =
    | KeyError(key: string)      // a missing column or mapping key
    | IndexError                 // a list index out of range
    | TypeError                  // a missing required argument, or a value of the wrong kind
    | AttributeError             // an element without `to_dict`
    | StopIteration              // `next(...)` over an empty generator
    | AssertionError             // a failed `assert`
    | ValueError                 // a value that cannot be converted
    | ReadError(path: string)    // the file reader failed on `path`
}
