/** Option and Result, the failure-compatible wrappers the rest of the model uses. */
module Wrappers {

  datatype Option<+T> = None | Some(value: T)

  /** A computation that either produced a value or raised an error. */
  datatype Result<+T, +E> = Ok(value: T) | Err(error: E) {

    predicate IsFailure() {
      Err?
    }

    function PropagateFailure<U>(): Result<U, E>
      requires Err?
    {
      Err(error)
    }

    function Extract(): T
      requires Ok?
    {
      value
    }
  }
}

/** The Python exceptions that can escape the pipeline; the code catches none of them. */
module Exceptions {

  datatype Error =
    | KeyError(key: string)          // a dictionary lookup of an absent key
    | IndexError                     // a list or string index out of range
    | TypeError                      // an operation applied to a value of the wrong kind
    | ValueError                     // an out-of-range date, or a NUL character in a file name
    | OverflowError                  // a date argument that does not fit a C int
    | OpenFailed(path: string)       // open() on a path whose directory does not exist
    | RequestFailed(url: string)     // requests.get raised (connection error, timeout, ...)
    | JsonDecodeError                // response.json() on a body that is not JSON
    | DecodeFailed(path: string)     // pydub could not decode the download or export the WAV file
    | ClassifierFailed(path: string) // the BirdNET analysis raised
}
