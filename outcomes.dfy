/** Optional values and the Python exceptions the script can raise. None of
    these exceptions is caught anywhere in the script: each one ends the run. */
module Outcomes {

  datatype Option<T> = None | Some(value: T)

  /** The exceptions reachable from the modelled code. */
  datatype Crash =
    | KeyError(key: string)          // `contents[name]` on a missing key
    | IndexError(what: string)       // `[0]` on an empty list, `split(':')[1]` on one piece
    | AttributeError(name: string)   // a missing attribute, or a method the value lacks
    | ValueError(what: string)       // `astimezone` on a naive datetime
    | TypeError(what: string)        // concatenating a non-string
    | UnicodeEncodeError             // `unicode.encode()` with the default ASCII codec

  /** A computation that either yields a value or raises. Supports `:-`. */
  datatype Result<T> = Ok(value: T) | Err(crash: Crash) {
    predicate IsFailure() { Err? }
    function PropagateFailure<U>(): Result<U>
      requires Err?
    {
      Err(crash)
    }
    function Extract(): T
      requires Ok?
    {
      value
    }
  }
}
