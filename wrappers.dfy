/** Option and Result, the two failure-carrying shapes the model uses in place of
    JavaScript's `undefined` and of thrown exceptions. */
module Wrappers {

  datatype Option<+T> = None | Some(value: T) {

    /** The wrapped value, or `default` when there is none. */
    function GetOr(default: T): T {
      match this
      case Some(v) => v
      case None => default
    }
  }

  datatype Result<+T, +E> = Ok(value: T) | Err(error: E)
}

/** What a JavaScript `throw` carries in this program: either an `Error` object,
    whose `message` the callers read, or any other value, which they only turn
    into text with `String(value)` (that text is kept here). */
module Errors {

  datatype Thrown = ErrorObject(message: string) | OtherValue(asString: string)

  /** `error instanceof Error ? error.message : String(error)`, the text every
      catch block of the tools derives from a thrown value. */
  function Describe(e: Thrown): (r: string)
    ensures e.ErrorObject? ==> r == e.message
    ensures e.OtherValue? ==> r == e.asString
  {
    match e
    case ErrorObject(m) => m
    case OtherValue(s) => s
  }
}
