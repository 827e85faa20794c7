/** Option and Result types shared by every module, and the kinds of
    exception that the converter can raise. */
module Base {

  datatype Option<+T> = None | Some(value: T) {
    function GetOr(default: T): T {
      if Some? then value else default
    }
  }

  /** The exceptions that escape the converter. Only `ParseError` is raised on
      purpose; the others are Python's own exceptions that reach the caller
      unchanged on some malformed inputs. */
  datatype Error =
    | ParseError     // the script's own ParseError
    | KeyError       // a dict lookup of a missing key
    | IndexError     // a list index past the end
    | ValueError     // an invalid calendar date passed to date()
    | TypeError      // parse_amount(*words) called with an empty word list
    | OverflowError  // a date() argument beyond a C int, or a date plus 40 days beyond 9999-12-31

  /** Either the value of a successful call or the exception it raised. */
  datatype Result<+T> = Ok(value: T) | Err(error: Error) {
    predicate IsFailure() {
      Err?
    }

    function PropagateFailure<U>(): Result<U>
      requires Err?
    {
      Err(error)
    }

    function Extract(): T
      requires Ok?
    {
      value
    }
  }
}
