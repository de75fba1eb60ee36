/** Option and Result values shared by every part of the parser model.
    The Python parser signals failure by raising; here every such raise is
    an `Err` carrying which kind of failure it was. */
module Outcomes {

  datatype Option<+T> = None | Some(value: T)

  /** Why a row (and with it the whole run) could not be decoded. */
  datatype Error =
    /** `a, b = s.split(" ", 1)` found no space: unpacking one item into two fails. */
    | MalformedRow
    /** `int(token)` or `float(token)` rejected the token. */
    | BadNumber(token: string)
    /** `parser.get(code)` gave `None`, and calling it fails. */
    | UnknownRowCode(code: int)

  datatype Result<+T> = Ok(value: T) | Err(error: Error) {
    predicate IsFailure() {
      Err?
    }

    function PropagateFailure<U>(): Result<U>
      requires Err?
    {
      Err(error)
    }

    function Extract(): T
      requires Ok?
    {
      value
    }
  }
}
