/** Option and Result types shared by the whole model, and the reasons a
    conversion of a capture file aborts. */
module Outcomes {

  /** An optional value: what the script's "not found", "cannot parse" and
      "nothing matched" cases leave behind. */
  datatype Option<+T> = None | Some(value: T)

  /** Every way the script can stop before writing its output file. */
  datatype Error =
    | BadTimestamp    // the record's first line is not a YYYYMMDD-HHMMSS timestamp
    | MissingHeader   // the record has no second (CPU header) line
    | TooManyGroups   // Python 2.7's regex compiler refuses a pattern of more than 99 groups of its own
    | NoInterrupts    // no IRQ line matched after a baseline, so zip is handed False
    | EmptyField      // int('') on a CSV row that carries no counts
    | TimeNotInteger  // int() on the exponent form '%g' writes from 10^6 seconds on, in magnitude
    | TooManyFields   // a later CSV row is wider than the first one

  datatype Result<+T> = Ok(value: T) | Err(error: Error) {

    predicate IsFailure() {
      Err?
    }

    function PropagateFailure<U>(): Result<U>
      requires Err?
    {
      Err(error)
    }

    function Extract(): T
      requires Ok?
    {
      value
    }
  }
}
