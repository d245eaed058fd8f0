/** Option and Result, the failure-compatible wrappers used throughout the model. */
module Wrappers {

  datatype Option<+T> = None | Some(value: T) {
    predicate IsFailure() { None? }

    function PropagateFailure<U>(): Option<U>
      requires None?
    {
      None
    }

    function Extract(): T
      requires Some?
    {
      value
    }
  }

  /** A Python exception that ends the current step is a `Failure`. */
  datatype Result<+R, +E> = Success(value: R) | Failure(error: E) {
    predicate IsFailure() { Failure? }

    function PropagateFailure<U>(): Result<U, E>
      requires Failure?
    {
      Failure(error)
    }

    function Extract(): R
      requires Success?
    {
      value
    }
  }
}

/** The Python exceptions that abort the step the model is in. */
module Errors {
  datatype Error =
    | KeyMissing(key: string)              // KeyError from a dict lookup
    | SepKeyUnmatched(key: string)         // IndexError: `re.findall(...)[0]` found no match
    | EmptySeparator(key: string)          // ValueError: `str.split("")`
    | NoMatchingTag(name: string)          // ValueError raised by TagMatcher.get_tag
    | NotAPossibleChoice(tag: string, value: string)  // ValueError raised by is_possible_value
    | UnpackMismatch                       // ValueError: a 2-tuple unpacked into three names
}
