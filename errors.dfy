/** The exceptions the feature extractor raises, and a result type that carries them. */
module Errors {

  /** Each constructor names what went wrong; the comment names the Python exception. */
  datatype Error =
    | EndOfInput                             // IndexError: the character list ran out
    | UnknownTerm(got: char)                 // KeyError: a term starts with a letter other than I, S, R, D, B
    | Unexpected(expected: char, got: char)  // SyntaxError raised by ensure_follows
    | NotADigit(got: char)                   // ValueError: int() of a character that is not a digit
    | ZeroDivision                           // ZeroDivisionError: a formula divides by zero
    | NoSuchBand(index: int)                 // IndexError: the band index is outside the vector

  /** Either a value or the error that was raised; usable with `:-`. */
  datatype Result<+T> = Ok(value: T) | Err(error: Error) {
    predicate IsFailure() { Err? }
    function PropagateFailure<U>(): Result<U> requires Err? { Err(error) }
    function Extract(): T requires Ok? { value }
  }
}
