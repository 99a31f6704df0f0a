/** Diagnostics and exception kinds of the calculator (ErrorParts/Errors.py). */
module Errors {

  datatype Option<+T> = None | Some(value: T)

  /** The `error_type` strings a BaseCalcError carries, one constructor per string. */
  datatype ErrorKind =
    // recorded by the tokenizer
    | EmptyInputError | InvalidCharError | InvalidCharsError | NumberError
    // recorded by the converter
    | MissingOpenParenError | MissingCloseParenError | InvalidBeforeOpenParenError
    | InvalidAfterCloseParenError | InvalidEmptyParenError | MissingOperandsError
    | MissingOperandError | InvalidUnaryUsageError
    // recorded by the evaluator
    | ZeroDivError | ZeroPowError | PowOverflowError | InvalidFactorialError
    | LargeNumberError | InvalidHashError | SmallNumberError | SafeGuardError

  /** The stage that records each kind. */
  predicate IsLexical(k: ErrorKind) {
    k.EmptyInputError? || k.InvalidCharError? || k.InvalidCharsError? || k.NumberError?
  }

  /** Position used for a diagnostic whose message names no position. */
  const NoPos: int := -1

  /**
   * A recorded error: its kind and the first character position its message
   * prints (NoPos when the message prints none).
   */
  datatype Diagnostic = Diagnostic(kind: ErrorKind, pos: int)

  /** The exceptions an operator body can raise (Python exception classes). */
  datatype Fault =
    | ZeroDivision      // ZeroDivisionError
    | InvalidPower      // InvalidPowerError
    | PowerOverflow     // PowerOverflowError
    | InvalidFactorial  // InvalidFactorialError
    | LargeNumber       // LargeNumberError
    | SmallNumber       // SmallNumberError
    | InvalidHash       // InvalidHashError
    | OtherException    // any other exception (e.g. an AttributeError)

  /** The outcome of an operator body: a value, or the exception it raises. */
  datatype Result<+T> = Ok(value: T) | Raise(fault: Fault)
}
