/**
 * Failure values shared by every component.
 *
 * The C++ program signals failures by throwing std::runtime_error with a
 * message; here every such throw becomes an `Error` value carried by
 * `Result` (for operations that produce something) or `Outcome` (for
 * operations that only change state). `Message` gives the text that the
 * C++ code puts into the exception.
 */
module Errors {

  datatype Option<+T> = None | Some(value: T)

  datatype Error =
    | NoScopeToAdd                  // SymbolTable::addSymbol on an empty stack
    | Redeclaration(name: string)   // SymbolTable::addSymbol, name already in innermost frame
    | AssignUndeclared(name: string) // SymbolTable::updateSymbol, name in no frame
    | Undeclared(name: string)      // SymbolTable::getValue, name in no frame
    | NoScopeToRemove               // SymbolTable::removeScope on an empty stack
    | UnexpectedToken(text: string) // Parser::parseArgument
    | UndefinedBehaviour(what: string) // C++ undefined behaviour (int overflow, % by zero)
    | OutOfFuel                     // the model's bound on loop iterations was reached
  {
    /** The text of the exception thrown by the C++ code. */
    function Message(): string {
      match this
      case NoScopeToAdd => "No scope available to add symbol"
      case Redeclaration(n) => "Redeclaration in same scope of '" + n + "'"
      case AssignUndeclared(n) => "Assignment of undeclared variable '" + n + "'"
      case Undeclared(n) => "'" + n + "' is undeclared"
      case NoScopeToRemove => "Internal exception: No scope to remove"
      case UnexpectedToken(t) => "Unexpected token: " + t
      case UndefinedBehaviour(w) => "undefined behaviour: " + w
      case OutOfFuel => "iteration bound reached"
    }
  }

  /** The result of an operation that may throw. */
  datatype Result<+T> = Ok(value: T) | Err(error: Error) {
    predicate IsFailure() {
      Err?
    }

    function PropagateFailure<U>(): Result<U>
      requires Err?
    {
      Err(error)
    }

    function Extract(): T
      requires Ok?
    {
      value
    }
  }

  /** The result of a state-changing operation that may throw. */
  datatype Outcome = Pass | Fail(error: Error) {
    predicate IsFailure() {
      Fail?
    }

    function PropagateFailure<U>(): Result<U>
      requires Fail?
    {
      Err(error)
    }
  }
}
