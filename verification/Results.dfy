/** Optional values, fallible results, and one error constructor for each place where the
    compiler throws.  The message texts are not modelled. */
module Results {

  datatype Option<+T> = None | Some(value: T)

  datatype Result<+T> = Ok(value: T) | Err(error: Error) {
    predicate IsFailure() {
      Err?
    }

    function PropagateFailure<U>(): Result<U>
      requires Err?
    {
      Err(error)
    }

    function Extract(): T
      requires Ok?
    {
      value
    }
  }

  datatype Error =
    // lexer
    | UnterminatedString
    | UnknownSymbol
    // parser
    | UnexpectedToken
    | UnexpectedPrimary
    | UnexpectedStatement
    | UnknownTypeName
    // type checker
    | Redeclaration
    | UndefinedVariable
    | UndefinedFunction
    | LiteralOutOfRange
    | LiteralMismatch
    | TypeMismatch
    | IncompatibleOperands
    | NoLiteralDefault
    | JumpOutsideLoop
    | EmptyScopeStack // not thrown: the original pops an empty vector here
    // code generation
    | DuplicateVariable
    | MissingAnnotation
    | NoLlvmType
    | NoOperations
    | UnsupportedOperation
    | NotAnIntegerLiteral
    | UnknownValue
    | UnknownFunction
    | JumpWithoutLoop
    | BrokenModule // the LLVM verifier's complaint
}
