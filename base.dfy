/** Shared vocabulary of the interpreter: optional values, the fatal errors
    the C program reports through `error()`, and results that carry either a
    value or one of those errors. */
module Base {

  datatype Option<+T> = None | Some(value: T)

  /** Every condition on which the interpreter calls `error()` and exits.
      `OutOfFuel` stands for exhaustion of the host call stack, which the
      model bounds by a nesting depth. */
  datatype Error =
    | PointerRight            // "Memory pointer out of bounds (right)."
    | PointerLeft             // "Memory pointer out of bounds (left)."
    | UnknownCommand          // "Unknown command."
    | FunctionNotDefined      // "Function not defined."
    | TooManyFunctions        // "Too many functions defined."
    | SudoOverride            // "Cannot override a sudo function without sudo mode."
    | TooManyCommands         // "Too many commands in function."
    | InvalidFunctionDefinition
    | InvalidImport
    | CouldNotOpenFile
    | OutOfFuel

  datatype Result<+T> = Ok(value: T) | Err(error: Error)
}
