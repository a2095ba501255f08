/** Outcome types shared by every part of the interpreter. */
module Base {

  datatype Option<T> = None | Some(value: T)

  /** Why an evaluation (or a parse) stopped without a value.
      The Python code raises several exception types; they are collapsed here. */
  datatype Error =
    | Unbound(name: string)  // eval_variable found no frame binding the name
    | Fault                  // any other exception: IndexError, KeyError, TypeError, ZeroDivisionError, ...
    | Unmodelled             // behaviour outside the model: floats, sequence repetition, object identity of numbers
    | OutOfFuel              // the evaluation loop ran longer than the fuel allows (it may not terminate)

  datatype Result<T> = Ok(value: T) | Err(error: Error)
}
