/** Failure-carrying wrappers shared by the whole model, and the Python
    exceptions the modelled code raises or lets escape. */
module Base {

  datatype Option<T> = None | Some(value: T)

  /** The exceptions that end a compilation. Each stands for the Python
      exception of the same name; `EvalError` is any exception other than
      `NameError` escaping the `eval` of a branch condition. `Unmodelled`
      is not a Python exception: it marks a state the model does not
      follow, namely `remove_block` of a block with an edge to itself, and
      `bypass_conds` choosing a Branch arm that still holds `None`. */
  datatype PyError =
    | AssertionError
    | NotImplementedError
    | IndexError
    | AttributeError
    | KeyError
    | RecursionError
    | EvalError
    | Unmodelled

  /** A value, or the exception raised while computing it. */
  datatype Result<T> = Ok(value: T) | Err(error: PyError) {
    predicate IsFailure() { Err? }

    function PropagateFailure<U>(): Result<U>
      requires Err?
    {
      Err(error)
    }

    function Extract(): T
      requires Ok?
    {
      value
    }
  }

  /** The outcome of an operation that returns nothing but may raise. */
  datatype Outcome = Done | Fail(error: PyError) {
    predicate IsFailure() { Fail? }

    function PropagateFailure(): Outcome
      requires Fail?
    {
      this
    }
  }
}
