/** Python's exceptions and the special comparison result `NotImplemented`,
    as failure-compatible datatypes shared by every module of the model. */
module Outcomes {

  /** The exceptions the modelled code raises or lets escape. A
      `ValidationError` carries the framework's error code ("" when the
      source gives none) and the message text when the source builds one;
      `PlainException` is a bare `Exception`. */
  datatype Error =
    | AttributeError
    | KeyError
    | TypeError
    | ValueError
    | ZeroDivisionError
    | InvalidOperation
    | PlainException
    | ValidationError(code: string, message: string)

  datatype Option<T> = None | Some(value: T)

  datatype Result<T> = Ok(value: T) | Err(error: Error) {
    predicate IsFailure() { Err? }

    function PropagateFailure<U>(): Result<U>
      requires Err?
    {
      Err(error)
    }

    function Extract(): T
      requires Ok?
    {
      value
    }
  }

  /** What a rich comparison method returns: a truth value, or the
      `NotImplemented` singleton that makes Python try the reflected method. */
  datatype Cmp = Answer(b: bool) | NotImplemented
}
