/**
 * Optional values and results shared by every module of the model.
 * A Python `None` becomes `None`; a raised exception becomes `Err`.
 */
module Base {

  datatype Option<+T> = None | Some(value: T) {
    function GetOr(default: T): T {
      match this
      case Some(v) => v
      case None => default
    }
  }

  /** The exceptions the configuration engine can end with. */
  datatype Failure =
    | EmptyToken            // IndexError: a dash-token is empty after stripping (current revision)
    | DuplicateName         // two slide descriptors carry the same name
    | BasedOnUnresolved     // a resolution round created no slide
    | MissingKey(section: string, key: string)  // a required configuration key is absent
    | NoFilename            // the filename template could not be expanded (flat revision)

  datatype Result<+T> = Ok(value: T) | Err(error: Failure) {
    predicate IsFailure() {
      Err?
    }

    function PropagateFailure<U>(): Result<U>
      requires Err?
    {
      Err(error)
    }

    function Extract(): T
      requires Ok?
    {
      value
    }
  }
}
