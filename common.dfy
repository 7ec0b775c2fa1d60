/** Values shared by every module of the model. */
module Common {

  /** A field that may be missing: `None` stands for JavaScript's `undefined` (or `null`). */
  datatype Option<+T> = None | Some(value: T) {

    /** The value, or `default` when it is missing (the `??` operator). */
    function GetOr(default: T): T {
      match this
      case Some(v) => v
      case None => default
    }
  }

  /** The outcome of building a document: the document, or what made validation fail. */
  datatype Result<+T, +E> = Ok(value: T) | Err(error: E)

  /** A point in time. Dates are opaque here: they are only stored and compared. */
  type Timestamp = nat
}
