/** Small wrapper types shared by every module of the model. */
module Common {

  /** Python's `None` next to a present value. */
  datatype Option<+T> = None | Some(value: T) {
    function GetOr(default: T): T {
      match this
      case Some(v) => v
      case None => default
    }
  }

  /** The result of calling an opaque collaborator (the language model, the
      database, the charting library): it either returns or raises. */
  datatype Outcome<+T> = Returned(value: T) | Raised(message: string)

  /** A computation of the model that can fail with a Python exception. */
  datatype Result<+T> = Ok(value: T) | Err(error: string)

  /** Concatenation regroups freely. */
  lemma ConcatAssoc<T>(a: seq<T>, b: seq<T>, c: seq<T>)
    ensures a + b + c == a + (b + c)
  {
  }
}
