/** Failure-carrying values shared by every component: a nullable reference
    is an Option, a call that can throw is a Result, and the outcome of a JSON
    deserialiser is a JsonRead. */
module Common {

  /** A .NET reference that may be null. */
  datatype Option<+T> = None | Some(value: T) {
    function GetOr(default: T): T {
      match this
      case Some(v) => v
      case None => default
    }
  }

  /** The outcome of a call that either returns a value or throws. */
  datatype Result<+T, +E> = Ok(value: T) | Err(error: E)

  /** What a JSON deserialiser hands back: it throws on malformed text,
      returns null for the literal `null`, and otherwise yields a value. */
  datatype JsonRead<+T> = Malformed | JsonNull | Parsed(value: T)

  /** An HTTP status code counts as success when it lies in 200..299,
      as HttpResponseMessage.IsSuccessStatusCode decides. */
  predicate IsSuccessStatus(status: int) {
    200 <= status <= 299
  }
}
