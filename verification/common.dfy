/** Shared value types: optional values, results with an error payload,
    the loosely typed values of a JSON body, and instants in time. */
module Common {

  /** A value that may be absent; Python's `None` is `None` here. */
  datatype Option<+T> = None | Some(value: T) {
    function GetOr(default: T): T {
      match this
      case Some(v) => v
      case None => default
    }
  }

  /** The outcome of a step that may raise: `Err` carries what was raised. */
  datatype Result<+T, +E> = Ok(value: T) | Err(error: E)

  /** A JSON-like value as stored in metadata maps and response bodies.
      Identifiers (UUIDs in the system) are abstract naturals. */
  datatype Value = Str(s: string) | Bool(b: bool) | Ref(id: nat) | Null

  /** Instants are whole seconds since an arbitrary epoch. */
  type Instant = int

  const DAY: int := 86400
  const WEEK: int := 7 * DAY

  /** HTTP status codes the views choose between. */
  const HTTP_200: int := 200
  const HTTP_201: int := 201
  const HTTP_400: int := 400
  const HTTP_403: int := 403
  const HTTP_404: int := 404
  const HTTP_409: int := 409
  const HTTP_500: int := 500
}
