/** Vocabulary shared by the whole model: optional values, the error responses of
    the backend, document ids and clock units. */
module Common {

  datatype Option<T> = None | Some(value: T)

  /** A parameter with a default, as in `const { page = 1 } = req.query`: the
      default replaces only an absent value. */
  function Or<T>(o: Option<T>, default: T): (r: T)
    ensures o.Some? ==> r == o.value
    ensures o.None? ==> r == default
  {
    if o.Some? then o.value else default
  }

  /** The error responses the controllers hand to the error handler. The first four
      are the `ErrorResponse`s with their HTTP status; `ServerError` stands for an
      exception (a driver error, a null dereference) passed on with `next(error)`. */
  datatype Failure =
    | BadRequest(message: string)    // 400
    | Unauthorized(message: string)  // 401
    | Forbidden(message: string)     // 403
    | NotFound(message: string)      // 404
    | ServerError(message: string)

  datatype Result<T> = Ok(value: T) | Err(failure: Failure)

  /** The verdict of a middleware guard: call `next()`, or `next(error)`. */
  datatype Outcome = Pass | Fail(failure: Failure)

  /** Document ids (MongoDB ObjectIds), compared by value. */
  type Id = nat

  /** Clock readings are milliseconds, as `Date.now()` returns them. */
  const MinuteMs: int := 60 * 1000
  const DayMs: int := 24 * 60 * MinuteMs

  /** JavaScript truthiness of an optional string field: present and non-empty. */
  predicate Truthy(s: Option<string>) {
    s.Some? && s.value != ""
  }
}
