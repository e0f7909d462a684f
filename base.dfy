/** Values shared by every part of the model: optional values, results, the
    errors that reach Express's error boundary, and JavaScript's notions of
    truthiness and integer truncation. */
module Base {

  datatype Option<+T> = None | Some(value: T)

  datatype Result<+T, +E> = Ok(value: T) | Err(error: E)

  /** What a handler passes to `next(err)`, directly or through `catchAsync`. */
  datatype Failure =
    | AppError(message: string, statusCode: nat)   // `new AppError(message, statusCode)`
    | TokenRejected(expired: bool)                 // `jwt.verify` threw (bad signature or expired)
    | ValidationFailed(paths: seq<string>)         // Mongoose `ValidationError` raised by `save()`
    | DuplicateKey(path: string)                   // unique index violated on insert
    | Crashed(reason: string)                      // any other exception forwarded by `catchAsync`

  /** The HTTP status the error boundary answers with. Operational errors carry
      their own; a rejected token is the 401 path; the rest are what the global
      error handler makes of Mongoose errors and of unexpected exceptions. */
  function StatusOf(f: Failure): nat
  {
    match f
    case AppError(_, c) => c
    case TokenRejected(_) => 401
    case ValidationFailed(_) => 400
    case DuplicateKey(_) => 400
    case Crashed(_) => 500
  }

  /** JavaScript truthiness of a possibly undefined string: `undefined` and `""` are falsy. */
  predicate Truthy(s: Option<string>)
  {
    s.Some? && s.value != ""
  }

  /** Whole seconds in a millisecond count, truncated toward zero as
      `parseInt(ms / 1000)` does (Dafny's own `/` floors). */
  function SecondsOf(ms: int): (s: int)
    ensures 0 <= ms ==> 0 <= s && s * 1000 <= ms < s * 1000 + 1000
    ensures ms < 0 ==> s <= 0 && s * 1000 - 1000 < ms <= s * 1000
  {
    if ms >= 0 then ms / 1000 else -((-ms) / 1000)
  }
}
