/** Shared vocabulary of the backend: the HTTP error kinds its controllers raise
    through `http-errors`, an Option for JavaScript's "missing" values, and a
    Result for an outcome that is either a value or one of those errors. */
module Outcomes {

  /** The error kinds a controller hands to `next`, each with its message. */
  datatype HttpError =
    | BadRequest(msg: string)
    | Unauthorized(msg: string)
    | Forbidden(msg: string)
    | NotFound(msg: string)
    | Conflict(msg: string)
    /** An exception passed on unchanged (a failed gateway call, a database error). */
    | Internal(msg: string)

  datatype Option<+T> = None | Some(value: T)

  datatype Result<+T> = Ok(value: T) | Err(error: HttpError) {
    predicate IsFailure() { Err? }

    function PropagateFailure<U>(): Result<U>
      requires Err?
    {
      Err(error)
    }

    function Extract(): T
      requires Ok?
    {
      value
    }
  }

  /** JavaScript truthiness of an optional string: `undefined`, `null` and `""` are falsy. */
  predicate Truthy(s: Option<string>) {
    s.Some? && s.value != ""
  }

  /** `a || b` over optional strings. */
  function OrElse(a: Option<string>, b: Option<string>): (r: Option<string>)
    ensures Truthy(a) ==> r == a
    ensures !Truthy(a) ==> r == b
  {
    if Truthy(a) then a else b
  }

  predicate IsHexDigit(c: char) {
    '0' <= c <= '9' || 'a' <= c <= 'f' || 'A' <= c <= 'F'
  }

  /** `mongoose.isValidObjectId(id)` for the ids the controllers receive as text:
      24 hexadecimal digits. */
  predicate ValidObjectId(id: string) {
    |id| == 24 && forall i :: 0 <= i < |id| ==> IsHexDigit(id[i])
  }
}
