/**
 * The errors that cross the API boundary: Encore's `APIError` with its
 * code, and a plain JavaScript `Error` (a failed `fetch`, a `TypeError`)
 * that carries no code.
 */
module ApiErrors {

  datatype ErrCode = InvalidArgument | Unauthenticated | AlreadyExists | Internal

  datatype Thrown =
    | ApiError(code: ErrCode, message: string)
    | PlainError(message: string)

  /** `error?.message || fallback`, as every form handler writes it. */
  function MessageOr(e: Thrown, fallback: string): (m: string)
    ensures e.message != "" ==> m == e.message
    ensures e.message == "" ==> m == fallback
    ensures fallback != "" ==> m != ""
  {
    if e.message != "" then e.message else fallback
  }
}
