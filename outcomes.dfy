/** Values shared by every layer: optional values, results that carry the
    error object a model function rejects with, and query-string numbers. */
module Outcomes {

  datatype Option<+T> = None | Some(value: T)

  /** The error object a promise rejects with. A custom rejection is
      `{status, msg}` and has no `code`; an error raised by the database
      carries a SQLSTATE `code` and neither `status` nor `msg`. The empty
      string and 0 stand for a property that is absent (falsy). */
  datatype AppError = AppError(code: string, status: int, msg: string)

  /** A rejection built by the code itself: `Promise.reject({status, msg})`. */
  function Rejection(status: int, msg: string): (e: AppError)
    ensures e.code == "" && e.status == status && e.msg == msg
  {
    AppError("", status, msg)
  }

  /** An error raised by the database with a SQLSTATE code. */
  function DbError(code: string): (e: AppError)
    ensures e.code == code && e.status == 0 && e.msg == ""
  {
    AppError(code, 0, "")
  }

  const BadRequest: AppError := Rejection(400, "Bad request")

  // SQLSTATE codes (PostgreSQL manual, Appendix A) that the model raises or maps.
  const NotNullViolation: string := "23502"
  const InvalidTextRepresentation: string := "22P02"
  const ForeignKeyViolation: string := "23503"
  const UniqueViolation: string := "23505"
  const InvalidRowCountInLimitClause: string := "2201W"
  const InvalidRowCountInResultOffsetClause: string := "2201X"
  const NumericValueOutOfRange: string := "22003"

  datatype Result<+T> = Success(value: T) | Failure(error: AppError)

  /** A query-string value after JavaScript's `isNaN` test: either it reads
      as an integer, or it is not a number at all. */
  datatype Num = Numeric(n: int) | NotANumber

  /** A parameter with a JavaScript default: `None` is `undefined`, for which
      the default applies. */
  function OrDefault<T>(given: Option<T>, default: T): (r: T)
    ensures given.Some? ==> r == given.value
    ensures given.None? ==> r == default
  {
    match given
    case Some(v) => v
    case None => default
  }
}
