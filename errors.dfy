/**
  * What a service or middleware throws, as a tagged value: the domain
  * errors of the service layer, errors raised with `ctx.throw`, errors of
  * the object-relational mapper that are passed on unchanged, and the
  * JavaScript runtime errors that a missing value causes.
  */
module Errors {

  datatype Option<+T> = None | Some(value: T) {
    /** The value, or `default` when there is none (an omitted field keeps its old value). */
    function GetOr(default: T): T {
      if Some? then value else default
    }
  }

  /** The kinds of `ServiceError` the services raise. */
  datatype Kind = Unauthorized | Forbidden | ValidationFailed | NotFound | Conflict

  /** An error of the database layer: its `code` (empty when it has none) and its `message`. */
  datatype DbError = DbError(code: string, message: string)

  datatype Error =
    | Service(kind: Kind, message: string)
    | Http(status: int, code: string, message: string)
    | Db(db: DbError)
    | TypeError(message: string)

  /** A value, or the error the source would throw instead. */
  datatype Result<+T> = Ok(value: T) | Err(error: Error) {
    predicate IsFailure() {
      Err?
    }

    function PropagateFailure<U>(): Result<U>
      requires Err?
    {
      Err(error)
    }

    function Extract(): T
      requires Ok?
    {
      value
    }
  }

  /** The result of a check that returns nothing or throws. */
  datatype Outcome = Pass | Fail(error: Error) {
    predicate IsFailure() {
      Fail?
    }

    function PropagateFailure<U>(): Result<U>
      requires Fail?
    {
      Err(error)
    }
  }
}
