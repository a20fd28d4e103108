/** Failure-compatible result types shared by every module of the model. */
module Wrappers {

  datatype Option<+T> = None | Some(value: T) {
    predicate IsFailure() { None? }

    function PropagateFailure<U>(): Option<U>
      requires None?
    {
      None
    }

    function Extract(): T
      requires Some?
    {
      value
    }

    function GetOr(default: T): T {
      match this
      case Some(v) => v
      case None => default
    }
  }

  datatype Result<+T, +E> = Ok(value: T) | Err(error: E) {
    predicate IsFailure() { Err? }

    function PropagateFailure<U>(): Result<U, E>
      requires Err?
    {
      Err(error)
    }

    function Extract(): T
      requires Ok?
    {
      value
    }
  }
}

/** The HTTP-level failure every handler reports: a status code and a message. */
module Api {
  import opened Wrappers

  datatype ApiError = ApiError(status: nat, message: string)

  type Outcome<T> = Result<T, ApiError>

  const BadRequest: nat := 400
  const Unauthorized: nat := 401
  const Forbidden: nat := 403
  const NotFound: nat := 404
  const Conflict: nat := 409
  const Gone: nat := 410
  const ServerError: nat := 500

  function Fail<T>(status: nat, message: string): Outcome<T> {
    Err(ApiError(status, message))
  }

  /** The status code of a failed outcome, or 200 for a success. */
  function StatusOf<T>(o: Outcome<T>): nat {
    if o.Ok? then 200 else o.error.status
  }
}
