/** The outcome of a backend request handler: a response value or an `HTTPException`. */
module Http {

  /** `HTTPException(status_code, detail)` as FastAPI sends it back. */
  datatype HttpError = HttpError(status: nat, detail: string)

  datatype Result<+T> = Ok(value: T) | Err(error: HttpError)

  /** What FastAPI answers when a handler raises an exception it does not catch. */
  const InternalServerError := HttpError(500, "Internal Server Error")
}
