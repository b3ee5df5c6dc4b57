/** The HTTP error responses the handlers raise (`HTTPException`), plus the
    500 the framework answers when a database error escapes a handler. */
module Http {

  datatype Status = BadRequest | Unauthorized | Forbidden | NotFound | InternalServerError

  datatype ApiError = ApiError(status: Status, detail: string)

  /** What the client sees when an unhandled database error reaches the framework. */
  const ServerError := ApiError(InternalServerError, "Internal Server Error")
}
