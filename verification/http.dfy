/** Values shared by every handler: the custom error carried through the
    layers (an HTTP status code plus a human-readable message), the JSON
    response envelope, the outcome of binding a JSON request body, and the
    claims the authentication middleware places in the request context. */
module Http {

  const StatusOK := 200
  const StatusCreated := 201
  const StatusBadRequest := 400
  const StatusUnauthorized := 401
  const StatusNotFound := 404
  const StatusConflict := 409
  const StatusInternalServerError := 500

  /** An error value that knows its own HTTP status code and message. */
  datatype CustomError = CustomError(code: int, message: string)

  datatype Option<+T> = None | Some(value: T) {
    function GetOr(default: T): T {
      match this
      case Some(v) => v
      case None => default
    }
  }

  datatype Result<+T> = Ok(value: T) | Err(error: CustomError)

  /** A JSON reply: `{message}` or `{message, data}` with its status code. */
  datatype Response<+T> =
    | Message(status: int, message: string)
    | Data(status: int, message: string, data: T)

  /** The reply that forwards an error with its own code and message. */
  function Forward<T>(e: CustomError): Response<T> {
    Message(e.code, e.message)
  }

  /** Outcome of binding a request body: the decoded value, or the binder's
      error text. */
  datatype Bound<+T> = Bound(value: T) | BindError(reason: string)

  /** Claims extracted from a valid access token by the middleware. */
  datatype UserClaims = UserClaims(userId: string, email: string)

  /** The guard every protected linkfy endpoint starts with: claims are
      present and carry a non-empty user id. */
  predicate Authenticated(claims: Option<UserClaims>) {
    claims.Some? && claims.value.userId != ""
  }
}
