/**
 * Shared vocabulary of the four route handlers: optional values, the
 * signed-in user as the session resolver hands it over, and the HTTP
 * status codes the handlers answer with.
 */
module Common {

  datatype Option<+T> = None | Some(value: T)

  /** Identifier of a signed-in user, as found in `session.user.id`. */
  type UserId = string

  /**
   * The guard `!session?.user?.id` that opens every handler: a request is
   * authenticated when the session carries a user id that is present and
   * non-empty (an empty string is falsy in JavaScript).
   */
  predicate Authenticated(session: Option<UserId>)
  {
    session.Some? && session.value != ""
  }

  const StatusOk := 200
  const StatusCreated := 201
  /** 207 Multi-Status, section 11.1 of RFC 4918. */
  const StatusMultiStatus := 207
  const StatusBadRequest := 400
  const StatusUnauthorized := 401
  const StatusNotFound := 404
  const StatusServerError := 500

  const UnauthorizedMessage := "Unauthorized"
  const InvalidInputMessage := "Invalid input data"
  const InternalErrorMessage := "Internal server error"
  const CredentialsMissingMessage :=
    "Jira credentials not found. Please set up your Jira credentials first."
}
