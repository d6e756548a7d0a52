/** The JSON replies of the server's handlers and guards, with their HTTP status. */
module Responses {
  import opened Wrappers
  import opened Pagination

  /**
   * The members of `ERROR_CODES` the handlers use. The module that defines
   * their string values is not part of this model, so each is an opaque tag.
   */
  datatype ErrorCode =
    | InvalidInput
    | InternalError
    | EmailAlreadyExists
    | InvalidCredentials
    | RefreshTokenRequired
    | InvalidRefreshToken
    | UserNotFound
    | InvalidResetToken
    | CannotDeleteOwnAccount

  /** A user as a handler returns it; each handler selects its own timestamp columns. */
  datatype UserView = UserView(
    id: string, email: string, name: string, role: string,
    createdAt: Option<int>, updatedAt: Option<int>)

  datatype Body =
    | Failure(error: string, code: Option<ErrorCode>)          // `{ error, code? }` (zod `details` not modelled)
    | Denied(error: string, message: string)                   // the 403 of the role guard
    | Session(user: UserView, accessToken: string, refreshToken: string)
    | TokenPair(accessToken: string, refreshToken: string)
    | Message(message: string)
    | UserBody(user: UserView)
    | UserPage(page: PaginatedResult<UserView>)

  datatype Reply = Reply(status: int, body: Body)

  /** The catch-all reply of the handlers that report an error code. */
  const ServerError := Reply(500, Failure("Internal server error", Some(InternalError)))
  /** The catch-all reply of logout and refresh, which carries no code. */
  const BareServerError := Reply(500, Failure("Internal server error", None))
  /** The reply to a body that fails its zod schema. */
  const InvalidInputReply := Reply(400, Failure("Invalid input", Some(InvalidInput)))
  const EmailTakenReply := Reply(400, Failure("Email already registered", Some(EmailAlreadyExists)))
  const UserNotFoundReply := Reply(404, Failure("User not found", Some(UserNotFound)))
}
