/** The error responses the route handlers send, with their HTTP status codes. */
module Http {

  /** Why a request was refused; each reason carries its own response message. */
  datatype Reason =
    | MissingFields        // a required field of a register or create body is falsy
    | PasswordTooShort     // register with a password of fewer than 6 characters
    | EmailInUse           // register with an email that is already registered
    | MissingCredentials   // login without email or password
    | InvalidCredentials   // login with an unknown email or a wrong password
    | MissingTravelId      // add favorite without a travelId
    | AlreadyFavorite      // add favorite for a pair that is already stored

  /** An error response, by its HTTP status. */
  datatype ApiError =
    | BadRequest(reason: Reason)    // 400
    | Unauthorized(reason: Reason)  // 401
    | NotFound                      // 404
    | ServerError                   // 500: a store call threw (a schema validation error, say) and the catch block answered
}
