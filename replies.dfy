/** What a handler sends back: a token with the user record, or a failure with its status and message. */
module Replies {

  import opened Wrappers
  import Users

  datatype Failure =
    | EmailTaken
    | IncorrectEmail
    | IncorrectPassword
    | MissingToken
    | TokenExpired
    | UserNoLongerExists
    | UserNotFound
      /** `jwt.decode` threw; the server has no handler for it. */
    | InvalidToken
      /** A library threw some other error the server does not handle. */
    | Uncaught(message: string)

  /**
   * The body's `message`: a sentence, or for the two login failures an
   * object naming the field at fault (`{ email: ... }`, `{ password: ... }`).
   */
  datatype Body = Plain(text: string) | Scoped(field: string, text: string)

  /** The message the server sends; none for the exceptions it does not catch. */
  function Message(f: Failure): (b: Option<Body>)
    ensures b.None? <==> f.InvalidToken? || f.Uncaught?
    ensures b.Some? && b.value.Scoped? <==> f == IncorrectEmail || f == IncorrectPassword
  {
    match f
    case EmailTaken => Some(Plain("Email is already taken"))
    case IncorrectEmail => Some(Scoped("email", "Incorrect email"))
    case IncorrectPassword => Some(Scoped("password", "Incorrect password"))
    case MissingToken => Some(Plain("You did not provide a JSON Web Token in the Authorization header."))
    case TokenExpired => Some(Plain("Token has expired"))
    case UserNoLongerExists => Some(Plain("User no longer exists."))
    case UserNotFound => Some(Plain("User not found."))
    case InvalidToken => None
    case Uncaught(_) => None
  }

  /**
   * The HTTP status of the reply. An exception the server does not catch
   * gets Express's default 500; every failure of its own is a 4xx and carries a message.
   */
  function Status(f: Failure): (code: nat)
    ensures code == 500 <==> Message(f).None?
    ensures 400 <= code < 600
  {
    match f
    case EmailTaken => 409
    case IncorrectEmail => 401
    case IncorrectPassword => 401
    case MissingToken => 400
    case TokenExpired => 401
    case UserNoLongerExists => 400
    case UserNotFound => 400
    case InvalidToken => 500
    case Uncaught(_) => 500
  }

  datatype Reply =
    | Authenticated(token: string, user: Users.User)
    | Rejected(failure: Failure)
}
