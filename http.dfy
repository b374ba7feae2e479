/** The responses the handlers send: a status code, a JSON body and, for signup and login, the refresh cookie. */
module Http {
  import opened Options
  import opened Store

  datatype Body =
    | Message(text: string)
    | AccessToken(token: string)
    | UserList(users: set<PublicUser>)

  datatype Response = Response(status: nat, body: Body, refreshCookie: Option<string>)

  const UserExists: string := "User already exists"
  const InvalidCredentials: string := "Invalid credentials"
  const NoTokenProvided: string := "No token provided"
  const InvalidToken: string := "Invalid token"
  const NoRefreshToken: string := "No refresh token provided"
  const InvalidRefreshToken: string := "Invalid refresh token"
  const UserNotFound: string := "User not found"

  /** `res.status(status).json({ message: text })`. */
  function Reply(status: nat, text: string): (r: Response) {
    Response(status, Message(text), None)
  }

  const ServerError: Response := Reply(500, "Server error")
}
