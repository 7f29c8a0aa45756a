/** Values shared by the authentication controller and the bearer-header guard. */
module AuthTypes {

  datatype Option<+T> = None | Some(value: T)

  /** Identity of a user document. The database assigns it on creation. */
  type UserId = nat

  /** What `generateTokens` returns: an access token and a refresh token. */
  datatype TokenPair = TokenPair(token: string, refreshToken: string)

  /** A user document: the credentials and the whitelist of refresh tokens still valid. */
  datatype User = User(username: string, email: string, passwordHash: string, refreshTokens: seq<string>)

  /** The JSON body of a response: either a token pair or a `{ message }` object. */
  datatype Body = Issued(tokens: TokenPair) | Message(text: string)

  /** An HTTP response: status code and body. */
  datatype Reply = Reply(status: int, body: Body)

  /** JavaScript truthiness of a request-body field that is a string or missing:
      `undefined` and `""` are falsy, every other string is truthy. */
  predicate Truthy(field: Option<string>)
  {
    field.Some? && field.value != ""
  }
}
