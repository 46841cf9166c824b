/** Identifiers, optional values and the user record shared by the back end and the chat page. */
module Common {

  /** Database identifiers (MongoDB ObjectIds) are abstract: only equality matters. */
  type UserId = nat
  type MessageId = nat
  /** Socket.IO connection identifiers. */
  type SocketId = nat

  datatype Option<+T> = None | Some(value: T)

  datatype Result<+T, +E> = Ok(value: T) | Err(error: E)

  /** A JavaScript value that may be absent (`undefined`/`null`) or a string. */
  type JsString = Option<string>

  /** JavaScript truthiness of an optional string: present and not "". */
  predicate Truthy(s: JsString) {
    s.Some? && s.value != ""
  }

  /** A row of the user collection (the User model itself is not part of this model). */
  datatype User = User(id: UserId, username: string, email: string, password: string)

  /** The payload of a signed token: `{sub: user id, username}`. */
  datatype Claims = Claims(sub: UserId, username: string)

  /** An error carrying an HTTP status, as thrown by the controllers (`err.status = ...`). */
  datatype HttpError = HttpError(status: int, message: string)
}
