/** A user as the server returns it (`id`, `email`, `name` of the `users`
    table) and the answer of a successful registration or login. */
module Accounts {
  import opened Wrappers

  /** A `users.id`: a `SERIAL` key, so never below 1. */
  type UserId = i: int | i >= 1 witness 1

  datatype User = User(id: UserId, email: string, name: Option<string>)

  datatype AuthResponse = AuthResponse(message: string, token: string, user: User)
}
