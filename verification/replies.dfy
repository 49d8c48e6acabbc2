/**
 * The JSON responses of the auth service: status code, the user and session
 * views, and the `{error, details}` envelope.
 */
module Replies {
  import opened Wrappers
  import opened Store
  import Fields

  /** The user object put in a response. `passwordHash` is `Some` only where
      the route copies the hash into the object (`/register`). */
  datatype UserView = UserView(
    id: UserId, email: string, name: string, passwordHash: Option<string>,
    software: string, hardware: string, learningGoal: Option<string>,
    createdAt: int, updatedAt: int, isActive: ActiveFlag)

  /** The JSON value of `is_active`: `/register` writes the literal `true`,
      while the routes that read a row echo the INTEGER column, a number. */
  datatype ActiveFlag = JsonBool(b: bool) | JsonNumber(n: int)

  /** `{token, expires_at}`; the ISO-8601 rendering of the instant is not modelled. */
  datatype SessionView = SessionView(token: Token, expiresAt: int)

  datatype Body =
    | UserAndSession(user: UserView, session: SessionView)
    | UserOnly(user: UserView)
    | LoggedOut                      // {success: true}

  datatype Reply =
    | Success(body: Body)            // 200
    | Failure(status: int, error: string, details: seq<Fields.Issue>)

  function Status(r: Reply): int {
    if r.Success? then 200 else r.status
  }

  /** The view `/login`, `/me` and `/profile` build from a stored row: every
      column except `password_hash`, with `is_active` as the number stored. */
  function PublicView(u: User): (v: UserView)
    ensures v.passwordHash.None?
    ensures v.id == u.id && v.email == u.email && v.name == u.name
    ensures v.software == u.software && v.hardware == u.hardware && v.learningGoal == u.learningGoal
    ensures v.createdAt == u.createdAt && v.updatedAt == u.updatedAt
    ensures v.isActive == JsonNumber(u.isActive)
  {
    UserView(u.id, u.email, u.name, None, u.software, u.hardware, u.learningGoal,
      u.createdAt, u.updatedAt, JsonNumber(u.isActive))
  }

  function Error(status: int, message: string): Reply {
    Failure(status, message, [])
  }
}
