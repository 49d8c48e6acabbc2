/**
 * The two SQLite tables of the Node auth service, `users` and
 * `user_sessions`, as immutable maps, with the UNIQUE constraints as
 * invariants on their keys. Timestamps are integers in milliseconds.
 */
module Store {
  import opened Wrappers

  type UserId = string
  type Token = string

  /** A row of `users`. Backgrounds are stored as the strings written by the
      routes; `learningGoal` is `None` for SQL NULL; `isActive` is the
      INTEGER column, which the routes never write and which defaults to 1. */
  datatype User = User(
    id: UserId, email: string, name: string, passwordHash: string,
    software: string, hardware: string, learningGoal: Option<string>,
    createdAt: int, updatedAt: int, isActive: int)

  /** The default of the `is_active` column. */
  const ActiveByDefault := 1

  /** A row of `user_sessions`; its `token` column is the key of the map. */
  datatype Session = Session(id: string, userId: UserId, expiresAt: int, createdAt: int, lastAccessedAt: int)

  /** `users` keyed by its primary key, the UNIQUE index on `email`, and
      `user_sessions` keyed by its UNIQUE `token`. */
  datatype State = State(users: map<UserId, User>, emails: map<string, UserId>, sessions: map<Token, Session>)

  /** Seven days in milliseconds, the session lifetime. */
  const SessionTtl: int := 7 * 24 * 60 * 60 * 1000

  /** The constraints the schema enforces: primary keys match their rows,
      the e-mail index covers exactly the stored users, and session ids are
      unique. Every session's user exists, since users are never deleted. */
  ghost predicate Valid(st: State) {
    && (forall id :: id in st.users ==> st.users[id].id == id)
    && (forall e :: e in st.emails ==> st.emails[e] in st.users && st.users[st.emails[e]].email == e)
    && (forall id :: id in st.users ==> st.users[id].email in st.emails && st.emails[st.users[id].email] == id)
    && (forall t1, t2 :: t1 in st.sessions && t2 in st.sessions && st.sessions[t1].id == st.sessions[t2].id ==> t1 == t2)
    && (forall t :: t in st.sessions ==> st.sessions[t].userId in st.users)
  }

  /** In a valid state no two users share an e-mail address. */
  lemma EmailsUnique(st: State, a: UserId, b: UserId)
    requires Valid(st)
    requires a in st.users && b in st.users && st.users[a].email == st.users[b].email
    ensures a == b
  {
  }

  /** `SELECT * FROM users WHERE email = ?`. */
  function FindByEmail(st: State, email: string): (r: Option<User>)
    requires Valid(st)
    ensures r.Some? ==> r.value in st.users.Values && r.value.email == email
    ensures r.None? ==> forall id :: id in st.users ==> st.users[id].email != email
  {
    if email in st.emails then Some(st.users[st.emails[email]]) else None
  }

  /** `SELECT * FROM users WHERE id = ?`. */
  function FindById(st: State, id: UserId): (r: Option<User>)
    ensures r.Some? ==> r.value in st.users.Values
    ensures Valid(st) && r.Some? ==> r.value.id == id
    ensures Valid(st) && r.None? ==> forall u :: u in st.users.Values ==> u.id != id
  {
    if id in st.users then Some(st.users[id]) else None
  }

  /** Some session already carries the primary key `sid`. */
  predicate SessionIdTaken(st: State, sid: string) {
    exists t :: t in st.sessions && st.sessions[t].id == sid
  }

  /** `INSERT INTO user_sessions`: fails on a duplicate token or id. */
  function InsertSession(st: State, sid: string, uid: UserId, token: Token, expiresAt: int, now: int): (r: Option<State>)
    ensures r.Some? <==> token !in st.sessions && !SessionIdTaken(st, sid)
    ensures r.Some? ==> && r.value.users == st.users && r.value.emails == st.emails
                        && r.value.sessions == st.sessions[token := Session(sid, uid, expiresAt, now, now)]
  {
    if token in st.sessions || SessionIdTaken(st, sid) then None
    else Some(st.(sessions := st.sessions[token := Session(sid, uid, expiresAt, now, now)]))
  }

  /** An insert accepted into a valid state keeps it valid when the user exists. */
  lemma InsertSessionValid(st: State, sid: string, uid: UserId, token: Token, expiresAt: int, now: int)
    requires Valid(st) && uid in st.users
    requires InsertSession(st, sid, uid, token, expiresAt, now).Some?
    ensures Valid(InsertSession(st, sid, uid, token, expiresAt, now).value)
  {
  }

  /** `DELETE FROM user_sessions WHERE token = ?`. */
  function DeleteSession(st: State, token: Token): (r: State)
    ensures r.users == st.users && r.emails == st.emails
    ensures r.sessions.Keys == st.sessions.Keys - {token}
    ensures forall t :: t in r.sessions ==> r.sessions[t] == st.sessions[t]
  {
    st.(sessions := st.sessions - {token})
  }

  /** `DELETE FROM user_sessions WHERE user_id = ?`. */
  function DeleteSessionsOf(st: State, uid: UserId): (r: State)
    ensures r.users == st.users && r.emails == st.emails
    ensures forall t :: t in r.sessions <==> t in st.sessions && st.sessions[t].userId != uid
    ensures forall t :: t in r.sessions ==> r.sessions[t] == st.sessions[t]
  {
    st.(sessions := map t | t in st.sessions && st.sessions[t].userId != uid :: st.sessions[t])
  }
}
