/**
 * The five routes of the auth service (`/register`, `/login`, `/me`,
 * `/profile`, `/logout`), each with its middleware, as a pure transition
 * from a store state to a reply and a new store state.
 *
 * What the runtime supplies is passed in: the clock as `now`, the password
 * hasher as a pair of functions, the salt, and the ids and token the route
 * would generate. A generated id or token that is already taken makes the
 * INSERT throw, which the route answers with 500.
 */
module Routes {
  import opened Wrappers
  import opened Store
  import opened Replies
  import opened Fields
  import opened Validation
  import Text

  /** The password hasher: `hash(password, salt)` and `verify(password, hash)`. */
  datatype Hasher = Hasher(hash: (string, string) -> string, verify: (string, string) -> bool)

  /** A hasher whose `verify` accepts every hash it made of the same password. */
  ghost predicate SoundHasher(h: Hasher) {
    forall p, salt :: h.verify(p, h.hash(p, salt))
  }

  /** The session id and token a route generates for a new session. */
  datatype Issuance = Issuance(sessionId: string, token: Token)

  // ---------------------------------------------------------------------
  // /register

  /** The row `/register` inserts. The backgrounds are stored as the
      schema's spellings, an empty learning goal as NULL, and `is_active`
      takes the column default. */
  function NewUser(uid: UserId, d: RegistrationData, hash: string, now: int): (u: User)
    ensures u.id == uid && u.email == d.email && u.name == d.name && u.passwordHash == hash
    ensures ParseSoftware(u.software) == Some(d.software) && ParseHardware(u.hardware) == Some(d.hardware)
    ensures u.isActive == ActiveByDefault && u.createdAt == now && u.updatedAt == now
    ensures u.learningGoal == if Text.Truthy(d.learningGoal) then d.learningGoal else None
  {
    User(uid, d.email, d.name, hash, SoftwareName(d.software), HardwareName(d.hardware),
      if Text.Truthy(d.learningGoal) then d.learningGoal else None, now, now, ActiveByDefault)
  }

  /** The handler behind `validateRegistration`: 409 for a known e-mail,
      otherwise the user row is inserted before the session row, with no
      transaction around them, so a clashing session leaves the new user
      stored behind a 500. */
  function RegisterHandler(st: State, d: RegistrationData, now: int, h: Hasher, salt: string,
                           uid: UserId, iss: Issuance): (r: (Reply, State))
    ensures Status(r.0) == 409 <==> d.email in st.emails
    ensures r.0.Success? <==> && d.email !in st.emails && uid !in st.users
                              && iss.token !in st.sessions && !SessionIdTaken(st, iss.sessionId)
    ensures d.email !in st.emails && uid !in st.users && !r.0.Success? ==>
              && Status(r.0) == 500
              && r.1 == st.(users := st.users[uid := NewUser(uid, d, h.hash(d.password, salt), now)],
                             emails := st.emails[d.email := uid])
    ensures (d.email in st.emails || uid in st.users) ==> r.1 == st && Status(r.0) in {409, 500}
  {
    if d.email in st.emails then (Error(409, "User already exists"), st)
    else if uid in st.users then (Error(500, "Registration failed"), st)
    else
      var hash := h.hash(d.password, salt);
      var u := NewUser(uid, d, hash, now);
      var st1 := st.(users := st.users[uid := u], emails := st.emails[d.email := uid]);
      match InsertSession(st1, iss.sessionId, uid, iss.token, now + SessionTtl, now)
      case None => (Error(500, "Registration failed"), st1)
      case Some(st2) =>
        var view := UserView(uid, d.email, d.name, Some(hash), SoftwareName(d.software),
          HardwareName(d.hardware), d.learningGoal, now, now, JsonBool(true));
        (Success(UserAndSession(view, SessionView(iss.token, now + SessionTtl))), st2)
  }

  /** `POST /register`: rejected bodies (400) and an e-mail already present
      (409) leave both tables unchanged; success adds exactly one user and
      one session for that user expiring seven days after `now`, and echoes
      the password hash in the user object. */
  function Register(st: State, body: Option<RegistrationBody>, now: int, h: Hasher, salt: string,
                    uid: UserId, iss: Issuance): (r: (Reply, State))
    requires Valid(st)
    ensures Valid(r.1)
    ensures ValidateRegistration(body).Err? ==> Status(r.0) == 400 && r.1 == st
    ensures Status(r.0) == 409 <==> ValidateRegistration(body).Ok? && ValidateRegistration(body).value.email in st.emails
    ensures Status(r.0) == 409 ==> r.1 == st
    ensures r.0.Success? ==>
      var d := ValidateRegistration(body).value;
      && body.Some? && RegistrationSchemaHolds(body.value)
      && d.email !in st.emails && uid !in st.users
      && r.1.users == st.users[uid := NewUser(uid, d, h.hash(d.password, salt), now)]
      && r.1.sessions == st.sessions[iss.token := Session(iss.sessionId, uid, now + SessionTtl, now, now)]
      && r.0.body == UserAndSession(
           UserView(uid, d.email, d.name, Some(h.hash(d.password, salt)), SoftwareName(d.software),
             HardwareName(d.hardware), d.learningGoal, now, now, JsonBool(true)),
           SessionView(iss.token, now + SessionTtl))
    ensures ValidateRegistration(body).Ok? && Status(r.0) == 500 && uid !in st.users ==>
      var d := ValidateRegistration(body).value;
      && r.1.users == st.users[uid := NewUser(uid, d, h.hash(d.password, salt), now)]
      && r.1.emails == st.emails[d.email := uid]
      && r.1.sessions == st.sessions
    ensures Status(r.0) in {200, 400, 409, 500}
  {
    match ValidateRegistration(body)
    case Err(rejection) => (rejection, st)
    case Ok(d) =>
      var r := RegisterHandler(st, d, now, h, salt, uid, iss);
      RegisterKeepsValid(st, d, now, h, salt, uid, iss);
      r
  }

  lemma RegisterKeepsValid(st: State, d: RegistrationData, now: int, h: Hasher, salt: string, uid: UserId, iss: Issuance)
    requires Valid(st)
    ensures Valid(RegisterHandler(st, d, now, h, salt, uid, iss).1)
  {
    if d.email !in st.emails && uid !in st.users {
      var u := NewUser(uid, d, h.hash(d.password, salt), now);
      var st1 := st.(users := st.users[uid := u], emails := st.emails[d.email := uid]);
      assert Valid(st1);
      if InsertSession(st1, iss.sessionId, uid, iss.token, now + SessionTtl, now).Some? {
        InsertSessionValid(st1, iss.sessionId, uid, iss.token, now + SessionTtl, now);
      }
    }
  }

  // ---------------------------------------------------------------------
  // /login

  const UnknownAccountMessage := "Invalid email or password. Account does not exist."
  const BadPasswordMessage := "Invalid email or password"

  /** `POST /login`: an unknown e-mail or a password the hasher rejects is a
      401 with the store unchanged; success adds one session for the user
      expiring seven days after `now` and keeps every existing session. The
      user object leaves out the password hash. */
  function Login(st: State, body: Option<LoginBody>, now: int, h: Hasher, iss: Issuance): (r: (Reply, State))
    requires Valid(st)
    ensures Valid(r.1)
    ensures r.1.users == st.users && r.1.emails == st.emails
    ensures ValidateLogin(body).Err? ==> Status(r.0) == 400 && r.1 == st
    ensures ValidateLogin(body).Ok? && ValidateLogin(body).value.email !in st.emails ==>
              r == (Error(401, UnknownAccountMessage), st)
    ensures ValidateLogin(body).Ok? && ValidateLogin(body).value.email in st.emails ==>
              var u := st.users[st.emails[ValidateLogin(body).value.email]];
              !h.verify(ValidateLogin(body).value.password, u.passwordHash) ==>
                r == (Error(401, BadPasswordMessage), st)
    ensures Status(r.0) != 200 ==> r.1 == st
    ensures r.0.Success? ==>
      var d := ValidateLogin(body).value;
      && d.email in st.emails
      && var u := st.users[st.emails[d.email]];
      && h.verify(d.password, u.passwordHash)
      && iss.token !in st.sessions
      && r.1.sessions == st.sessions[iss.token := Session(iss.sessionId, u.id, now + SessionTtl, now, now)]
      && r.0.body == UserAndSession(PublicView(u), SessionView(iss.token, now + SessionTtl))
  {
    match ValidateLogin(body)
    case Err(rejection) => (rejection, st)
    case Ok(d) =>
      match FindByEmail(st, d.email)
      case None => (Error(401, UnknownAccountMessage), st)
      case Some(u) =>
        if !h.verify(d.password, u.passwordHash) then (Error(401, BadPasswordMessage), st)
        else
          match InsertSession(st, iss.sessionId, u.id, iss.token, now + SessionTtl, now)
          case None => (Error(500, "Login failed"), st)
          case Some(st') =>
            InsertSessionValid(st, iss.sessionId, u.id, iss.token, now + SessionTtl, now);
            (Success(UserAndSession(PublicView(u), SessionView(iss.token, now + SessionTtl))), st')
  }

  // ---------------------------------------------------------------------
  // /me

  /** `GET /me`: the gate's reply when it denies, 404 when the admitted id has
      no user, otherwise the user without its password hash. */
  function Me(st: State, header: Option<string>, now: int): (r: (Reply, State))
    requires Valid(st)
    ensures Valid(r.1)
    ensures RequireAuth(st, header, now).0.Deny? ==> r == (RequireAuth(st, header, now).0.reply, RequireAuth(st, header, now).1)
    ensures RequireAuth(st, header, now).0.Admit? ==>
              var uid := RequireAuth(st, header, now).0.userId;
              && r.1 == st
              && (uid in st.users ==> r.0 == Success(UserOnly(PublicView(st.users[uid]))))
              && (uid !in st.users ==> r.0 == Error(404, "User not found"))
  {
    match RequireAuth(st, header, now)
    case (Deny(reply), st') =>
      GateOnlyReclaimsExpired(st, header, now);
      (reply, st')
    case (Admit(uid), st') =>
      match FindById(st', uid)
      case None => (Error(404, "User not found"), st')
      case Some(u) => (Success(UserOnly(PublicView(u))), st')
  }

  // ---------------------------------------------------------------------
  // /profile

  /** The `UPDATE` of `/profile`: a falsy background keeps the stored value
      (`COALESCE`), while `learning_goal` is always overwritten, with NULL
      when the body's value is falsy. No other column changes, not even
      `updated_at`. */
  function ApplyProfile(u: User, b: ProfileBody): (u': User)
    ensures u'.software == (if JsTruthy(b.software) then b.software.s else u.software)
    ensures u'.hardware == (if JsTruthy(b.hardware) then b.hardware.s else u.hardware)
    ensures u'.learningGoal == (if JsTruthy(b.learningGoal) then Some(b.learningGoal.s) else None)
    ensures u' == u.(software := u'.software, hardware := u'.hardware, learningGoal := u'.learningGoal)
  {
    u.(software := if JsTruthy(b.software) then b.software.s else u.software,
       hardware := if JsTruthy(b.hardware) then b.hardware.s else u.hardware,
       learningGoal := if JsTruthy(b.learningGoal) then Some(b.learningGoal.s) else None)
  }

  /** `PUT /profile`, guarded by the gate only: the body is not checked
      against the update schema. A body that is not JSON is a 500. The id,
      e-mail, name, password hash, timestamps and every session are left as
      they were; a missing user is a 404 with nothing changed. */
  function Profile(st: State, header: Option<string>, body: Option<ProfileBody>, now: int): (r: (Reply, State))
    requires Valid(st)
    ensures Valid(r.1)
    ensures RequireAuth(st, header, now).0.Deny? ==> r == (RequireAuth(st, header, now).0.reply, RequireAuth(st, header, now).1)
    ensures RequireAuth(st, header, now).0.Admit? ==>
              var uid := RequireAuth(st, header, now).0.userId;
              && r.1.sessions == st.sessions && r.1.emails == st.emails
              && (body.None? ==> Status(r.0) == 500 && r.1 == st)
              && (body.Some? && uid in st.users ==>
                    && r.1.users == st.users[uid := ApplyProfile(st.users[uid], body.value)]
                    && r.0 == Success(UserOnly(PublicView(ApplyProfile(st.users[uid], body.value)))))
              && (uid !in st.users ==> Status(r.0) != 200 && r.1 == st)
  {
    match RequireAuth(st, header, now)
    case (Deny(reply), st') => (reply, st')
    case (Admit(uid), st') =>
      match body
      case None => (Error(500, "Failed to update profile"), st')
      case Some(b) =>
        if uid !in st'.users then (Error(404, "User not found"), st')
        else
          var u := ApplyProfile(st'.users[uid], b);
          var st'' := st'.(users := st'.users[uid := u]);
          (Success(UserOnly(PublicView(u))), st'')
  }

  // ---------------------------------------------------------------------
  // /logout

  /** `POST /logout`: deletes every session of the caller, whichever token
      was presented, and no session of anyone else. */
  function Logout(st: State, header: Option<string>, now: int): (r: (Reply, State))
    requires Valid(st)
    ensures Valid(r.1)
    ensures RequireAuth(st, header, now).0.Deny? ==> r == (RequireAuth(st, header, now).0.reply, RequireAuth(st, header, now).1)
    ensures RequireAuth(st, header, now).0.Admit? ==>
              var uid := RequireAuth(st, header, now).0.userId;
              && r.0 == Success(LoggedOut)
              && r.1.users == st.users && r.1.emails == st.emails
              && (forall t :: t in r.1.sessions <==> t in st.sessions && st.sessions[t].userId != uid)
              && (forall t :: t in r.1.sessions ==> r.1.sessions[t] == st.sessions[t])
  {
    match RequireAuth(st, header, now)
    case (Deny(reply), st') =>
      GateOnlyReclaimsExpired(st, header, now);
      (reply, st')
    case (Admit(uid), st') => (Success(LoggedOut), DeleteSessionsOf(st', uid))
  }
}
