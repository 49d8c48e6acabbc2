/**
 * Properties of the auth service that relate several requests: what a
 * registration or login makes possible afterwards, global revocation on
 * logout, and lazy expiry. Chained, `AnnRegisters`, `MeWithLiveToken`,
 * `LoginWithRegisteredPassword` and `LogoutRevokesEveryToken` give the
 * register / me / login / logout / me sequence step by step.
 */
module SessionLifecycle {
  import opened Wrappers
  import opened Store
  import opened Replies
  import opened Fields
  import opened Validation
  import opened Routes

  /** The header presenting `t`. */
  function Bearer(t: Token): (header: Option<string>)
    ensures BearerToken(header) == Some(t)
  {
    assert (BearerPrefix + t)[7..] == t;
    Some(BearerPrefix + t)
  }

  /** A session is accepted by the gate up to and including its expiry
      instant, and rejected and reclaimed one millisecond later. */
  lemma ExpiryBoundary(st: State, t: Token)
    requires t in st.sessions
    ensures RequireAuth(st, Bearer(t), st.sessions[t].expiresAt) == (Admit(st.sessions[t].userId), st)
    ensures RequireAuth(st, Bearer(t), st.sessions[t].expiresAt + 1) ==
              (Deny(Error(401, ExpiredMessage)), DeleteSession(st, t))
  {
  }

  /** The token `/register` returns opens `/me` for the new user throughout
      the seven days, and the user is active: `is_active` now comes back
      as the number 1 read from the row. */
  lemma RegisterThenMe(st: State, body: Option<RegistrationBody>, now: int, h: Hasher, salt: string,
                       uid: UserId, iss: Issuance, later: int)
    requires Valid(st)
    requires Register(st, body, now, h, salt, uid, iss).0.Success?
    requires later <= now + SessionTtl
    ensures var (_, st1) := Register(st, body, now, h, salt, uid, iss);
      var (reply, st2) := Me(st1, Bearer(iss.token), later);
      && st2 == st1
      && reply.Success? && reply.body.user.id == uid && reply.body.user.isActive == JsonNumber(1)
      && reply.body.user.passwordHash.None?
  {
  }

  /** Once a registration has succeeded, registering the same e-mail again
      is a 409 and changes nothing, so one user holds the address. */
  lemma RegisterTwice(st: State, body: Option<RegistrationBody>, body2: Option<RegistrationBody>, now: int, now2: int,
                      h: Hasher, salt: string, salt2: string, uid: UserId, uid2: UserId, iss: Issuance, iss2: Issuance)
    requires Valid(st)
    requires ValidateRegistration(body).Ok? && ValidateRegistration(body2).Ok?
    requires ValidateRegistration(body2).value.email == ValidateRegistration(body).value.email
    ensures var (reply1, st1) := Register(st, body, now, h, salt, uid, iss);
      var (reply2, st2) := Register(st1, body2, now2, h, salt2, uid2, iss2);
      reply1.Success? ==> Status(reply2) == 409 && st2 == st1
  {
  }

  /** With a sound hasher, logging in with the registered password succeeds
      whenever the generated token and session id are free, and the session
      from registration survives the login. */
  lemma RegisterThenLogin(st: State, body: Option<RegistrationBody>, now: int, h: Hasher, salt: string,
                          uid: UserId, iss: Issuance, now2: int, iss2: Issuance)
    requires Valid(st) && SoundHasher(h)
    requires Register(st, body, now, h, salt, uid, iss).0.Success?
    requires var st1 := Register(st, body, now, h, salt, uid, iss).1;
      iss2.token !in st1.sessions && !SessionIdTaken(st1, iss2.sessionId)
    ensures var (_, st1) := Register(st, body, now, h, salt, uid, iss);
      var d := ValidateRegistration(body).value;
      var (reply, st2) := Login(st1, Some(LoginBody(Str(d.email), Str(d.password))), now2, h, iss2);
      && reply.Success? && reply.body.user.id == uid
      && iss.token in st2.sessions && st2.sessions[iss.token] == st1.sessions[iss.token]
      && iss2.token in st2.sessions && st2.sessions[iss2.token].userId == uid
  {
    var st1 := Register(st, body, now, h, salt, uid, iss).1;
    var d := ValidateRegistration(body).value;
    assert LoginSchemaHolds(LoginBody(Str(d.email), Str(d.password)));
    assert st1.users[uid].passwordHash == h.hash(d.password, salt);
  }

  /** Logging out with any one token revokes every token of that user: a
      second token of the same user is afterwards answered "invalid". */
  lemma LogoutRevokesEveryToken(st: State, t1: Token, t2: Token, now: int, later: int)
    requires Valid(st)
    requires t1 in st.sessions && t2 in st.sessions
    requires st.sessions[t1].userId == st.sessions[t2].userId
    requires now <= st.sessions[t2].expiresAt
    ensures var (reply, st1) := Logout(st, Bearer(t2), now);
      && reply == Success(LoggedOut)
      && RequireAuth(st1, Bearer(t1), later) == (Deny(Error(401, InvalidTokenMessage)), st1)
  {
  }

  /** `/profile` does not run the update schema: any non-empty string is
      stored as a background, even one outside the enum domain, although the
      update schema would have rejected the same body with 400. */
  lemma ProfileStoresAnyBackground(st: State, t: Token, now: int, level: string)
    requires Valid(st)
    requires t in st.sessions && now <= st.sessions[t].expiresAt
    requires level != "" && !IsSoftwareName(level)
    ensures var body := ProfileBody(Str(level), Absent, Absent);
      var uid := st.sessions[t].userId;
      var (reply, st1) := Profile(st, Bearer(t), Some(body), now);
      && reply.Success?
      && st1.users[uid].software == level
      && !UserSchemaFields(st1.users[uid].email, st1.users[uid].name, st1.users[uid].software, st1.users[uid].hardware)
      && Status(ValidateUpdateProfile(Some(body)).error) == 400
  {
  }

  /** `/profile` with a learning goal that is missing, `null` or empty
      clears the stored goal, while leaving out the backgrounds keeps them. */
  lemma ProfileClearsGoal(st: State, t: Token, now: int, goal: FieldValue)
    requires Valid(st)
    requires t in st.sessions && now <= st.sessions[t].expiresAt
    requires !JsTruthy(goal)
    ensures var uid := st.sessions[t].userId;
      var (reply, st1) := Profile(st, Bearer(t), Some(ProfileBody(Absent, Absent, goal)), now);
      && reply.Success?
      && st1.users[uid].learningGoal.None?
      && st1.users[uid].software == st.users[uid].software
      && st1.users[uid].hardware == st.users[uid].hardware
  {
  }

  /** `/register` succeeds exactly when the body validates, the address
      and the generated user id are free, and the generated token and
      session id are unused; the address then maps to the new user. */
  lemma RegisterSucceedsIff(st: State, body: Option<RegistrationBody>, now: int, h: Hasher, salt: string,
                            uid: UserId, iss: Issuance)
    requires Valid(st)
    ensures var (reply, st1) := Register(st, body, now, h, salt, uid, iss);
      && (reply.Success? <==>
            && ValidateRegistration(body).Ok? && ValidateRegistration(body).value.email !in st.emails
            && uid !in st.users && iss.token !in st.sessions && !SessionIdTaken(st, iss.sessionId))
      && (reply.Success? ==> st1.emails == st.emails[ValidateRegistration(body).value.email := uid])
  {
    if ValidateRegistration(body).Ok? {
      var d := ValidateRegistration(body).value;
      if d.email !in st.emails && uid !in st.users {
        var st1 := st.(users := st.users[uid := NewUser(uid, d, h.hash(d.password, salt), now)],
                       emails := st.emails[d.email := uid]);
        assert SessionIdTaken(st1, iss.sessionId) == SessionIdTaken(st, iss.sessionId);
      }
    }
  }

  /** Registering Ann (`a@x.com`, `Ann`, `password1`, `Beginner`, `None`)
      into a store without that address succeeds and stores the hash of
      her password. */
  lemma AnnRegisters(st: State, now: int, h: Hasher, salt: string, uid: UserId, iss1: Issuance)
    requires Valid(st)
    requires "a@x.com" !in st.emails && uid !in st.users
    requires iss1.token !in st.sessions && !SessionIdTaken(st, iss1.sessionId)
    ensures var (r1, s1) := Register(st, Some(AnnRegistration()), now, h, salt, uid, iss1);
      && r1.Success? && r1.body.session.token == iss1.token
      && Valid(s1)
      && "a@x.com" in s1.emails && s1.emails["a@x.com"] == uid
      && s1.users[uid].passwordHash == h.hash("password1", salt) && s1.users[uid].isActive == 1
      && s1.sessions == st.sessions[iss1.token := Session(iss1.sessionId, uid, now + SessionTtl, now, now)]
  {
    AnnIsValid();
    RegisterSucceedsIff(st, Some(AnnRegistration()), now, h, salt, uid, iss1);
  }

  /** `/me` with an unexpired token of an existing user returns that user
      and changes nothing. */
  lemma MeWithLiveToken(st: State, t: Token, now: int)
    requires Valid(st)
    requires t in st.sessions && now <= st.sessions[t].expiresAt
    ensures Me(st, Bearer(t), now) == (Success(UserOnly(PublicView(st.users[st.sessions[t].userId]))), st)
  {
  }

  /** With a sound hasher, `/login` with the password whose hash is stored
      succeeds whenever the generated token and session id are free. */
  lemma LoginWithRegisteredPassword(st: State, email: string, password: string, salt: string, now: int, h: Hasher, iss: Issuance)
    requires Valid(st) && SoundHasher(h)
    requires email in st.emails && st.users[st.emails[email]].passwordHash == h.hash(password, salt)
    requires LoginSchemaHolds(LoginBody(Str(email), Str(password)))
    requires iss.token !in st.sessions && !SessionIdTaken(st, iss.sessionId)
    ensures var (reply, st') := Login(st, Some(LoginBody(Str(email), Str(password))), now, h, iss);
      && reply.Success? && reply.body.session.token == iss.token
      && st'.sessions == st.sessions[iss.token := Session(iss.sessionId, st.emails[email], now + SessionTtl, now, now)]
  {
    assert h.verify(password, h.hash(password, salt));
  }

  /** register("a@x.com", "Ann", "password1", "Beginner", "None"). */
  function AnnRegistration(): RegistrationBody {
    RegistrationBody(Str("a@x.com"), Str("Ann"), Str("password1"), Str("Beginner"), Str("None"), Absent)
  }

  /** Ann's registration body passes validation. */
  lemma AnnIsValid()
    ensures ValidateRegistration(Some(AnnRegistration())).Ok?
    ensures ValidateRegistration(Some(AnnRegistration())).value.email == "a@x.com"
    ensures ValidateRegistration(Some(AnnRegistration())).value.password == "password1"
    ensures LoginSchemaHolds(LoginBody(Str("a@x.com"), Str("password1")))
  {
    var body := AnnRegistration();
    var e := "a@x.com";
    assert e[1] == '@' && e[3] == '.';
    assert MatchesEmailRegex(e);
    assert Utf16Length("password1") == 9;
    assert Utf16Length("Ann") == 3;
    assert RegistrationSchemaHolds(body);
  }

  /** A registration body that would be accepted without a learning goal is
      refused with a 400 and a single `InvalidType` issue on that field
      when the goal is `null`, and nothing is stored: an optional field may
      be left out but not set to `null`. */
  lemma NullGoalRejected(st: State, b: RegistrationBody, now: int, h: Hasher, salt: string, uid: UserId, iss: Issuance)
    requires Valid(st)
    requires b.learningGoal.Null?
    requires RegistrationSchemaHolds(b.(learningGoal := Absent))
    ensures ValidateRegistration(Some(b.(learningGoal := Absent))).Ok?
    ensures ValidateRegistration(Some(b)) == Err(Rejected([Issue("learning_goal", InvalidType)]))
    ensures Register(st, Some(b), now, h, salt, uid, iss) == (Rejected([Issue("learning_goal", InvalidType)]), st)
  {
    assert ValidateEmail(b.email.s);
    assert EmailIssues(b.email) == [] && NameIssues(b.name) == [] && PasswordIssues(b.password) == [];
    assert SoftwareIssues(b.software) == [] && HardwareIssues(b.hardware) == [];
    var issues := EmailIssues(b.email) + NameIssues(b.name) + PasswordIssues(b.password)
      + SoftwareIssues(b.software) + HardwareIssues(b.hardware)
      + OptionalIssues("learning_goal", b.learningGoal);
    assert issues == [Issue("learning_goal", InvalidType)];
    assert ParseRegistration(b) == Err([Issue("learning_goal", InvalidType)]);
  }
}
