/**
 * The middleware of the auth service: the request-body validators that run
 * before `/register` and `/login` (and the unused profile validator), and
 * `requireAuth`, the gate in front of every protected route.
 */
module Validation {
  import opened Wrappers
  import opened Store
  import opened Replies
  import opened Fields
  import Text

  const ValidationErrorMessage := "Validation error"
  const InvalidRequestMessage := "Invalid request data"

  /** A 400 reply carrying the given field details. */
  function Rejected(details: seq<Issue>): (r: Reply)
    ensures Status(r) == 400
  {
    Failure(400, ValidationErrorMessage, details)
  }

  /** The middleware's pre-check on the password: a present, non-empty
      password shorter than eight code units. */
  predicate PasswordPrecheckFails(p: FieldValue) {
    JsTruthy(p) && Utf16Length(p.s) < MinPasswordLength
  }

  /** The middleware's pre-check on the e-mail: a present, non-empty address
      that does not match the pattern. */
  predicate EmailPrecheckFails(e: FieldValue) {
    JsTruthy(e) && !ValidateEmail(e.s)
  }

  /** `validateRegistration`. `None` is a body that is not JSON. The password
      pre-check runs first, then the e-mail pre-check, then the schema; any
      failure is a 400 and the handler never runs. The pre-checks change
      which details are reported, never whether the body is accepted. */
  function ValidateRegistration(body: Option<RegistrationBody>): (r: Result<RegistrationData, Reply>)
    ensures r.Ok? <==> body.Some? && RegistrationSchemaHolds(body.value)
    ensures r.Ok? ==> ParseRegistration(body.value) == Ok(r.value)
    ensures r.Err? ==> Status(r.error) == 400
    ensures body.None? ==> r == Err(Failure(400, InvalidRequestMessage, []))
    ensures body.Some? && PasswordPrecheckFails(body.value.password) ==>
              r == Err(Rejected([Issue("password", TooSmall(MinPasswordLength))]))
    ensures body.Some? && !PasswordPrecheckFails(body.value.password) && EmailPrecheckFails(body.value.email) ==>
              r == Err(Rejected([Issue("email", EmailFormat)]))
  {
    match body
    case None => Err(Failure(400, InvalidRequestMessage, []))
    case Some(b) =>
      if PasswordPrecheckFails(b.password) then
        Err(Rejected([Issue("password", TooSmall(MinPasswordLength))]))
      else if EmailPrecheckFails(b.email) then
        Err(Rejected([Issue("email", EmailFormat)]))
      else
        match ParseRegistration(b)
        case Ok(data) => Ok(data)
        case Err(issues) => Err(Rejected(issues))
  }

  /** `validateLogin`: the same pre-checks in the same order, then
      `LoginDataSchema`. */
  function ValidateLogin(body: Option<LoginBody>): (r: Result<LoginData, Reply>)
    ensures r.Ok? <==> body.Some? && LoginSchemaHolds(body.value)
    ensures r.Ok? ==> r.value == LoginData(body.value.email.s, body.value.password.s)
    ensures r.Err? ==> Status(r.error) == 400
    ensures body.None? ==> r == Err(Failure(400, InvalidRequestMessage, []))
    ensures body.Some? && PasswordPrecheckFails(body.value.password) ==>
              r == Err(Rejected([Issue("password", TooSmall(MinPasswordLength))]))
    ensures body.Some? && !PasswordPrecheckFails(body.value.password) && EmailPrecheckFails(body.value.email) ==>
              r == Err(Rejected([Issue("email", EmailFormat)]))
  {
    match body
    case None => Err(Failure(400, InvalidRequestMessage, []))
    case Some(b) =>
      if PasswordPrecheckFails(b.password) then
        Err(Rejected([Issue("password", TooSmall(MinPasswordLength))]))
      else if EmailPrecheckFails(b.email) then
        Err(Rejected([Issue("email", EmailFormat)]))
      else
        match ParseLogin(b)
        case Ok(data) => Ok(data)
        case Err(issues) => Err(Rejected(issues))
  }

  /** `validateUpdateProfile`: only the schema, whose fields are all optional. */
  function ValidateUpdateProfile(body: Option<ProfileBody>): (r: Result<ProfileData, Reply>)
    ensures r.Ok? <==> body.Some? && ParseUpdateProfile(body.value).Ok?
    ensures r.Ok? ==> ParseUpdateProfile(body.value) == Ok(r.value)
    ensures r.Err? ==> Status(r.error) == 400
  {
    match body
    case None => Err(Failure(400, InvalidRequestMessage, []))
    case Some(b) =>
      match ParseUpdateProfile(b)
      case Ok(data) => Ok(data)
      case Err(issues) => Err(Rejected(issues))
  }

  // ---------------------------------------------------------------------
  // requireAuth

  const BearerPrefix := "Bearer "
  const AuthRequiredMessage := "Authorization header required"
  const InvalidTokenMessage := "Invalid or expired token"
  const ExpiredMessage := "Session has expired"

  /** Outcome of the gate: the handler runs with `userId`, or the request
      ends with `reply`. */
  datatype Gate = Admit(userId: UserId) | Deny(reply: Reply)

  /** The token a header carries: everything after the first seven
      characters, when the header starts with `"Bearer "` (case-sensitive). */
  function BearerToken(header: Option<string>): (t: Option<Token>)
    ensures t.Some? <==> header.Some? && Text.StartsWith(header.value, BearerPrefix)
    ensures t.Some? ==> header.value == BearerPrefix + t.value
  {
    if header.Some? && Text.StartsWith(header.value, BearerPrefix)
    then Some(header.value[7..])
    else None
  }

  /** `requireAuth` at instant `now`: a missing or non-Bearer header, or an
      unknown token, is a 401 with the store untouched; a session past its
      expiry is deleted and answered with 401; otherwise the caller is
      admitted as the session's user and the store is untouched. A session
      is still accepted at the very instant of its expiry. */
  function RequireAuth(st: State, header: Option<string>, now: int): (r: (Gate, State))
    ensures BearerToken(header).None? ==> r == (Deny(Error(401, AuthRequiredMessage)), st)
    ensures BearerToken(header).Some? && BearerToken(header).value !in st.sessions ==>
              r == (Deny(Error(401, InvalidTokenMessage)), st)
    ensures BearerToken(header).Some? && BearerToken(header).value in st.sessions ==>
              var t := BearerToken(header).value;
              if now > st.sessions[t].expiresAt
              then r == (Deny(Error(401, ExpiredMessage)), DeleteSession(st, t))
              else r == (Admit(st.sessions[t].userId), st)
    ensures r.0.Deny? ==> Status(r.0.reply) == 401
  {
    match BearerToken(header)
    case None => (Deny(Error(401, AuthRequiredMessage)), st)
    case Some(token) =>
      if token !in st.sessions then (Deny(Error(401, InvalidTokenMessage)), st)
      else if now > st.sessions[token].expiresAt then
        (Deny(Error(401, ExpiredMessage)), DeleteSession(st, token))
      else (Admit(st.sessions[token].userId), st)
  }

  /** The gate only ever removes the presented session, and only when it has
      expired; it never adds a session or touches a user. */
  lemma GateOnlyReclaimsExpired(st: State, header: Option<string>, now: int)
    requires Valid(st)
    ensures var (g, st') := RequireAuth(st, header, now);
      && Valid(st')
      && st'.users == st.users && st'.emails == st.emails
      && st'.sessions.Keys <= st.sessions.Keys
      && (forall t :: t in st.sessions && t !in st'.sessions ==>
            header == Some(BearerPrefix + t) && now > st.sessions[t].expiresAt && g.Deny?)
      && (g.Admit? ==> st' == st && g.userId in st.users)
  {
  }

  /** Right after the gate reclaimed an expired session, presenting the same
      token again is answered "invalid", not "expired". */
  lemma ExpiredTokenThenUnknown(st: State, token: Token, now: int, later: int)
    requires token in st.sessions && now > st.sessions[token].expiresAt
    ensures var (_, st') := RequireAuth(st, Some(BearerPrefix + token), now);
      RequireAuth(st', Some(BearerPrefix + token), later) == (Deny(Error(401, InvalidTokenMessage)), st')
  {
    assert (BearerPrefix + token)[7..] == token;
  }
}
