/**
 * Field rules of the auth service: the e-mail pattern and password rule of
 * `auth.ts`, and the Zod schemas of `models/user.ts` (enum domains, name
 * length, password length, optional fields) as parsers that either produce
 * typed data or list the offending fields.
 *
 * JavaScript measures strings in UTF-16 code units, so every length rule
 * here is stated on `Utf16Length`, not on the number of code points.
 */
module Fields {
  import opened Wrappers

  // ---------------------------------------------------------------------
  // JavaScript strings

  /** Length of `s` as JavaScript's `.length` reports it: characters outside
      the Basic Multilingual Plane take two UTF-16 code units. */
  function Utf16Length(s: string): (n: nat)
    ensures |s| <= n <= 2 * |s|
    ensures (forall k :: 0 <= k < |s| ==> s[k] <= '\U{FFFF}') ==> n == |s|
  {
    if |s| == 0 then 0
    else (if s[0] <= '\U{FFFF}' then 1 else 2) + Utf16Length(s[1..])
  }

  /** The characters matched by `\s` in a JavaScript regular expression. */
  predicate JsIsSpace(c: char) {
    || c == ' ' || c == '\t' || c == '\n' || c == '\r'
    || c == '\U{B}' || c == '\U{C}'
    || c == '\U{A0}' || c == '\U{1680}'
    || ('\U{2000}' <= c <= '\U{200A}')
    || c == '\U{2028}' || c == '\U{2029}' || c == '\U{202F}' || c == '\U{205F}' || c == '\U{3000}'
    || c == '\U{FEFF}'
  }

  // ---------------------------------------------------------------------
  // validateEmail: /^[^\s@]+@[^\s@]+\.[^\s@]+$/

  /** The character class `[^\s@]`. */
  predicate EmailChar(c: char) {
    c != '@' && !JsIsSpace(c)
  }

  /** `s[lo..hi]` matches `[^\s@]*`. */
  predicate EmailRun(s: string, lo: int, hi: int)
    requires 0 <= lo <= hi <= |s|
  {
    forall k :: lo <= k < hi ==> EmailChar(s[k])
  }

  /** The regular expression read literally: three non-empty runs of
      `[^\s@]`, the first two separated by `@` at `i`, the last two by a
      `.` at `j`. */
  ghost predicate MatchesEmailRegex(s: string) {
    exists i, j :: 0 < i && i + 1 < j && j + 1 < |s| && s[i] == '@' && s[j] == '.'
      && EmailRun(s, 0, i) && EmailRun(s, i + 1, j) && EmailRun(s, j + 1, |s|)
  }

  /** What the regular expression amounts to: no whitespace anywhere,
      exactly one `@`, which is not the first character, and a `.` after it
      that is neither right after the `@` nor the last character. */
  predicate EmailShape(s: string) {
    (forall k | 0 <= k < |s| :: !JsIsSpace(s[k]))
    && exists i | 0 < i < |s| ::
         && s[i] == '@'
         && (forall k | 0 <= k < |s| && k != i :: s[k] != '@')
         && (exists j | i + 1 < j < |s| - 1 :: s[j] == '.')
  }

  /** `validateEmail`: whether the address matches the pattern. */
  function ValidateEmail(s: string): (ok: bool)
    ensures ok <==> MatchesEmailRegex(s)
  {
    RegexGivesShape(s);
    ShapeGivesRegex(s);
    EmailShape(s)
  }

  /** A match of the regular expression has the shape. */
  lemma RegexGivesShape(s: string)
    ensures MatchesEmailRegex(s) ==> EmailShape(s)
  {
    if MatchesEmailRegex(s) {
      var i, j :| 0 < i && i + 1 < j && j + 1 < |s| && s[i] == '@' && s[j] == '.'
        && EmailRun(s, 0, i) && EmailRun(s, i + 1, j) && EmailRun(s, j + 1, |s|);
      assert forall k | 0 <= k < |s| && k != i && k != j :: EmailChar(s[k]);
    }
  }

  /** A string of that shape matches the regular expression. */
  lemma ShapeGivesRegex(s: string)
    ensures EmailShape(s) ==> MatchesEmailRegex(s)
  {
    if EmailShape(s) {
      var i :| 0 < i < |s| && s[i] == '@'
        && (forall k | 0 <= k < |s| && k != i :: s[k] != '@')
        && (exists j | i + 1 < j < |s| - 1 :: s[j] == '.');
      var j :| i + 1 < j < |s| - 1 && s[j] == '.';
      assert EmailRun(s, 0, i) && EmailRun(s, i + 1, j) && EmailRun(s, j + 1, |s|);
    }
  }

  /** A string with two `@` characters is never a valid e-mail. */
  lemma TwoAtsRejected(s: string, a: int, b: int)
    requires 0 <= a < b < |s| && s[a] == '@' && s[b] == '@'
    ensures !ValidateEmail(s)
  {
  }

  // ---------------------------------------------------------------------
  // validatePassword

  const MinPasswordLength: nat := 8
  const PasswordTooShortMessage := "Password must be at least 8 characters long"

  datatype PasswordCheck = PasswordCheck(valid: bool, message: string)

  /** `validatePassword`: invalid exactly when the password is shorter than
      eight code units, with the fixed message; valid with the empty message. */
  function ValidatePassword(p: string): (r: PasswordCheck)
    ensures r.valid <==> Utf16Length(p) >= MinPasswordLength
    ensures r.valid ==> r.message == ""
    ensures !r.valid ==> r.message == PasswordTooShortMessage
  {
    if Utf16Length(p) < MinPasswordLength then PasswordCheck(false, PasswordTooShortMessage)
    else PasswordCheck(true, "")
  }

  // ---------------------------------------------------------------------
  // Enum domains

  datatype SoftwareBackground = Beginner | Intermediate | Advanced
  /** `NoHardware` is the enum member spelled `"None"`. */
  datatype HardwareBackground = NoHardware | Arduino | RaspberryPi

  function SoftwareName(b: SoftwareBackground): string {
    match b
    case Beginner => "Beginner"
    case Intermediate => "Intermediate"
    case Advanced => "Advanced"
  }

  function HardwareName(b: HardwareBackground): string {
    match b
    case NoHardware => "None"
    case Arduino => "Arduino"
    case RaspberryPi => "RaspberryPi"
  }

  /** `z.enum(['Beginner', 'Intermediate', 'Advanced'])`: accepts exactly the
      three spellings, case-sensitively. */
  function ParseSoftware(s: string): (r: Option<SoftwareBackground>)
    ensures r.Some? ==> SoftwareName(r.value) == s
    ensures r.None? ==> forall b :: SoftwareName(b) != s
  {
    if s == "Beginner" then Some(Beginner)
    else if s == "Intermediate" then Some(Intermediate)
    else if s == "Advanced" then Some(Advanced)
    else None
  }

  /** `z.enum(['None', 'Arduino', 'RaspberryPi'])`. */
  function ParseHardware(s: string): (r: Option<HardwareBackground>)
    ensures r.Some? ==> HardwareName(r.value) == s
    ensures r.None? ==> forall b :: HardwareName(b) != s
  {
    if s == "None" then Some(NoHardware)
    else if s == "Arduino" then Some(Arduino)
    else if s == "RaspberryPi" then Some(RaspberryPi)
    else None
  }

  predicate IsSoftwareName(s: string) {
    s == "Beginner" || s == "Intermediate" || s == "Advanced"
  }

  predicate IsHardwareName(s: string) {
    s == "None" || s == "Arduino" || s == "RaspberryPi"
  }

  /** Parsing a printed enum value gives it back, and the printed names are
      exactly the accepted spellings. */
  lemma EnumRoundTrip(sb: SoftwareBackground, hb: HardwareBackground, s: string)
    ensures ParseSoftware(SoftwareName(sb)) == Some(sb)
    ensures ParseHardware(HardwareName(hb)) == Some(hb)
    ensures ParseSoftware(s).Some? <==> IsSoftwareName(s)
    ensures ParseHardware(s).Some? <==> IsHardwareName(s)
  {
  }

  // ---------------------------------------------------------------------
  // Name rule: z.string().min(1).max(100)

  const MaxNameLength: nat := 100

  predicate ValidName(n: string) {
    1 <= Utf16Length(n) <= MaxNameLength
  }

  // ---------------------------------------------------------------------
  // Schema issues, as Zod reports them: one per failing check, in the
  // order the fields are declared in the schema.

  datatype IssueKind =
    | Required            // field absent
    | InvalidType         // field null where a string is expected
    | InvalidEmail        // fails the e-mail check
    | TooSmall(min: nat)  // string shorter than the minimum
    | TooBig(max: nat)    // string longer than the maximum
    | InvalidEnum         // not one of the enum spellings
    | EmailFormat         // the middleware's own pre-check of the pattern

  datatype Issue = Issue(field: string, kind: IssueKind)

  /** The fields an issue list names. */
  function IssueFields(issues: seq<Issue>): set<string> {
    set i | 0 <= i < |issues| :: issues[i].field
  }

  lemma IssueFieldsAppend(a: seq<Issue>, b: seq<Issue>)
    ensures IssueFields(a + b) == IssueFields(a) + IssueFields(b)
  {
    forall f | f in IssueFields(a + b) ensures f in IssueFields(a) + IssueFields(b) {
      var i :| 0 <= i < |a + b| && (a + b)[i].field == f;
      if i >= |a| { assert b[i - |a|].field == f; }
    }
    forall f | f in IssueFields(a) + IssueFields(b) ensures f in IssueFields(a + b) {
      if f in IssueFields(a) {
        var i :| 0 <= i < |a| && a[i].field == f;
        assert (a + b)[i].field == f;
      } else {
        var i :| 0 <= i < |b| && b[i].field == f;
        assert (a + b)[|a| + i].field == f;
      }
    }
  }

  /** A list whose issues all name `field` names that field or nothing. */
  lemma IssueFieldsOfOne(issues: seq<Issue>, field: string)
    requires forall i :: 0 <= i < |issues| ==> issues[i].field == field
    ensures IssueFields(issues) == if issues == [] then {} else {field}
  {
    if issues != [] {
      assert issues[0].field == field;
    }
  }

  /** `field` when `ok` fails, nothing otherwise. */
  function FailsIf(ok: bool, field: string): set<string> {
    if ok then {} else {field}
  }

  /** A field of a JSON request body: missing, `null`, or a string. Other
      JSON types (numbers, booleans, objects) are not modelled. */
  datatype FieldValue = Absent | Null | Str(s: string)

  /** JavaScript truthiness of a field: a non-empty string. */
  predicate JsTruthy(v: FieldValue) {
    v.Str? && v.s != ""
  }

  /** The string a field holds, if any. */
  function AsOption(v: FieldValue): (o: Option<string>)
    ensures o.Some? <==> v.Str?
    ensures o.Some? ==> o.value == v.s
  {
    if v.Str? then Some(v.s) else None
  }

  /** The one issue of a string field that holds no string: `Required` when
      it is missing, `InvalidType` when it is `null`. */
  function NotAString(field: string, v: FieldValue): (i: Issue)
    requires !v.Str?
    ensures i.field == field
  {
    Issue(field, if v.Absent? then Required else InvalidType)
  }

  /** The checks of one required string field `z.string().email()`. The Zod
      e-mail check is taken to be the same pattern as `validateEmail`. */
  function EmailIssues(v: FieldValue): (r: seq<Issue>)
    ensures r == [] <==> (v.Str? && ValidateEmail(v.s))
    ensures forall i :: 0 <= i < |r| ==> r[i].field == "email"
  {
    match v
    case Str(e) => if ValidateEmail(e) then [] else [Issue("email", InvalidEmail)]
    case _ => [NotAString("email", v)]
  }

  /** `z.string().min(1).max(100)`: Zod runs both checks. */
  function NameIssues(v: FieldValue): (r: seq<Issue>)
    ensures r == [] <==> (v.Str? && ValidName(v.s))
    ensures forall i :: 0 <= i < |r| ==> r[i].field == "name"
  {
    match v
    case Str(n) =>
      (if Utf16Length(n) < 1 then [Issue("name", TooSmall(1))] else [])
      + (if Utf16Length(n) > MaxNameLength then [Issue("name", TooBig(MaxNameLength))] else [])
    case _ => [NotAString("name", v)]
  }

  /** `z.string().min(8, ...)`. */
  function PasswordIssues(v: FieldValue): (r: seq<Issue>)
    ensures r == [] <==> (v.Str? && ValidatePassword(v.s).valid)
    ensures forall i :: 0 <= i < |r| ==> r[i].field == "password"
  {
    match v
    case Str(p) =>
      if ValidatePassword(p).valid then [] else [Issue("password", TooSmall(MinPasswordLength))]
    case _ => [NotAString("password", v)]
  }

  /** A required enum field. */
  function SoftwareIssues(v: FieldValue): (r: seq<Issue>)
    ensures r == [] <==> (v.Str? && IsSoftwareName(v.s))
    ensures forall i :: 0 <= i < |r| ==> r[i].field == "software_background"
  {
    match v
    case Str(s) => if ParseSoftware(s).Some? then [] else [Issue("software_background", InvalidEnum)]
    case _ => [NotAString("software_background", v)]
  }

  function HardwareIssues(v: FieldValue): (r: seq<Issue>)
    ensures r == [] <==> (v.Str? && IsHardwareName(v.s))
    ensures forall i :: 0 <= i < |r| ==> r[i].field == "hardware_background"
  {
    match v
    case Str(s) => if ParseHardware(s).Some? then [] else [Issue("hardware_background", InvalidEnum)]
    case _ => [NotAString("hardware_background", v)]
  }

  /** `z.string().optional()`: a missing field passes, but `null` is not
      `undefined` and fails the string check. */
  function OptionalIssues(field: string, v: FieldValue): (r: seq<Issue>)
    ensures r == [] <==> !v.Null?
    ensures forall i :: 0 <= i < |r| ==> r[i].field == field
  {
    if v.Null? then [Issue(field, InvalidType)] else []
  }

  /** An optional enum field: missing passes, `null` fails, and a string
      must be one of the spellings. */
  function OptionalEnumIssues(field: string, v: FieldValue, isName: string -> bool): (r: seq<Issue>)
    ensures r == [] <==> v.Absent? || (v.Str? && isName(v.s))
    ensures forall i :: 0 <= i < |r| ==> r[i].field == field
  {
    match v
    case Absent => []
    case Null => [Issue(field, InvalidType)]
    case Str(s) => if isName(s) then [] else [Issue(field, InvalidEnum)]
  }

  // ---------------------------------------------------------------------
  // RegistrationDataSchema

  /** The JSON body of a registration request. */
  datatype RegistrationBody = RegistrationBody(
    email: FieldValue, name: FieldValue, password: FieldValue,
    software: FieldValue, hardware: FieldValue, learningGoal: FieldValue)

  datatype RegistrationData = RegistrationData(
    email: string, name: string, password: string,
    software: SoftwareBackground, hardware: HardwareBackground, learningGoal: Option<string>)

  /** What `RegistrationDataSchema` demands of a body. */
  ghost predicate RegistrationSchemaHolds(b: RegistrationBody) {
    && b.email.Str? && MatchesEmailRegex(b.email.s)
    && b.name.Str? && ValidName(b.name.s)
    && b.password.Str? && Utf16Length(b.password.s) >= MinPasswordLength
    && b.software.Str? && IsSoftwareName(b.software.s)
    && b.hardware.Str? && IsHardwareName(b.hardware.s)
    && !b.learningGoal.Null?
  }

  /** The fields of a registration body that fail their rule. */
  ghost function RegistrationFailures(b: RegistrationBody): set<string> {
    FailsIf(b.email.Str? && MatchesEmailRegex(b.email.s), "email")
    + FailsIf(b.name.Str? && ValidName(b.name.s), "name")
    + FailsIf(b.password.Str? && Utf16Length(b.password.s) >= MinPasswordLength, "password")
    + FailsIf(b.software.Str? && IsSoftwareName(b.software.s), "software_background")
    + FailsIf(b.hardware.Str? && IsHardwareName(b.hardware.s), "hardware_background")
    + FailsIf(!b.learningGoal.Null?, "learning_goal")
  }

  /** `RegistrationDataSchema.parse`: the data when every field passes
      (`learning_goal` may be missing, but not `null`), otherwise the list
      of issues. */
  function ParseRegistration(b: RegistrationBody): (r: Result<RegistrationData, seq<Issue>>)
    ensures r.Ok? <==> RegistrationSchemaHolds(b)
    ensures r.Ok? ==> && r.value.email == b.email.s && r.value.name == b.name.s
                      && r.value.password == b.password.s
                      && SoftwareName(r.value.software) == b.software.s
                      && HardwareName(r.value.hardware) == b.hardware.s
                      && (r.value.learningGoal.Some? <==> b.learningGoal.Str?)
                      && (b.learningGoal.Str? ==> r.value.learningGoal == Some(b.learningGoal.s))
    ensures r.Err? ==> r.error != [] && IssueFields(r.error) == RegistrationFailures(b)
  {
    var e, n, p := EmailIssues(b.email), NameIssues(b.name), PasswordIssues(b.password);
    var sw, hw, g := SoftwareIssues(b.software), HardwareIssues(b.hardware),
      OptionalIssues("learning_goal", b.learningGoal);
    var issues := e + n + p + sw + hw + g;
    IssueFieldsOfOne(e, "email"); IssueFieldsOfOne(n, "name"); IssueFieldsOfOne(p, "password");
    IssueFieldsOfOne(sw, "software_background"); IssueFieldsOfOne(hw, "hardware_background");
    IssueFieldsOfOne(g, "learning_goal");
    IssueFieldsAppend(e, n); IssueFieldsAppend(e + n, p); IssueFieldsAppend(e + n + p, sw);
    IssueFieldsAppend(e + n + p + sw, hw); IssueFieldsAppend(e + n + p + sw + hw, g);
    if issues == [] then
      Ok(RegistrationData(b.email.s, b.name.s, b.password.s,
        ParseSoftware(b.software.s).value, ParseHardware(b.hardware.s).value,
        AsOption(b.learningGoal)))
    else Err(issues)
  }

  // ---------------------------------------------------------------------
  // LoginDataSchema

  datatype LoginBody = LoginBody(email: FieldValue, password: FieldValue)
  datatype LoginData = LoginData(email: string, password: string)

  ghost predicate LoginSchemaHolds(b: LoginBody) {
    && b.email.Str? && MatchesEmailRegex(b.email.s)
    && b.password.Str? && Utf16Length(b.password.s) >= MinPasswordLength
  }

  /** The fields of a login body that fail their rule. */
  ghost function LoginFailures(b: LoginBody): set<string> {
    FailsIf(b.email.Str? && MatchesEmailRegex(b.email.s), "email")
    + FailsIf(b.password.Str? && Utf16Length(b.password.s) >= MinPasswordLength, "password")
  }

  function ParseLogin(b: LoginBody): (r: Result<LoginData, seq<Issue>>)
    ensures r.Ok? <==> LoginSchemaHolds(b)
    ensures r.Ok? ==> r.value == LoginData(b.email.s, b.password.s)
    ensures r.Err? ==> r.error != [] && IssueFields(r.error) == LoginFailures(b)
  {
    var e, p := EmailIssues(b.email), PasswordIssues(b.password);
    var issues := e + p;
    IssueFieldsOfOne(e, "email"); IssueFieldsOfOne(p, "password");
    IssueFieldsAppend(e, p);
    if issues == [] then Ok(LoginData(b.email.s, b.password.s)) else Err(issues)
  }

  // ---------------------------------------------------------------------
  // UpdateProfileSchema: every field optional, enum domains still apply.

  datatype ProfileBody = ProfileBody(software: FieldValue, hardware: FieldValue, learningGoal: FieldValue)

  datatype ProfileData = ProfileData(
    software: Option<SoftwareBackground>, hardware: Option<HardwareBackground>, learningGoal: Option<string>)

  /** The fields of a profile body that fail their rule. */
  function ProfileFailures(b: ProfileBody): set<string> {
    FailsIf(b.software.Absent? || (b.software.Str? && IsSoftwareName(b.software.s)), "software_background")
    + FailsIf(b.hardware.Absent? || (b.hardware.Str? && IsHardwareName(b.hardware.s)), "hardware_background")
    + FailsIf(!b.learningGoal.Null?, "learning_goal")
  }

  /** `UpdateProfileSchema.parse`: each field may be missing but not `null`,
      and a background given as a string must be one of its spellings. */
  function ParseUpdateProfile(b: ProfileBody): (r: Result<ProfileData, seq<Issue>>)
    ensures r.Ok? <==> && !b.software.Null? && !b.hardware.Null? && !b.learningGoal.Null?
                       && (b.software.Str? ==> IsSoftwareName(b.software.s))
                       && (b.hardware.Str? ==> IsHardwareName(b.hardware.s))
    ensures r.Ok? ==> && (r.value.software.Some? <==> b.software.Str?)
                      && (r.value.software.Some? ==> SoftwareName(r.value.software.value) == b.software.s)
                      && (r.value.hardware.Some? <==> b.hardware.Str?)
                      && (r.value.hardware.Some? ==> HardwareName(r.value.hardware.value) == b.hardware.s)
                      && (r.value.learningGoal.Some? <==> b.learningGoal.Str?)
                      && (b.learningGoal.Str? ==> r.value.learningGoal == Some(b.learningGoal.s))
    ensures r.Err? ==> r.error != [] && IssueFields(r.error) == ProfileFailures(b)
  {
    var sw := OptionalEnumIssues("software_background", b.software, IsSoftwareName);
    var hw := OptionalEnumIssues("hardware_background", b.hardware, IsHardwareName);
    var g := OptionalIssues("learning_goal", b.learningGoal);
    var issues := sw + hw + g;
    IssueFieldsOfOne(sw, "software_background"); IssueFieldsOfOne(hw, "hardware_background");
    IssueFieldsOfOne(g, "learning_goal");
    IssueFieldsAppend(sw, hw); IssueFieldsAppend(sw + hw, g);
    if issues == [] then
      Ok(ProfileData(
        if b.software.Str? then ParseSoftware(b.software.s) else None,
        if b.hardware.Str? then ParseHardware(b.hardware.s) else None,
        AsOption(b.learningGoal)))
    else Err(issues)
  }

  // ---------------------------------------------------------------------
  // UserSchema (the checks that concern stored values)

  /** The part of `UserSchema` a stored user can be held to: e-mail pattern,
      name length and the two enum domains. */
  predicate UserSchemaFields(email: string, name: string, software: string, hardware: string) {
    ValidateEmail(email) && ValidName(name) && IsSoftwareName(software) && IsHardwareName(hardware)
  }
}
