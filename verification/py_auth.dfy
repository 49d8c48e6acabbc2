/**
 * The backend's `AuthService`: SHA-256 password hashing and verification,
 * user creation and the profile update, over the `users` table as a
 * sequence of rows in table order (`.first()` is the first matching row).
 *
 * SHA-256 is a parameter `sha`: the hex digest function of the UTF-8
 * encoding of its argument.
 */
module PyAuth {
  import opened Wrappers
  import Text
  import Store
  import Routes
  import Fields

  /** A row of the backend's `users` table; timestamps are not modelled. */
  datatype PyUser = PyUser(
    id: string, email: string, name: string, passwordHash: string,
    software: string, hardware: string, learningGoal: Option<string>, isActive: bool)

  // ---------------------------------------------------------------------
  // Hashing

  /** `verify_password`: the stored hash equals the digest of the password. */
  predicate VerifyPassword(sha: string -> string, plain: string, hashed: string) {
    hashed == sha(plain)
  }

  /** `hash_password`: unsalted, so a function of the password alone, and
      always accepted by `verify_password` for the same password. */
  function HashPassword(sha: string -> string, password: string): (h: string)
    ensures VerifyPassword(sha, password, h)
    ensures forall other :: VerifyPassword(sha, other, h) <==> sha(other) == sha(password)
  {
    sha(password)
  }

  ghost predicate Injective(sha: string -> string) {
    forall p, q :: sha(p) == sha(q) ==> p == q
  }

  /** With a collision-free digest, a hash verifies only its own password. */
  lemma VerifyRejectsOtherPassword(sha: string -> string, p: string, q: string)
    requires Injective(sha) && p != q
    ensures !VerifyPassword(sha, p, HashPassword(sha, q))
  {
  }

  // ---------------------------------------------------------------------
  // Lookups

  /** Index of the first row satisfying `matches`, or -1: the row
      `.first()` returns for a filtered query. */
  function FirstMatch(db: seq<PyUser>, matches: PyUser -> bool): (i: int)
    ensures -1 <= i < |db|
    ensures i >= 0 ==> matches(db[i])
    ensures forall k :: 0 <= k < |db| && (i < 0 || k < i) ==> !matches(db[k])
  {
    if |db| == 0 then -1
    else if matches(db[0]) then 0
    else
      var j := FirstMatch(db[1..], matches);
      if j < 0 then -1 else j + 1
  }

  /** Index of the first row whose e-mail is `email`, or -1. */
  function IndexOfEmail(db: seq<PyUser>, email: string): int {
    FirstMatch(db, (u: PyUser) => u.email == email)
  }

  /** Index of the first row whose id is `id`, or -1. */
  function IndexOfId(db: seq<PyUser>, id: string): int {
    FirstMatch(db, (u: PyUser) => u.id == id)
  }

  /** `get_user_by_email`: the first row with that e-mail, if any. */
  function GetUserByEmail(db: seq<PyUser>, email: string): (r: Option<PyUser>)
    ensures r.None? <==> forall k :: 0 <= k < |db| ==> db[k].email != email
    ensures r.Some? ==> r.value in db && r.value.email == email
  {
    var i := IndexOfEmail(db, email);
    if i < 0 then None else Some(db[i])
  }

  /** `get_user_by_id`. */
  function GetUserById(db: seq<PyUser>, id: string): (r: Option<PyUser>)
    ensures r.None? <==> forall k :: 0 <= k < |db| ==> db[k].id != id
    ensures r.Some? ==> r.value in db && r.value.id == id
  {
    var i := IndexOfId(db, id);
    if i < 0 then None else Some(db[i])
  }

  // ---------------------------------------------------------------------
  // create_user

  /** The commit fails on the primary key or the UNIQUE e-mail column. */
  datatype IntegrityError = IntegrityError

  /** `create_user`: no checks of its own; the row stores the digest of the
      password, never the password itself, and `is_active` defaults to true.
      The generated id is a parameter. A clash with an existing id or e-mail
      makes the commit raise and the table stays as it was. */
  function CreateUser(sha: string -> string, db: seq<PyUser>, id: string, email: string, password: string,
                      name: string, software: string, hardware: string, learningGoal: Option<string>)
    : (r: Result<(PyUser, seq<PyUser>), IntegrityError>)
    ensures r.Err? <==> GetUserById(db, id).Some? || GetUserByEmail(db, email).Some?
    ensures r.Ok? ==> && r.value.1 == db + [r.value.0]
                      && r.value.0 == PyUser(id, email, name, HashPassword(sha, password), software, hardware, learningGoal, true)
                      && VerifyPassword(sha, password, r.value.0.passwordHash)
  {
    if IndexOfId(db, id) >= 0 || IndexOfEmail(db, email) >= 0 then Err(IntegrityError)
    else
      var u := PyUser(id, email, name, HashPassword(sha, password), software, hardware, learningGoal, true);
      Ok((u, db + [u]))
  }

  // ---------------------------------------------------------------------
  // update_user_profile

  /** The assignments of `update_user_profile`: each field changes only when
      given a truthy value. */
  function ApplyUpdate(u: PyUser, software: Option<string>, hardware: Option<string>, learningGoal: Option<string>): (u': PyUser)
    ensures u'.software == (if Text.Truthy(software) then software.value else u.software)
    ensures u'.hardware == (if Text.Truthy(hardware) then hardware.value else u.hardware)
    ensures u'.learningGoal == (if Text.Truthy(learningGoal) then learningGoal else u.learningGoal)
    ensures u' == u.(software := u'.software, hardware := u'.hardware, learningGoal := u'.learningGoal)
  {
    u.(software := if Text.Truthy(software) then software.value else u.software,
       hardware := if Text.Truthy(hardware) then hardware.value else u.hardware,
       learningGoal := if Text.Truthy(learningGoal) then learningGoal else u.learningGoal)
  }

  /** `update_user_profile`: `None` and an unchanged table when no row has
      the id; otherwise the first such row is updated in place, and the
      updated row is returned. Id, e-mail, name and password hash never
      change, and no other row changes. */
  function UpdateUserProfile(db: seq<PyUser>, userId: string, software: Option<string>,
                             hardware: Option<string>, learningGoal: Option<string>): (r: (Option<PyUser>, seq<PyUser>))
    ensures GetUserById(db, userId).None? ==> r == (None, db)
    ensures GetUserById(db, userId).Some? ==>
      var i := IndexOfId(db, userId);
      && 0 <= i && |r.1| == |db|
      && r.0 == Some(r.1[i])
      && (forall k :: 0 <= k < |db| && k != i ==> r.1[k] == db[k])
      && r.1[i].id == db[i].id && r.1[i].email == db[i].email && r.1[i].name == db[i].name
      && r.1[i].passwordHash == db[i].passwordHash && r.1[i].isActive == db[i].isActive
      && r.1[i] == ApplyUpdate(db[i], software, hardware, learningGoal)
  {
    var i := IndexOfId(db, userId);
    if i < 0 then (None, db)
    else
      var u := ApplyUpdate(db[i], software, hardware, learningGoal);
      (Some(u), db[i := u])
  }

  /** Once set, a learning goal cannot be cleared through the backend: any
      update leaves some goal in place. */
  lemma GoalNeverCleared(db: seq<PyUser>, userId: string, software: Option<string>,
                         hardware: Option<string>, learningGoal: Option<string>)
    requires GetUserById(db, userId).Some? && GetUserById(db, userId).value.learningGoal.Some?
    ensures UpdateUserProfile(db, userId, software, hardware, learningGoal).0.value.learningGoal.Some?
  {
  }

  /** The backend and the Node `/profile` route agree on the two backgrounds
      and disagree on the learning goal: given no goal, Node clears it while
      the backend keeps the old one. */
  lemma ProfileSemanticsContrast(nu: Store.User, pu: PyUser, b: Fields.ProfileBody)
    requires nu.software == pu.software && nu.hardware == pu.hardware && nu.learningGoal == pu.learningGoal
    ensures var n := Routes.ApplyProfile(nu, b);
      var p := ApplyUpdate(pu, Fields.AsOption(b.software), Fields.AsOption(b.hardware), Fields.AsOption(b.learningGoal));
      && n.software == p.software && n.hardware == p.hardware
      && (n.learningGoal == p.learningGoal <==> Fields.JsTruthy(b.learningGoal) || pu.learningGoal.None?)
  {
  }
}
