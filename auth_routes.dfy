/** The account handlers of server/routes/auth.js: registration with its duplicate check
    and the login decision sequence with its `last_login` update. Password hashing and
    comparison are bcrypt's and token signing is JWT's; both stay outside the model (a
    hash is given, the comparison is a parameter, the token is not produced). */
module AuthRoutes {
  import opened Wrappers
  import opened Schema
  import opened Engine
  import opened Queries
  import opened Store
  import opened Js
  import opened Users

  // ---------------------------------------------------------------------------------
  // POST /register
  // ---------------------------------------------------------------------------------

  /** The INSERT of a registration: the trimmed names and `department || null`; the role
      is not named, so the column default applies. */
  function RegisterStatement(email: string, hash: string, firstName: string, lastName: string,
                             department: Option<string>): Statement
  {
    InsertUser(email, hash, Trim(firstName), Trim(lastName), None, OrNull(department))
  }

  /** A registration with a fresh address always succeeds: it adds one active user at
      the next id whose stored role is 'employee', the role the response reports, and
      changes nothing else. */
  lemma RegisterEffect(t: Tables, email: string, hash: string, firstName: string, lastName: string,
                       department: Option<string>, now: Time)
    requires TableNames <= t.schema && !EmailTaken(t.users, email)
    ensures var r := Exec(t, RegisterStatement(email, hash, firstName, lastName, department), now);
      var id := t.userSeq + 1;
      && r.Ok? && r.value.inserted == Some(id)
      && r.value.tables == t.(users := t.users[id := r.value.tables.users[id]], userSeq := id)
      && var u := r.value.tables.users[id];
      && u.role == RegisteredRole && u.active && u.lastLogin.None?
      && u.email == email && u.firstName == Trim(firstName) && u.lastName == Trim(lastName)
  {
    var u := NewUser(email, hash, Trim(firstName), Trim(lastName), None, OrNull(department), now);
    var id := t.userSeq + 1;
    assert UserValuesOk(u);
    assert Exec(t, RegisterStatement(email, hash, firstName, lastName, department), now)
      == Ok(Effect(t.(users := t.users[id := u], userSeq := id), Some(id), 1));
  }

  /** The role the registration response reports. */
  const RegisteredRole := "employee"

  /** POST /register. `hash` is the bcrypt hash of the password. On success the new id
      and the reported role are returned. */
  method Register(db: Database, emailOk: bool, email: string, password: Option<string>,
                  firstName: Option<string>, lastName: Option<string>, department: Option<string>,
                  hash: string, now: Time)
    returns (code: int, id: Option<int>, role: Option<string>)
    requires db.Valid() && db.initialized
    modifies db
    ensures db.Valid() && db.initialized
    ensures !AccountValid(emailOk, password, firstName, lastName) ==>
      code == 400 && id.None? && role.None? && unchanged(db)
    ensures AccountValid(emailOk, password, firstName, lastName) && EmailTaken(old(db.tables.users), email) ==>
      code == 409 && id.None? && role.None? && unchanged(db)
    ensures AccountValid(emailOk, password, firstName, lastName) && !EmailTaken(old(db.tables.users), email) ==>
      var s := RegisterStatement(email, hash, firstName.value, lastName.value, department);
      var ok := Exec(old(db.tables), s, now).Ok?;
      && db.tables == After(old(db.tables), s, now)
      && code == (if ok then 201 else 500)
      && id == (if ok then Some(db.lastInsertRowid) else None)
      && role == (if ok then Some(RegisteredRole) else None)
  {
    role := None;
    if !AccountValid(emailOk, password, firstName, lastName) {
      return 400, None, None;
    }
    EvalUserByEmail(db.tables, email);
    var existing := db.Get(UserByEmail(email));
    if existing.Err? {
      return 500, None, None;
    }
    if existing.value.Some? {
      return 409, None, None;
    }
    var s := RegisterStatement(email, hash, firstName.value, lastName.value, department);
    var result := db.Run(s, now);
    if result.Err? {
      return 500, None, None;
    }
    code := 201;
    id := Some(result.value.lastInsertRowid);
    role := Some(RegisteredRole);
  }

  // ---------------------------------------------------------------------------------
  // POST /login
  // ---------------------------------------------------------------------------------

  /** The login validators: an address that passed `isEmail` and a non-empty password. */
  predicate LoginValid(emailOk: bool, password: Option<string>) {
    emailOk && password.Some? && password.value != ""
  }

  /** `db.get('SELECT * FROM users WHERE email = ?')`: the id of the first row with that
      address, if any. */
  function FindByEmail(t: Tables, email: string): (r: Option<int>)
    ensures r.Some? <==> EmailTaken(t.users, email)
    ensures r.Some? ==> r.value in t.users && t.users[r.value].email == email
  {
    var rows := Matching(t.users, EmailIs(email));
    if rows == [] then None
    else
      assert rows[0] in rows;
      Some(rows[0].0)
  }

  /** Under `UNIQUE(email)` the row found is the only one with that address. */
  lemma FindByEmailUnique(t: Tables, email: string, k: int)
    requires UniqueEmails(t.users) && k in t.users && t.users[k].email == email
    ensures FindByEmail(t, email) == Some(k)
  {
  }

  /** The login's only write: last_login of that user becomes now, nothing else. */
  lemma TouchLastLoginEffect(t: Tables, id: int, now: Time)
    requires Consistent(t) && TableNames <= t.schema && id in t.users
    ensures var r := Exec(t, TouchLastLogin(id), now);
      && r.Ok? && r.value.changes == 1
      && r.value.tables == t.(users := t.users[id := t.users[id].(lastLogin := Some(now))])
  {
  }

  /** POST /login. `matches(password, hash)` is bcrypt's comparison. The checks run in
      order: validation (400), unknown address (401), disabled account (403, before the
      password is looked at), wrong password (401); none of them writes. A login that
      passes them all stamps last_login and returns the user's id. */
  method Login(db: Database, emailOk: bool, email: string, password: Option<string>,
               matches: (string, string) -> bool, now: Time)
    returns (code: int, userId: Option<int>)
    requires db.Valid() && db.initialized
    modifies db
    ensures db.Valid() && db.initialized
    ensures !LoginValid(emailOk, password) ==> code == 400 && userId.None? && unchanged(db)
    ensures LoginValid(emailOk, password) && !EmailTaken(old(db.tables.users), email) ==>
      code == 401 && userId.None? && unchanged(db)
    ensures LoginValid(emailOk, password) && EmailTaken(old(db.tables.users), email) ==>
      var k := FindByEmail(old(db.tables), email).value;
      var u := old(db.tables.users[k]);
      && (!u.active ==> code == 403 && userId.None? && unchanged(db))
      && (u.active && !matches(password.value, u.passwordHash) ==> code == 401 && userId.None? && unchanged(db))
      && (u.active && matches(password.value, u.passwordHash) ==>
            var ok := Exec(old(db.tables), TouchLastLogin(k), now).Ok?;
            && db.tables == After(old(db.tables), TouchLastLogin(k), now)
            && code == (if ok then 200 else 500)
            && userId == (if ok then Some(k) else None))
  {
    if !LoginValid(emailOk, password) {
      return 400, None;
    }
    EvalUserByEmail(db.tables, email);
    var found := db.Get(UserByEmail(email));
    if found.Err? {
      return 500, None;
    }
    if found.value.None? {
      return 401, None;
    }
    var row := found.value.value;
    if !row.UserRow? {
      return 500, None;
    }
    if !row.user.active {
      return 403, None;
    }
    if !matches(password.value, row.user.passwordHash) {
      return 401, None;
    }
    var result := db.Run(TouchLastLogin(row.id), now);
    if result.Err? {
      return 500, None;
    }
    code := 200;
    userId := Some(row.id);
  }
}
