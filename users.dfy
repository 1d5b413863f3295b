/** The user administration handlers of server/routes/users.js: the listing, the admin's
    creation with its duplicate check, the self-or-admin COALESCE update and the soft
    delete (deactivation). The account validators are shared with registration. */
module Users {
  import opened Wrappers
  import opened Schema
  import opened Engine
  import opened Ordering
  import opened Queries
  import opened Store
  import opened AuthMiddleware
  import opened Js

  const MinPasswordLength := 8

  // ---------------------------------------------------------------------------------
  // Body validators
  // ---------------------------------------------------------------------------------

  /** `body(field).trim().notEmpty()`: present and not blank; the sanitizer leaves the
      trimmed text in the body, so that is what gets stored. */
  predicate NameValid(v: Option<string>) {
    v.Some? && Trim(v.value) != ""
  }

  /** The validators of a new account: the address passed `isEmail` (judged outside the
      model, on the address `normalizeEmail` produced), a password of at least eight
      characters, and non-blank first and last names. */
  predicate AccountValid(emailOk: bool, password: Option<string>, firstName: Option<string>, lastName: Option<string>) {
    emailOk && password.Some? && |password.value| >= MinPasswordLength && NameValid(firstName) && NameValid(lastName)
  }

  /** The admin's creation adds `body('role').isIn(...)`: the role is required and must be
      in the closed set. */
  predicate CreateValid(emailOk: bool, password: Option<string>, firstName: Option<string>, lastName: Option<string>,
                        role: Option<string>)
  {
    AccountValid(emailOk, password, firstName, lastName) && role.Some? && role.value in Roles
  }

  // ---------------------------------------------------------------------------------
  // GET /
  // ---------------------------------------------------------------------------------

  /** The listing holds every user, active or not, newest first; its rows carry no
      password hash (the row type has no such column). */
  lemma ListedUsersSpec(t: Tables)
    ensures var r := ListedUsers(t);
      && (forall i :: 0 <= i < |r| ==>
            && r[i].AccountRow? && r[i].id in t.users
            && var u := t.users[r[i].id];
            && r[i].email == u.email && r[i].role == u.role && r[i].active == u.active
            && r[i].lastLogin == u.lastLogin && r[i].createdAt == u.createdAt)
      && (forall i, j :: 0 <= i < j < |r| ==> r[i].createdAt >= r[j].createdAt)
      && (forall k :: k in t.users ==> exists i :: 0 <= i < |r| && r[i].id == k)
  {
    var s := Listing(t.users, Anything(), UserNewer, -1, 0);
    NewestFirstOrders();
    ListingSpec(t.users, Anything(), UserNewer, -1, 0);
    forall k | k in t.users ensures (k, t.users[k]) in s {
      assert Anything<User>()(t.users[k]);
    }
    AccountRowsSpec(t.users, s);
  }

  /** The account rows of an ordered, complete scan of `users`. */
  lemma AccountRowsSpec(users: map<int, User>, s: seq<(int, User)>)
    requires forall e :: e in s ==> e.0 in users && e.1 == users[e.0]
    requires forall i, j :: 0 <= i < j < |s| ==> UserNewer(s[i].1, s[j].1)
    requires forall k :: k in users ==> (k, users[k]) in s
    ensures var r := AccountRows(s);
      && (forall i :: 0 <= i < |r| ==>
            && r[i].AccountRow? && r[i].id in users
            && var u := users[r[i].id];
            && r[i].email == u.email && r[i].role == u.role && r[i].active == u.active
            && r[i].lastLogin == u.lastLogin && r[i].createdAt == u.createdAt)
      && (forall i, j :: 0 <= i < j < |r| ==> r[i].createdAt >= r[j].createdAt)
      && (forall k :: k in users ==> exists i :: 0 <= i < |r| && r[i].id == k)
  {
    var r := AccountRows(s);
    forall i | 0 <= i < |r| ensures r[i].id in users && users[r[i].id] == s[i].1 {
      assert s[i] in s;
    }
    forall k | k in users ensures exists i :: 0 <= i < |r| && r[i].id == k {
      var i :| 0 <= i < |s| && s[i] == (k, users[k]);
      assert r[i].id == k;
    }
  }

  /** GET /, behind `authenticate` and `requireRole(['admin', 'manager'])`. */
  method List(db: Database, caller: Principal) returns (code: int, users: seq<Row>)
    requires db.Valid() && db.initialized
    ensures RequireManager(Some(caller)).Some? ==> code == 403 && users == []
    ensures RequireManager(Some(caller)).None? ==> code == 200 && users == ListedUsers(db.tables)
  {
    if RequireManager(Some(caller)).Some? {
      return 403, [];
    }
    EvalListUsers(db.tables);
    var rows := db.All(ListUsers);
    code := 200;
    users := if rows.Ok? then rows.value else [];
  }

  // ---------------------------------------------------------------------------------
  // POST /
  // ---------------------------------------------------------------------------------

  /** The INSERT of the admin's creation: the trimmed names, the role given and
      `department || null`; `hash` is the bcrypt hash of the password. */
  function CreateStatement(email: string, hash: string, firstName: string, lastName: string, role: string,
                           department: Option<string>): Statement
  {
    InsertUser(email, hash, Trim(firstName), Trim(lastName), Some(role), OrNull(department))
  }

  /** A creation with a fresh address and a role from the set adds exactly one active
      user at the next id, with that role and address, and changes nothing else;
      afterwards the address is taken. */
  lemma CreateEffect(t: Tables, email: string, hash: string, firstName: string, lastName: string, role: string,
                     department: Option<string>, now: Time)
    requires TableNames <= t.schema && !EmailTaken(t.users, email) && role in Roles
    ensures var r := Exec(t, CreateStatement(email, hash, firstName, lastName, role, department), now);
      var id := t.userSeq + 1;
      && r.Ok? && r.value.inserted == Some(id)
      && r.value.tables == t.(users := t.users[id := r.value.tables.users[id]], userSeq := id)
      && var u := r.value.tables.users[id];
      && u.email == email && u.role == role && u.active && u.lastLogin.None?
      && u.firstName == Trim(firstName) && u.lastName == Trim(lastName)
      && u.department == (if Truthy(department) then department else None)
      && EmailTaken(r.value.tables.users, email)
  {
    var u := NewUser(email, hash, Trim(firstName), Trim(lastName), Some(role), OrNull(department), now);
    var id := t.userSeq + 1;
    CreateExec(t, email, hash, firstName, lastName, role, department, now);
    assert t.users[id := u][id] == u;
    assert u.email == email && u.role == role && u.active && u.lastLogin.None?;
  }

  /** The INSERT of a fresh address with a role from the set succeeds at the next id. */
  lemma CreateExec(t: Tables, email: string, hash: string, firstName: string, lastName: string, role: string,
                   department: Option<string>, now: Time)
    requires TableNames <= t.schema && !EmailTaken(t.users, email) && role in Roles
    ensures var u := NewUser(email, hash, Trim(firstName), Trim(lastName), Some(role), OrNull(department), now);
      Exec(t, CreateStatement(email, hash, firstName, lastName, role, department), now)
        == Ok(Effect(t.(users := t.users[t.userSeq + 1 := u], userSeq := t.userSeq + 1), Some(t.userSeq + 1), 1))
  {
    assert UserValuesOk(NewUser(email, hash, Trim(firstName), Trim(lastName), Some(role), OrNull(department), now));
  }

  /** POST /, behind `authenticate` and `requireRole(['admin'])`. */
  method Create(db: Database, caller: Principal, emailOk: bool, email: string, password: Option<string>,
                firstName: Option<string>, lastName: Option<string>, role: Option<string>,
                department: Option<string>, hash: string, now: Time)
    returns (code: int, id: Option<int>)
    requires db.Valid() && db.initialized
    modifies db
    ensures db.Valid() && db.initialized
    ensures RequireAdmin(Some(caller)).Some? ==> code == 403 && id.None? && unchanged(db)
    ensures RequireAdmin(Some(caller)).None? && !CreateValid(emailOk, password, firstName, lastName, role) ==>
      code == 400 && id.None? && unchanged(db)
    ensures RequireAdmin(Some(caller)).None? && CreateValid(emailOk, password, firstName, lastName, role)
            && EmailTaken(old(db.tables.users), email) ==>
      code == 409 && id.None? && unchanged(db)
    ensures RequireAdmin(Some(caller)).None? && CreateValid(emailOk, password, firstName, lastName, role)
            && !EmailTaken(old(db.tables.users), email) ==>
      var s := CreateStatement(email, hash, firstName.value, lastName.value, role.value, department);
      && db.tables == After(old(db.tables), s, now)
      && code == (if Exec(old(db.tables), s, now).Ok? then 201 else 500)
      && id == (if Exec(old(db.tables), s, now).Ok? then Some(db.lastInsertRowid) else None)
  {
    if RequireAdmin(Some(caller)).Some? {
      return 403, None;
    }
    if !CreateValid(emailOk, password, firstName, lastName, role) {
      return 400, None;
    }
    EvalUserByEmail(db.tables, email);
    var existing := db.Get(UserByEmail(email));
    if existing.Err? {
      return 500, None;
    }
    if existing.value.Some? {
      return 409, None;
    }
    var s := CreateStatement(email, hash, firstName.value, lastName.value, role.value, department);
    var result := db.Run(s, now);
    if result.Err? {
      return 500, None;
    }
    code := 201;
    id := Some(result.value.lastInsertRowid);
  }

  // ---------------------------------------------------------------------------------
  // PUT /:id
  // ---------------------------------------------------------------------------------

  /** Users may update themselves; admins may update anyone. */
  predicate MayUpdate(caller: Principal, id: int) {
    caller.role == "admin" || caller.id == id
  }

  /** The COALESCE arguments of the update. The validators' verdict is never read, but
      their `trim` sanitizers still rewrite the names that are present. */
  function PatchOf(firstName: Option<string>, lastName: Option<string>, department: Option<string>,
                   phone: Option<string>, role: Option<string>): UserPatch
  {
    UserPatch(Trimmed(firstName), Trimmed(lastName), department, phone, role)
  }

  /** The update of an existing user succeeds exactly when the merged role is in the
      closed set. It changes that row only: first and last name, department, phone and
      role each take the value given or keep the old one; email, password hash,
      is_active, last_login and creation time stay; updated_at becomes now. */
  lemma UserUpdateEffect(t: Tables, id: int, p: UserPatch, now: Time)
    requires TableNames <= t.schema && id in t.users
    ensures var r := Exec(t, Engine.UpdateUser(id, p), now);
      var o := t.users[id];
      && (r.Ok? <==> (if p.role.Some? then p.role.value else o.role) in Roles)
      && (r.Err? ==> r.error == CheckViolation)
      && (r.Ok? ==>
            var n := r.value.tables.users[id];
            && r.value.tables == t.(users := t.users[id := n])
            && n.firstName == (if p.firstName.Some? then p.firstName.value else o.firstName)
            && n.lastName == (if p.lastName.Some? then p.lastName.value else o.lastName)
            && n.department == (if p.department.Some? then p.department else o.department)
            && n.phone == (if p.phone.Some? then p.phone else o.phone)
            && n.role == (if p.role.Some? then p.role.value else o.role)
            && n.email == o.email && n.passwordHash == o.passwordHash && n.active == o.active
            && n.lastLogin == o.lastLogin && n.createdAt == o.createdAt
            && n.updatedAt == now)
  {
  }

  /** Nothing keeps a user who is not an admin from changing their own role: the guard
      lets the self-update through and only the CHECK bounds the value. */
  lemma SelfUpdateMayChangeRole(t: Tables, caller: Principal, role: string, now: Time)
    requires TableNames <= t.schema && caller.id in t.users && role in Roles
    ensures MayUpdate(caller, caller.id)
    ensures var r := Exec(t, Engine.UpdateUser(caller.id, PatchOf(None, None, None, None, Some(role))), now);
      r.Ok? && r.value.tables.users[caller.id].role == role
  {
  }

  /** PUT /:id, behind `authenticate`: 403 for someone else's row unless admin, then 404. */
  method Update(db: Database, caller: Principal, id: int, firstName: Option<string>, lastName: Option<string>,
                department: Option<string>, phone: Option<string>, role: Option<string>, now: Time)
    returns (code: int)
    requires db.Valid() && db.initialized
    modifies db
    ensures db.Valid() && db.initialized
    ensures !MayUpdate(caller, id) ==> code == 403 && unchanged(db)
    ensures MayUpdate(caller, id) && id !in old(db.tables.users) ==> code == 404 && unchanged(db)
    ensures MayUpdate(caller, id) && id in old(db.tables.users) ==>
      var s := Engine.UpdateUser(id, PatchOf(firstName, lastName, department, phone, role));
      && db.tables == After(old(db.tables), s, now)
      && code == (if Exec(old(db.tables), s, now).Ok? then 200 else 500)
  {
    if !MayUpdate(caller, id) {
      return 403;
    }
    EvalUserById(db.tables, id);
    var found := db.Get(UserById(id));
    if found.Err? {
      return 500;
    }
    if found.value.None? {
      return 404;
    }
    var result := db.Run(Engine.UpdateUser(id, PatchOf(firstName, lastName, department, phone, role)), now);
    code := if result.Ok? then 200 else 500;
  }

  // ---------------------------------------------------------------------------------
  // DELETE /:id
  // ---------------------------------------------------------------------------------

  /** Deactivation is a soft delete: the row stays with is_active 0 and a fresh
      updated_at, and since no row is deleted no foreign-key action fires; every other
      table is untouched. */
  lemma DeactivateEffect(t: Tables, id: int, now: Time)
    requires Consistent(t) && TableNames <= t.schema && id in t.users
    ensures var r := Exec(t, DeactivateUser(id), now);
      && r.Ok? && r.value.changes == 1
      && id in r.value.tables.users && !r.value.tables.users[id].active
      && r.value.tables == t.(users := t.users[id := t.users[id].(active := false, updatedAt := now)])
  {
  }

  /** DELETE /:id, behind `authenticate` and `requireRole(['admin'])`: an admin cannot
      deactivate themselves (400), then 404. */
  method Delete(db: Database, caller: Principal, id: int, now: Time) returns (code: int)
    requires db.Valid() && db.initialized
    modifies db
    ensures db.Valid() && db.initialized
    ensures RequireAdmin(Some(caller)).Some? ==> code == 403 && unchanged(db)
    ensures RequireAdmin(Some(caller)).None? && caller.id == id ==> code == 400 && unchanged(db)
    ensures RequireAdmin(Some(caller)).None? && caller.id != id && id !in old(db.tables.users) ==>
      code == 404 && unchanged(db)
    ensures RequireAdmin(Some(caller)).None? && caller.id != id && id in old(db.tables.users) ==>
      && db.tables == After(old(db.tables), DeactivateUser(id), now)
      && code == (if Exec(old(db.tables), DeactivateUser(id), now).Ok? then 200 else 500)
  {
    if RequireAdmin(Some(caller)).Some? {
      return 403;
    }
    if caller.id == id {
      return 400;
    }
    EvalUserById(db.tables, id);
    var found := db.Get(UserById(id));
    if found.Err? {
      return 500;
    }
    if found.value.None? {
      return 404;
    }
    var result := db.Run(DeactivateUser(id), now);
    code := if result.Ok? then 200 else 500;
  }
}
