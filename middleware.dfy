/** server/middleware/auth.js: the Bearer-token parse of the Authorization header
    (section 2.1 of RFC 6750), `authenticate` and `optionalAuth`, which look the token's
    user up among the active users, and the role gates `requireRole`, `requireAdmin`
    and `requireManager`. Token verification (`jwt.verify`) is a parameter. */
module AuthMiddleware {
  import opened Wrappers
  import opened Schema
  import opened Engine
  import opened Queries
  import opened Store

  /** What `jwt.verify` makes of a token: the user id it carries, or the error it
      throws (`TokenExpiredError` or any other). */
  datatype Verification = Verified(userId: int) | Expired | Malformed

  /** `req.user` as the handlers use it: the id and role of a users row. */
  datatype Principal = Principal(id: int, role: string)

  /** A request that got through: its user and its token (`req.user`, `req.token`). */
  datatype Session = Session(user: Principal, token: string)

  /** A request turned away: the status code and the message of the JSON body. */
  datatype Rejection = Rejection(status: int, message: string)

  const BearerPrefix := "Bearer "

  /** `s` up to (not including) its first space. */
  function Field(s: string): (r: string)
    ensures r <= s && ' ' !in r
    ensures |r| < |s| ==> s[|r|] == ' '
  {
    if s == [] || s[0] == ' ' then [] else [s[0]] + Field(s[1..])
  }

  /** The token of an Authorization header, `authHeader.split(' ')[1]`: there is one
      only when the header starts with "Bearer ", and it is the text after that prefix
      up to the next space. */
  function BearerToken(header: Option<string>): (r: Option<string>)
    ensures r.Some? <==> header.Some? && BearerPrefix <= header.value
    ensures r.Some? ==> ' ' !in r.value && BearerPrefix + r.value <= header.value
    ensures r.Some? && |BearerPrefix| + |r.value| < |header.value| ==>
      header.value[|BearerPrefix| + |r.value|] == ' '
  {
    if header.Some? && BearerPrefix <= header.value then
      var rest := header.value[|BearerPrefix|..];
      assert header.value == BearerPrefix + rest;
      Some(Field(rest))
    else None
  }

  lemma {:induction false} FieldOf(token: string, rest: string)
    requires ' ' !in token && (rest == [] || rest[0] == ' ')
    ensures Field(token + rest) == token
  {
    if token != [] {
      assert (token + rest)[1..] == token[1..] + rest;
      FieldOf(token[1..], rest);
    } else {
      assert token + rest == rest;
    }
  }

  /** The header a client builds, "Bearer " + token (optionally followed by a space and
      more text), gives the token back. */
  lemma BearerRoundTrip(token: string, rest: string)
    requires ' ' !in token && (rest == [] || rest[0] == ' ')
    ensures BearerToken(Some(BearerPrefix + token + rest)) == Some(token)
  {
    var h := BearerPrefix + token + rest;
    assert h[|BearerPrefix|..] == token + rest;
    FieldOf(token, rest);
  }

  /** `id` names a users row with `is_active = 1`. */
  predicate ActiveUser(t: Tables, id: int) {
    id in t.users && t.users[id].active
  }

  /** `caller` is the user `authenticate` attaches for id `caller.id`. */
  predicate Authenticated(t: Tables, caller: Principal) {
    ActiveUser(t, caller.id) && t.users[caller.id].role == caller.role
  }

  /** `db.get(... FROM users WHERE id = ? AND is_active = 1)` as a principal. */
  method LookupActive(db: Database, id: int) returns (r: Option<Principal>)
    requires db.Valid() && db.initialized
    ensures r.Some? <==> ActiveUser(db.tables, id)
    ensures r.Some? ==> r.value == Principal(id, db.tables.users[id].role)
  {
    var row := db.Get(ActiveUserById(id));
    r := None;
    if row.Ok? && row.value.Some? && row.value.value.UserRow? {
      r := Some(Principal(row.value.value.id, row.value.value.user.role));
    }
  }

  /** `authenticate`: 401 with "No token provided" without a Bearer header, with "Token
      expired" or "Invalid token" when verification throws, with "User not found or
      inactive" when the token's user is not an active row; otherwise the request goes
      on with that user attached. */
  method Authenticate(db: Database, header: Option<string>, verify: string -> Verification)
    returns (r: Result<Session, Rejection>)
    requires db.Valid() && db.initialized
    ensures r.Err? ==> r.error.status == 401
    ensures BearerToken(header).None? ==> r == Err(Rejection(401, "No token provided"))
    ensures BearerToken(header).Some? && verify(BearerToken(header).value) == Expired ==>
      r == Err(Rejection(401, "Token expired"))
    ensures BearerToken(header).Some? && verify(BearerToken(header).value) == Malformed ==>
      r == Err(Rejection(401, "Invalid token"))
    ensures r.Ok? <==>
      && BearerToken(header).Some?
      && verify(BearerToken(header).value).Verified?
      && ActiveUser(db.tables, verify(BearerToken(header).value).userId)
    ensures r.Ok? ==>
      && r.value.token == BearerToken(header).value
      && r.value.user.id == verify(r.value.token).userId
      && Authenticated(db.tables, r.value.user)
  {
    var token := BearerToken(header);
    if token.None? {
      return Err(Rejection(401, "No token provided"));
    }
    match verify(token.value)
    case Expired =>
      r := Err(Rejection(401, "Token expired"));
    case Malformed =>
      r := Err(Rejection(401, "Invalid token"));
    case Verified(userId) =>
      var user := LookupActive(db, userId);
      if user.None? {
        return Err(Rejection(401, "User not found or inactive"));
      }
      r := Ok(Session(user.value, token.value));
  }

  /** `optionalAuth`: never turns a request away; it attaches a user exactly when
      `authenticate` would have. */
  method OptionalAuth(db: Database, header: Option<string>, verify: string -> Verification)
    returns (r: Option<Session>)
    requires db.Valid() && db.initialized
    ensures r.Some? <==>
      && BearerToken(header).Some?
      && verify(BearerToken(header).value).Verified?
      && ActiveUser(db.tables, verify(BearerToken(header).value).userId)
    ensures r.Some? ==>
      && r.value.token == BearerToken(header).value
      && r.value.user.id == verify(r.value.token).userId
      && Authenticated(db.tables, r.value.user)
  {
    r := None;
    var token := BearerToken(header);
    if token.Some? {
      var decoded := verify(token.value);
      if decoded.Verified? {
        var user := LookupActive(db, decoded.userId);
        if user.Some? {
          r := Some(Session(user.value, token.value));
        }
      }
    }
  }

  /** `requireRole(roles)`: `None` lets the request through; without a user it is 401,
      with a role outside `roles` 403. */
  function RequireRole(roles: seq<string>, user: Option<Principal>): (r: Option<Rejection>)
    ensures r.None? <==> user.Some? && user.value.role in roles
    ensures user.None? ==> r == Some(Rejection(401, "Authentication required"))
    ensures user.Some? && user.value.role !in roles ==> r == Some(Rejection(403, "Insufficient permissions"))
  {
    if user.None? then Some(Rejection(401, "Authentication required"))
    else if user.value.role !in roles then Some(Rejection(403, "Insufficient permissions"))
    else None
  }

  const AdminOnly: seq<string> := ["admin"]
  const AdminOrManager: seq<string> := ["admin", "manager"]

  function RequireAdmin(user: Option<Principal>): Option<Rejection> {
    RequireRole(AdminOnly, user)
  }

  function RequireManager(user: Option<Principal>): Option<Rejection> {
    RequireRole(AdminOrManager, user)
  }

  /** `requireAdmin` lets only admins through, `requireManager` admins and managers;
      whoever passes the first passes the second. */
  lemma RoleGates(user: Option<Principal>)
    ensures RequireAdmin(user).None? <==> user.Some? && user.value.role == "admin"
    ensures RequireManager(user).None? <==>
      user.Some? && (user.value.role == "admin" || user.value.role == "manager")
    ensures RequireAdmin(user).None? ==> RequireManager(user).None?
  {
  }
}
