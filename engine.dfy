/** The fixed, parameterised INSERT / UPDATE / DELETE statements the route handlers and
    the seeder send through `run` (server/database/init.js), and what SQLite does with each
    one under the schema of createTables: column defaults, CHECK, UNIQUE, AUTOINCREMENT
    and the foreign-key actions (restrict, CASCADE, SET NULL) with `PRAGMA foreign_keys`
    on. A statement either succeeds as a whole or fails and changes nothing. */
module Engine {
  import opened Wrappers
  import opened Schema

  /** Why a statement (or a read) throws. */
  datatype SqlError =
    | NotInitialized       // the module-level handle is still unset
    | NoSuchTable          // the statement names a table createTables has not made
    | CheckViolation       // a CHECK constraint fails
    | UniqueViolation      // a UNIQUE constraint fails
    | ForeignKeyViolation  // a FOREIGN KEY without an ON DELETE action would dangle

  /** A successful statement: the new contents, the row id an INSERT generated
      (`last_insert_rowid()`) and the number of rows it inserted, updated or deleted
      itself (`changes()`; rows touched by a foreign-key action are not counted). */
  datatype Effect = Effect(tables: Tables, inserted: Option<int>, changes: nat)

  /** The COALESCE arguments of the user update: `None` keeps the column. */
  datatype UserPatch = UserPatch(
    firstName: Option<string>, lastName: Option<string>, department: Option<string>,
    phone: Option<string>, role: Option<string>)

  /** The COALESCE arguments of the incident update. */
  datatype IncidentPatch = IncidentPatch(
    title: Option<string>, description: Option<string>, status: Option<string>,
    severity: Option<string>, assignedTo: Option<int>, correctiveActions: Option<string>,
    resolutionNotes: Option<string>)

  /** The COALESCE arguments of the document update. */
  datatype DocumentPatch = DocumentPatch(
    title: Option<string>, description: Option<string>, category: Option<string>,
    version: Option<string>)

  /** Every statement text the application runs, with its bound parameters.
      In an INSERT, `None` for a column that has a DEFAULT means the column is not
      named (the default applies); for any other column it binds NULL. */
  datatype Statement =
    | InsertUser(email: string, passwordHash: string, firstName: string, lastName: string,
                 role: Option<string>, department: Option<string>)
    | UpdateUser(id: int, userPatch: UserPatch)
    | DeactivateUser(id: int)
    | TouchLastLogin(id: int)
    | DeleteUser(id: int)
    | InsertIncident(title: string, description: Option<string>, kind: string, severity: string,
                     status: Option<string>, location: Option<string>, witnesses: Option<string>,
                     incidentDate: Option<string>, reporterId: Option<int>)
    | UpdateIncident(id: int, incidentPatch: IncidentPatch)
    | SetIncidentStatus(id: int, status: Option<string>)
    | DeleteIncident(id: int)
    | InsertPhoto(filename: string, originalName: Option<string>, mimeType: Option<string>,
                  fileSize: Option<int>, phase: Option<string>, description: Option<string>,
                  location: Option<string>, incidentId: Option<int>, uploadedBy: Option<int>)
    | DeletePhoto(id: int)
    | InsertModule(title: string, description: Option<string>, category: string,
                   durationMinutes: Option<int>, contentUrl: Option<string>,
                   difficulty: Option<string>, required: bool, createdBy: Option<int>)
    | DeleteModule(id: int)
    | InsertProgress(userId: int, moduleId: int, status: Option<string>, progress: Option<int>,
                     startedAt: Option<Time>, completedAt: Option<Time>, score: Option<int>)
    | SetProgress(userId: int, moduleId: int, value: Option<int>)
    | CompleteProgress(userId: int, moduleId: int, score: Option<int>)
    | InsertDocument(title: string, description: Option<string>, category: string,
                     filename: string, originalName: Option<string>, mimeType: Option<string>,
                     fileSize: Option<int>, version: Option<string>, uploadedBy: Option<int>)
    | UpdateDocument(id: int, documentPatch: DocumentPatch)
    | DeleteDocument(id: int)
    | InsertAuditLog(actor: Option<int>, action: string, entityType: string,
                     entityId: Option<int>, oldValues: Option<string>, newValues: Option<string>)

  // ---------------------------------------------------------------------------------
  // Row constructors and merges
  // ---------------------------------------------------------------------------------

  /** The row an INSERT INTO users writes: role and is_active take their defaults when
      not named, both timestamps are now, last_login and phone are NULL. */
  function NewUser(email: string, hash: string, first: string, last: string,
                   role: Option<string>, department: Option<string>, now: Time): (u: User)
    ensures u.role == (if role.Some? then role.value else DefaultRole)
    ensures u.active && u.lastLogin.None? && u.email == email
  {
    User(email, hash, first, last, role.GetOr(DefaultRole), department, None, true, None, now, now)
  }

  /** The user update: first_name, last_name, department, phone and role are
      COALESCE-merged, updated_at becomes now; email, password and is_active stay. */
  function MergeUser(o: User, p: UserPatch, now: Time): User {
    o.(firstName := p.firstName.GetOr(o.firstName),
       lastName := p.lastName.GetOr(o.lastName),
       department := Coalesce(p.department, o.department),
       phone := Coalesce(p.phone, o.phone),
       role := p.role.GetOr(o.role),
       updatedAt := now)
  }

  /** `resolved_at = CASE WHEN ? = 'resolved' THEN datetime('now') ELSE resolved_at END`. */
  function ResolvedAt(status: Option<string>, previous: Option<Time>, now: Time): Option<Time> {
    if status == Some("resolved") then Some(now) else previous
  }

  function NewIncident(title: string, description: Option<string>, kind: string, severity: string,
                       status: Option<string>, location: Option<string>, witnesses: Option<string>,
                       date: Option<string>, reporter: Option<int>, now: Time): Incident
  {
    Incident(title, description, kind, severity, Some(status.GetOr(DefaultIncidentStatus)),
             location, date, reporter, None, witnesses, None, None, None, now, now)
  }

  /** The incident update: seven COALESCE-merged columns, the resolved_at rule and a
      fresh updated_at; type, location, date, reporter and witnesses stay. */
  function MergeIncident(o: Incident, p: IncidentPatch, now: Time): Incident {
    o.(title := p.title.GetOr(o.title),
       description := Coalesce(p.description, o.description),
       status := Coalesce(p.status, o.status),
       severity := p.severity.GetOr(o.severity),
       assignedTo := Coalesce(p.assignedTo, o.assignedTo),
       correctiveActions := Coalesce(p.correctiveActions, o.correctiveActions),
       resolutionNotes := Coalesce(p.resolutionNotes, o.resolutionNotes),
       resolvedAt := ResolvedAt(p.status, o.resolvedAt, now),
       updatedAt := now)
  }

  /** The status update: the status is overwritten (NULL included), then the
      resolved_at rule and a fresh updated_at. */
  function WithStatus(o: Incident, status: Option<string>, now: Time): Incident {
    o.(status := status, resolvedAt := ResolvedAt(status, o.resolvedAt, now), updatedAt := now)
  }

  function NewModule(title: string, description: Option<string>, category: string,
                     duration: Option<int>, contentUrl: Option<string>, difficulty: Option<string>,
                     required: bool, createdBy: Option<int>, now: Time): Module
  {
    Module(title, description, category, duration, contentUrl,
           Some(difficulty.GetOr(DefaultDifficulty)), required, true, createdBy, now, now)
  }

  function NewProgress(userId: int, moduleId: int, status: Option<string>, progress: Option<int>,
                       startedAt: Option<Time>, completedAt: Option<Time>, score: Option<int>): Progress
  {
    Progress(userId, moduleId, Some(status.GetOr(DefaultProgressStatus)),
             Some(progress.GetOr(DefaultProgress)), startedAt, completedAt, score)
  }

  /** The progress update: the value is stored as given; `? >= 100` decides between
      'completed' (with a fresh completed_at) and 'in_progress' (completed_at kept).
      A NULL value compares as unknown, so it takes the ELSE branches. */
  function WithProgress(o: Progress, value: Option<int>, now: Time): Progress {
    var done := value.Some? && value.value >= 100;
    o.(progress := value,
       status := Some(if done then "completed" else "in_progress"),
       completedAt := if done then Some(now) else o.completedAt)
  }

  /** The completion update: completed, 100, completed_at now, the score as given. */
  function Completed(o: Progress, score: Option<int>, now: Time): Progress {
    o.(status := Some("completed"), progress := Some(100), completedAt := Some(now), score := score)
  }

  function NewDocument(title: string, description: Option<string>, category: string,
                       filename: string, originalName: Option<string>, mimeType: Option<string>,
                       fileSize: Option<int>, version: Option<string>, uploadedBy: Option<int>,
                       now: Time): Document
  {
    Document(title, description, category, filename, originalName, mimeType, fileSize,
             Some(version.GetOr(DefaultVersion)), true, uploadedBy, now, now)
  }

  /** The document update: title, description, category and version COALESCE-merged,
      a fresh updated_at; file columns and is_active stay. */
  function MergeDocument(o: Document, p: DocumentPatch, now: Time): Document {
    o.(title := p.title.GetOr(o.title),
       description := Coalesce(p.description, o.description),
       category := p.category.GetOr(o.category),
       version := Coalesce(p.version, o.version),
       updatedAt := now)
  }

  // ---------------------------------------------------------------------------------
  // Constraint checking
  // ---------------------------------------------------------------------------------

  /** SQLite checks CHECK constraints first, then UNIQUE indexes, then foreign keys. */
  function FirstViolation(valuesOk: bool, clash: bool, refsOk: bool): (r: Option<SqlError>)
    ensures r.None? <==> valuesOk && !clash && refsOk
    ensures !valuesOk ==> r == Some(CheckViolation)
    ensures valuesOk && clash ==> r == Some(UniqueViolation)
  {
    if !valuesOk then Some(CheckViolation)
    else if clash then Some(UniqueViolation)
    else if !refsOk then Some(ForeignKeyViolation)
    else None
  }

  /** Keys of the progress rows of one (user, module) pair. */
  function PairKeys(progress: map<int, Progress>, userId: int, moduleId: int): set<int> {
    set k | k in progress && progress[k].userId == userId && progress[k].moduleId == moduleId
  }

  /** Does some row reference user `id` through a foreign key without an ON DELETE action? */
  predicate UserReferenced(t: Tables, id: int) {
    || (exists k :: k in t.incidents && (t.incidents[k].reporterId == Some(id) || t.incidents[k].assignedTo == Some(id)))
    || (exists k :: k in t.photos && t.photos[k].uploadedBy == Some(id))
    || (exists k :: k in t.modules && t.modules[k].createdBy == Some(id))
    || (exists k :: k in t.documents && t.documents[k].uploadedBy == Some(id))
  }

  // ---------------------------------------------------------------------------------
  // Statements
  // ---------------------------------------------------------------------------------

  function AddUser(t: Tables, u: User): Result<Effect, SqlError> {
    match FirstViolation(UserValuesOk(u), EmailTaken(t.users, u.email), true)
    case Some(e) => Err(e)
    case None =>
      var id := t.userSeq + 1;
      Ok(Effect(t.(users := t.users[id := u], userSeq := id), Some(id), 1))
  }

  /** An UPDATE of one users row by id; email never changes, so UNIQUE cannot fail. */
  function ReplaceUser(t: Tables, id: int, n: User): Result<Effect, SqlError> {
    if id !in t.users then Ok(Effect(t, None, 0))
    else if !UserValuesOk(n) then Err(CheckViolation)
    else Ok(Effect(t.(users := t.users[id := n]), None, 1))
  }

  function RemoveUser(t: Tables, id: int): Result<Effect, SqlError> {
    if id !in t.users then Ok(Effect(t, None, 0))
    else if UserReferenced(t, id) then Err(ForeignKeyViolation)
    else
      var progress := map k | k in t.progress && t.progress[k].userId != id :: t.progress[k];
      var logs := map k | k in t.auditLogs ::
        if t.auditLogs[k].userId == Some(id) then t.auditLogs[k].(userId := None) else t.auditLogs[k];
      Ok(Effect(t.(users := t.users - {id}, progress := progress, auditLogs := logs), None, 1))
  }

  function AddIncident(t: Tables, i: Incident): Result<Effect, SqlError> {
    match FirstViolation(IncidentValuesOk(i), false, IncidentRefsOk(i, t.users))
    case Some(e) => Err(e)
    case None =>
      var id := t.incidentSeq + 1;
      Ok(Effect(t.(incidents := t.incidents[id := i], incidentSeq := id), Some(id), 1))
  }

  function ReplaceIncident(t: Tables, id: int, n: Incident): Result<Effect, SqlError> {
    if id !in t.incidents then Ok(Effect(t, None, 0))
    else match FirstViolation(IncidentValuesOk(n), false, IncidentRefsOk(n, t.users))
      case Some(e) => Err(e)
      case None => Ok(Effect(t.(incidents := t.incidents[id := n]), None, 1))
  }

  function RemoveIncident(t: Tables, id: int): Result<Effect, SqlError> {
    if id !in t.incidents then Ok(Effect(t, None, 0))
    else
      var photos := map k | k in t.photos ::
        if t.photos[k].incidentId == Some(id) then t.photos[k].(incidentId := None) else t.photos[k];
      Ok(Effect(t.(incidents := t.incidents - {id}, photos := photos), None, 1))
  }

  function AddPhoto(t: Tables, p: Photo): Result<Effect, SqlError> {
    match FirstViolation(PhotoValuesOk(p), false, PhotoRefsOk(p, t.incidents, t.users))
    case Some(e) => Err(e)
    case None =>
      var id := t.photoSeq + 1;
      Ok(Effect(t.(photos := t.photos[id := p], photoSeq := id), Some(id), 1))
  }

  function RemovePhoto(t: Tables, id: int): Result<Effect, SqlError> {
    if id !in t.photos then Ok(Effect(t, None, 0))
    else Ok(Effect(t.(photos := t.photos - {id}), None, 1))
  }

  function AddModule(t: Tables, m: Module): Result<Effect, SqlError> {
    match FirstViolation(ModuleValuesOk(m), false, ModuleRefsOk(m, t.users))
    case Some(e) => Err(e)
    case None =>
      var id := t.moduleSeq + 1;
      Ok(Effect(t.(modules := t.modules[id := m], moduleSeq := id), Some(id), 1))
  }

  function RemoveModule(t: Tables, id: int): Result<Effect, SqlError> {
    if id !in t.modules then Ok(Effect(t, None, 0))
    else
      var progress := map k | k in t.progress && t.progress[k].moduleId != id :: t.progress[k];
      Ok(Effect(t.(modules := t.modules - {id}, progress := progress), None, 1))
  }

  function AddProgress(t: Tables, p: Progress): Result<Effect, SqlError> {
    match FirstViolation(ProgressValuesOk(p), PairTaken(t.progress, p.userId, p.moduleId),
                         ProgressRefsOk(p, t.users, t.modules))
    case Some(e) => Err(e)
    case None =>
      var id := t.progressSeq + 1;
      Ok(Effect(t.(progress := t.progress[id := p], progressSeq := id), Some(id), 1))
  }

  /** An UPDATE ... WHERE user_id = ? AND module_id = ? applying `f` to each matching row.
      The statuses it writes are literals of the CHECK set, so it cannot fail. */
  function UpdatePair(t: Tables, userId: int, moduleId: int, f: Progress -> Progress): Effect {
    var progress := map k | k in t.progress ::
      if t.progress[k].userId == userId && t.progress[k].moduleId == moduleId
      then f(t.progress[k]) else t.progress[k];
    Effect(t.(progress := progress), None, |PairKeys(t.progress, userId, moduleId)|)
  }

  function AddDocument(t: Tables, d: Document): Result<Effect, SqlError> {
    match FirstViolation(DocumentValuesOk(d), false, DocumentRefsOk(d, t.users))
    case Some(e) => Err(e)
    case None =>
      var id := t.documentSeq + 1;
      Ok(Effect(t.(documents := t.documents[id := d], documentSeq := id), Some(id), 1))
  }

  function ReplaceDocument(t: Tables, id: int, n: Document): Result<Effect, SqlError> {
    if id !in t.documents then Ok(Effect(t, None, 0))
    else match FirstViolation(DocumentValuesOk(n), false, DocumentRefsOk(n, t.users))
      case Some(e) => Err(e)
      case None => Ok(Effect(t.(documents := t.documents[id := n]), None, 1))
  }

  function RemoveDocument(t: Tables, id: int): Result<Effect, SqlError> {
    if id !in t.documents then Ok(Effect(t, None, 0))
    else Ok(Effect(t.(documents := t.documents - {id}), None, 1))
  }

  function AddAuditLog(t: Tables, a: AuditLog): Result<Effect, SqlError> {
    if !AuditRefsOk(a, t.users) then Err(ForeignKeyViolation)
    else
      var id := t.auditSeq + 1;
      Ok(Effect(t.(auditLogs := t.auditLogs[id := a], auditSeq := id), Some(id), 1))
  }

  /** What SQLite does with one statement at time `now` (the value of `datetime('now')`). */
  function Exec(t: Tables, s: Statement, now: Time): Result<Effect, SqlError> {
    if !(TableNames <= t.schema) then Err(NoSuchTable)
    else match s
      case InsertUser(email, hash, first, last, role, dept) =>
        AddUser(t, NewUser(email, hash, first, last, role, dept, now))
      case UpdateUser(id, p) =>
        if id in t.users then ReplaceUser(t, id, MergeUser(t.users[id], p, now)) else Ok(Effect(t, None, 0))
      case DeactivateUser(id) =>
        if id in t.users then ReplaceUser(t, id, t.users[id].(active := false, updatedAt := now))
        else Ok(Effect(t, None, 0))
      case TouchLastLogin(id) =>
        if id in t.users then ReplaceUser(t, id, t.users[id].(lastLogin := Some(now)))
        else Ok(Effect(t, None, 0))
      case DeleteUser(id) => RemoveUser(t, id)
      case InsertIncident(title, desc, kind, sev, status, loc, wit, date, rep) =>
        AddIncident(t, NewIncident(title, desc, kind, sev, status, loc, wit, date, rep, now))
      case UpdateIncident(id, p) =>
        if id in t.incidents then ReplaceIncident(t, id, MergeIncident(t.incidents[id], p, now))
        else Ok(Effect(t, None, 0))
      case SetIncidentStatus(id, status) =>
        if id in t.incidents then ReplaceIncident(t, id, WithStatus(t.incidents[id], status, now))
        else Ok(Effect(t, None, 0))
      case DeleteIncident(id) => RemoveIncident(t, id)
      case InsertPhoto(file, orig, mime, size, phase, desc, loc, inc, owner) =>
        AddPhoto(t, Photo(file, orig, mime, size, phase, desc, loc, inc, owner, now))
      case DeletePhoto(id) => RemovePhoto(t, id)
      case InsertModule(title, desc, cat, dur, url, diff, req, owner) =>
        AddModule(t, NewModule(title, desc, cat, dur, url, diff, req, owner, now))
      case DeleteModule(id) => RemoveModule(t, id)
      case InsertProgress(u, m, status, progress, started, completed, score) =>
        AddProgress(t, NewProgress(u, m, status, progress, started, completed, score))
      case SetProgress(u, m, value) => Ok(UpdatePair(t, u, m, p => WithProgress(p, value, now)))
      case CompleteProgress(u, m, score) => Ok(UpdatePair(t, u, m, p => Completed(p, score, now)))
      case InsertDocument(title, desc, cat, file, orig, mime, size, version, owner) =>
        AddDocument(t, NewDocument(title, desc, cat, file, orig, mime, size, version, owner, now))
      case UpdateDocument(id, p) =>
        if id in t.documents then ReplaceDocument(t, id, MergeDocument(t.documents[id], p, now))
        else Ok(Effect(t, None, 0))
      case DeleteDocument(id) => RemoveDocument(t, id)
      case InsertAuditLog(actor, action, entityType, entityId, oldValues, newValues) =>
        AddAuditLog(t, AuditLog(actor, action, entityType, entityId, oldValues, newValues, now))
  }
}
