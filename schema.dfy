/** The seven tables that `createTables` declares (server/database/init.js), their
    column defaults, the closed value sets of their CHECK constraints, and the integrity
    constraints (UNIQUE, FOREIGN KEY, AUTOINCREMENT) as one predicate on the store. */
module Schema {
  import opened Wrappers

  /** A `datetime('now')` value. Timestamps are ordered and supplied by the caller. */
  type Time = int

  // Closed value sets of the CHECK constraints.
  const Roles: set<string> := {"admin", "manager", "supervisor", "employee"}
  const IncidentTypes: set<string> :=
    {"injury", "near-miss", "property", "environmental", "equipment", "fire", "chemical", "other"}
  const Severities: set<string> := {"low", "medium", "high", "critical"}
  const IncidentStatuses: set<string> := {"reported", "investigating", "resolved", "closed"}
  const Phases: set<string> := {"pre", "during", "post"}
  const Difficulties: set<string> := {"beginner", "intermediate", "advanced"}
  const ProgressStatuses: set<string> := {"not_started", "in_progress", "completed"}
  const DocumentCategories: set<string> :=
    {"sds", "procedure", "policy", "permit", "checklist", "manual", "other"}

  // Column defaults.
  const DefaultRole := "employee"
  const DefaultIncidentStatus := "reported"
  const DefaultDifficulty := "beginner"
  const DefaultProgressStatus := "not_started"
  const DefaultProgress := 0
  const DefaultVersion := "1.0"

  /** A row of `users`; the row id is the key of the table map. */
  datatype User = User(
    email: string,
    passwordHash: string,
    firstName: string,
    lastName: string,
    role: string,
    department: Option<string>,
    phone: Option<string>,
    active: bool,
    lastLogin: Option<Time>,
    createdAt: Time,
    updatedAt: Time)

  /** A row of `incidents`. `kind` is the `type` column. */
  datatype Incident = Incident(
    title: string,
    description: Option<string>,
    kind: string,
    severity: string,
    status: Option<string>,
    location: Option<string>,
    incidentDate: Option<string>,
    reporterId: Option<int>,
    assignedTo: Option<int>,
    witnesses: Option<string>,
    correctiveActions: Option<string>,
    resolutionNotes: Option<string>,
    resolvedAt: Option<Time>,
    createdAt: Time,
    updatedAt: Time)

  /** A row of `photos`. */
  datatype Photo = Photo(
    filename: string,
    originalName: Option<string>,
    mimeType: Option<string>,
    fileSize: Option<int>,
    phase: Option<string>,
    description: Option<string>,
    location: Option<string>,
    incidentId: Option<int>,
    uploadedBy: Option<int>,
    createdAt: Time)

  /** A row of `training_modules`. */
  datatype Module = Module(
    title: string,
    description: Option<string>,
    category: string,
    durationMinutes: Option<int>,
    contentUrl: Option<string>,
    difficulty: Option<string>,
    required: bool,
    active: bool,
    createdBy: Option<int>,
    createdAt: Time,
    updatedAt: Time)

  /** A row of `training_progress`: one user's progress through one module. */
  datatype Progress = Progress(
    userId: int,
    moduleId: int,
    status: Option<string>,
    progress: Option<int>,
    startedAt: Option<Time>,
    completedAt: Option<Time>,
    score: Option<int>)

  /** A row of `documents`. */
  datatype Document = Document(
    title: string,
    description: Option<string>,
    category: string,
    filename: string,
    originalName: Option<string>,
    mimeType: Option<string>,
    fileSize: Option<int>,
    version: Option<string>,
    active: bool,
    uploadedBy: Option<int>,
    createdAt: Time,
    updatedAt: Time)

  /** A row of `audit_logs`. */
  datatype AuditLog = AuditLog(
    userId: Option<int>,
    action: string,
    entityType: string,
    entityId: Option<int>,
    oldValues: Option<string>,
    newValues: Option<string>,
    createdAt: Time)

  /** The whole store: the schema objects created so far, every table keyed by row id,
      and each table's AUTOINCREMENT counter (the largest id it ever handed out). */
  datatype Tables = Tables(
    schema: set<string>,
    users: map<int, User>, userSeq: nat,
    incidents: map<int, Incident>, incidentSeq: nat,
    photos: map<int, Photo>, photoSeq: nat,
    modules: map<int, Module>, moduleSeq: nat,
    progress: map<int, Progress>, progressSeq: nat,
    documents: map<int, Document>, documentSeq: nat,
    auditLogs: map<int, AuditLog>, auditSeq: nat)

  const TableNames: set<string> :=
    {"users", "incidents", "photos", "training_modules", "training_progress", "documents", "audit_logs"}

  const IndexNames: set<string> :=
    {"idx_users_email", "idx_users_role",
     "idx_incidents_status", "idx_incidents_severity", "idx_incidents_type",
     "idx_photos_phase",
     "idx_training_category",
     "idx_progress_user",
     "idx_documents_category",
     "idx_audit_user"}

  const SchemaObjects: set<string> := TableNames + IndexNames

  /** A fresh database file: no schema objects, no rows. */
  const Empty: Tables :=
    Tables({}, map[], 0, map[], 0, map[], 0, map[], 0, map[], 0, map[], 0, map[], 0)

  /** Every `CREATE TABLE IF NOT EXISTS` / `CREATE INDEX IF NOT EXISTS` of createTables:
      objects that exist are left alone, rows are never touched. */
  function CreateTables(t: Tables): (r: Tables)
    ensures SchemaObjects <= r.schema
    ensures r.(schema := t.schema) == t
    ensures SchemaObjects <= t.schema ==> r == t
  {
    t.(schema := t.schema + SchemaObjects)
  }

  // ---------------------------------------------------------------------------------
  // Integrity constraints
  // ---------------------------------------------------------------------------------

  /** A CHECK on a nullable column: NULL passes, any other value must be in the set. */
  predicate CheckIn(v: Option<string>, allowed: set<string>) {
    v.None? || v.value in allowed
  }

  /** A FOREIGN KEY column: NULL, or the id of a row of the parent table. */
  predicate RefOk<T>(r: Option<int>, parent: map<int, T>) {
    r.None? || r.value in parent
  }

  predicate UserValuesOk(u: User) { u.role in Roles }

  predicate IncidentValuesOk(i: Incident) {
    i.kind in IncidentTypes && i.severity in Severities && CheckIn(i.status, IncidentStatuses)
  }

  predicate IncidentRefsOk(i: Incident, users: map<int, User>) {
    RefOk(i.reporterId, users) && RefOk(i.assignedTo, users)
  }

  predicate PhotoValuesOk(p: Photo) { CheckIn(p.phase, Phases) }

  predicate PhotoRefsOk(p: Photo, incidents: map<int, Incident>, users: map<int, User>) {
    RefOk(p.incidentId, incidents) && RefOk(p.uploadedBy, users)
  }

  predicate ModuleValuesOk(m: Module) { CheckIn(m.difficulty, Difficulties) }

  predicate ModuleRefsOk(m: Module, users: map<int, User>) { RefOk(m.createdBy, users) }

  predicate ProgressValuesOk(p: Progress) { CheckIn(p.status, ProgressStatuses) }

  predicate ProgressRefsOk(p: Progress, users: map<int, User>, modules: map<int, Module>) {
    p.userId in users && p.moduleId in modules
  }

  predicate DocumentValuesOk(d: Document) { d.category in DocumentCategories }

  predicate DocumentRefsOk(d: Document, users: map<int, User>) { RefOk(d.uploadedBy, users) }

  predicate AuditRefsOk(a: AuditLog, users: map<int, User>) { RefOk(a.userId, users) }

  /** AUTOINCREMENT: every row id is positive and no larger than the table's counter. */
  predicate Keyed<T>(m: map<int, T>, counter: nat) {
    forall k :: k in m ==> 0 < k <= counter
  }

  /** Is some user row's email equal to `email`? */
  predicate EmailTaken(users: map<int, User>, email: string) {
    exists k :: k in users && users[k].email == email
  }

  /** Is there already a progress row for this user and module? */
  predicate PairTaken(progress: map<int, Progress>, userId: int, moduleId: int) {
    exists k :: k in progress && progress[k].userId == userId && progress[k].moduleId == moduleId
  }

  /** `email TEXT UNIQUE`. */
  predicate UniqueEmails(users: map<int, User>) {
    forall a, b :: a in users && b in users && users[a].email == users[b].email ==> a == b
  }

  /** `UNIQUE(user_id, module_id)`. */
  predicate UniquePairs(progress: map<int, Progress>) {
    forall a, b :: a in progress && b in progress
      && progress[a].userId == progress[b].userId && progress[a].moduleId == progress[b].moduleId
      ==> a == b
  }

  predicate CountersOk(t: Tables) {
    && Keyed(t.users, t.userSeq) && Keyed(t.incidents, t.incidentSeq)
    && Keyed(t.photos, t.photoSeq) && Keyed(t.modules, t.moduleSeq)
    && Keyed(t.progress, t.progressSeq) && Keyed(t.documents, t.documentSeq)
    && Keyed(t.auditLogs, t.auditSeq)
  }

  predicate UsersOk(t: Tables) {
    (forall k :: k in t.users ==> UserValuesOk(t.users[k])) && UniqueEmails(t.users)
  }

  predicate IncidentsOk(t: Tables) {
    forall k :: k in t.incidents ==>
      IncidentValuesOk(t.incidents[k]) && IncidentRefsOk(t.incidents[k], t.users)
  }

  predicate PhotosOk(t: Tables) {
    forall k :: k in t.photos ==>
      PhotoValuesOk(t.photos[k]) && PhotoRefsOk(t.photos[k], t.incidents, t.users)
  }

  predicate ModulesOk(t: Tables) {
    forall k :: k in t.modules ==>
      ModuleValuesOk(t.modules[k]) && ModuleRefsOk(t.modules[k], t.users)
  }

  predicate ProgressOk(t: Tables) {
    && (forall k :: k in t.progress ==>
          ProgressValuesOk(t.progress[k]) && ProgressRefsOk(t.progress[k], t.users, t.modules))
    && UniquePairs(t.progress)
  }

  predicate DocumentsOk(t: Tables) {
    forall k :: k in t.documents ==>
      DocumentValuesOk(t.documents[k]) && DocumentRefsOk(t.documents[k], t.users)
  }

  predicate AuditOk(t: Tables) {
    forall k :: k in t.auditLogs ==> AuditRefsOk(t.auditLogs[k], t.users)
  }

  /** Every constraint the schema declares holds of the store. */
  predicate Consistent(t: Tables) {
    && CountersOk(t) && UsersOk(t) && IncidentsOk(t) && PhotosOk(t)
    && ModulesOk(t) && ProgressOk(t) && DocumentsOk(t) && AuditOk(t)
  }

  /** Creating the schema on a consistent store (in particular an empty file) keeps it consistent. */
  lemma CreateTablesConsistent(t: Tables)
    requires Consistent(t)
    ensures Consistent(CreateTables(t))
  {
  }

  lemma EmptyConsistent()
    ensures Consistent(Empty)
  {
  }
}
