/** The demo-data seeder of server/database/seed.js: after `initDatabase` it runs four
    loops, users, then training modules, then incidents, then documents, each over a
    fixed list of records, skipping a record whose e-mail (users) or title (the others)
    is already in its table and inserting it otherwise. bcrypt's password hashes and the
    incident dates drawn with `random()` are parameters: `hashes(j)` is the hash made for
    the j-th user record and `dates(j)` the `datetime(...)` text for the j-th incident. */
module Seed {
  import opened Wrappers
  import opened Schema
  import opened Engine
  import opened Queries
  import opened Store
  import opened SeedLoop

  // ---------------------------------------------------------------------------------
  // The demo records
  // ---------------------------------------------------------------------------------

  datatype SeedUser = SeedUser(email: string, password: string, firstName: string, lastName: string,
                               role: string, department: string)

  datatype SeedModule = SeedModule(title: string, description: string, category: string,
                                   durationMinutes: int, difficulty: string, required: bool)

  /** `kind` is the record's `type`. */
  datatype SeedIncident = SeedIncident(title: string, description: string, kind: string,
                                       severity: string, status: string, location: string)

  datatype SeedDocument = SeedDocument(title: string, description: string, category: string,
                                       filename: string)

  const DemoPassword := "Password123!"

  const DemoUsers: seq<SeedUser> := [
    SeedUser("admin@pghsafety.com", DemoPassword, "Admin", "User", "admin", "Safety Management"),
    SeedUser("manager@pghsafety.com", DemoPassword, "Sarah", "Johnson", "manager", "Operations"),
    SeedUser("supervisor@pghsafety.com", DemoPassword, "Mike", "Williams", "supervisor", "Construction"),
    SeedUser("employee@pghsafety.com", DemoPassword, "John", "Doe", "employee", "Field Operations")
  ]

  const DemoModules: seq<SeedModule> := [
    SeedModule("OSHA 10-Hour General Industry",
      "Comprehensive OSHA safety training covering workplace hazards, PPE, and safety regulations.",
      "OSHA", 600, "beginner", true),
    SeedModule("OSHA 30-Hour Construction",
      "Advanced construction safety training for supervisors and workers with specialized roles.",
      "OSHA", 1800, "advanced", false),
    SeedModule("Fall Protection Fundamentals",
      "Learn proper fall protection equipment usage, inspection, and safety procedures.",
      "Fall Protection", 120, "intermediate", true),
    SeedModule("Hazard Communication (HazCom)",
      "Understanding chemical hazards, SDS sheets, and proper labeling requirements.",
      "Chemical Safety", 90, "beginner", true),
    SeedModule("Lockout/Tagout Procedures",
      "Critical procedures for controlling hazardous energy during equipment maintenance.",
      "Equipment Safety", 60, "intermediate", true),
    SeedModule("Fire Safety and Prevention",
      "Fire prevention, extinguisher usage, and emergency evacuation procedures.",
      "Emergency Response", 45, "beginner", true),
    SeedModule("First Aid and CPR Certification",
      "Basic first aid, CPR, and AED usage for workplace emergencies.",
      "Emergency Response", 240, "beginner", false),
    SeedModule("Confined Space Entry",
      "Safe entry and work procedures for permit-required confined spaces.",
      "Specialized", 180, "advanced", false)
  ]

  const DemoIncidents: seq<SeedIncident> := [
    SeedIncident("Slip hazard in warehouse",
      "Water leak from HVAC unit created a slippery surface near loading dock B.",
      "near-miss", "medium", "resolved", "Warehouse - Loading Dock B"),
    SeedIncident("Missing guardrail on scaffolding",
      "Guardrail section missing on level 3 of scaffolding at Site A. Immediate corrective action required.",
      "property", "high", "investigating", "Construction Site A - Building 2"),
    SeedIncident("Minor hand injury - improper glove use",
      "Employee sustained minor cut while handling materials without required cut-resistant gloves.",
      "injury", "low", "closed", "Manufacturing Floor - Station 12"),
    SeedIncident("Chemical spill in storage area",
      "Small spill of cleaning solution due to damaged container. Area cordoned off and cleaned.",
      "chemical", "medium", "resolved", "Storage Building C"),
    SeedIncident("Forklift near-miss incident",
      "Forklift operator nearly struck pedestrian at intersection. Visibility obstruction identified.",
      "near-miss", "high", "reported", "Warehouse - Aisle 7 Intersection")
  ]

  const DemoDocuments: seq<SeedDocument> := [
    SeedDocument("Emergency Action Plan",
      "Comprehensive emergency response procedures for all facility locations.",
      "procedure", "emergency-action-plan.pdf"),
    SeedDocument("PPE Requirements Matrix",
      "Required personal protective equipment by job task and hazard level.",
      "policy", "ppe-matrix.pdf"),
    SeedDocument("Safety Data Sheet - Cleaning Chemicals",
      "SDS for all cleaning and maintenance chemicals used on site.",
      "sds", "cleaning-chemicals-sds.pdf"),
    SeedDocument("Daily Safety Inspection Checklist",
      "Standard checklist for daily site safety inspections.",
      "checklist", "daily-inspection-checklist.pdf"),
    SeedDocument("Hot Work Permit Form",
      "Required permit documentation for welding, cutting, and hot work operations.",
      "permit", "hot-work-permit.pdf")
  ]

  /** The four lists a seeding run walks. */
  datatype Records = Records(users: seq<SeedUser>, modules: seq<SeedModule>,
                             incidents: seq<SeedIncident>, documents: seq<SeedDocument>)

  const Demo := Records(DemoUsers, DemoModules, DemoIncidents, DemoDocuments)

  /** Every value the records give to a CHECK-constrained column is in the column's
      closed set, so none of the seeder's inserts can fail a CHECK. */
  predicate Closed(d: Records) {
    && (forall j :: 0 <= j < |d.users| ==> d.users[j].role in Roles)
    && (forall j :: 0 <= j < |d.modules| ==> d.modules[j].difficulty in Difficulties)
    && (forall j :: 0 <= j < |d.incidents| ==>
          d.incidents[j].kind in IncidentTypes && d.incidents[j].severity in Severities
          && d.incidents[j].status in IncidentStatuses)
    && (forall j :: 0 <= j < |d.documents| ==> d.documents[j].category in DocumentCategories)
  }

  lemma DemoClosed()
    ensures Closed(Demo)
  {
    DemoRolesClosed();
    DemoDifficultiesClosed();
    DemoIncidentValuesClosed();
    DemoCategoriesClosed();
  }

  lemma DemoRolesClosed()
    ensures forall j :: 0 <= j < |DemoUsers| ==> DemoUsers[j].role in Roles
  {
  }

  lemma DemoDifficultiesClosed()
    ensures forall j :: 0 <= j < |DemoModules| ==> DemoModules[j].difficulty in Difficulties
  {
  }

  lemma DemoIncidentValuesClosed()
    ensures forall j :: 0 <= j < |DemoIncidents| ==>
      && DemoIncidents[j].kind in IncidentTypes && DemoIncidents[j].severity in Severities
      && DemoIncidents[j].status in IncidentStatuses
  {
  }

  lemma DemoCategoriesClosed()
    ensures forall j :: 0 <= j < |DemoDocuments| ==> DemoDocuments[j].category in DocumentCategories
  {
  }

  // ---------------------------------------------------------------------------------
  // The row each loop writes and the key it looks records up by
  // ---------------------------------------------------------------------------------

  /** `SELECT id FROM users WHERE email = ?`. */
  function UserKey(): SeedUser -> User -> bool {
    (x: SeedUser) => EmailIs(x.email)
  }

  /** `INSERT INTO users (email, password_hash, first_name, last_name, role, department)`. */
  function UserStatement(x: SeedUser, hash: string): Statement {
    InsertUser(x.email, hash, x.firstName, x.lastName, Some(x.role), Some(x.department))
  }

  function UserMaker(hashes: nat -> string, now: Time): (SeedUser, nat) -> User {
    (x: SeedUser, j: nat) => NewUser(x.email, hashes(j), x.firstName, x.lastName, Some(x.role), Some(x.department), now)
  }

  /** `SELECT id FROM training_modules WHERE title = ?`. */
  function ModuleKey(): SeedModule -> Module -> bool {
    (x: SeedModule) => ModuleTitled(x.title)
  }

  /** `INSERT INTO training_modules (title, description, category, duration_minutes,
      difficulty, is_required)`: no content URL, no creator, active by default. */
  function ModuleStatement(x: SeedModule): Statement {
    InsertModule(x.title, Some(x.description), x.category, Some(x.durationMinutes), None,
                 Some(x.difficulty), x.required, None)
  }

  function ModuleMaker(now: Time): (SeedModule, nat) -> Module {
    (x: SeedModule, j: nat) => NewModule(x.title, Some(x.description), x.category, Some(x.durationMinutes),
                                         None, Some(x.difficulty), x.required, None, now)
  }

  /** `SELECT id FROM incidents WHERE title = ?`. */
  function IncidentKey(): SeedIncident -> Incident -> bool {
    (x: SeedIncident) => IncidentTitled(x.title)
  }

  /** `INSERT INTO incidents (title, description, type, severity, status, location,
      reporter_id, incident_date)`: no witnesses, no assignee. */
  function IncidentStatement(x: SeedIncident, reporter: Option<int>, date: string): Statement {
    InsertIncident(x.title, Some(x.description), x.kind, x.severity, Some(x.status), Some(x.location),
                   None, Some(date), reporter)
  }

  function IncidentMaker(reporter: Option<int>, dates: nat -> string, now: Time): (SeedIncident, nat) -> Incident {
    (x: SeedIncident, j: nat) => NewIncident(x.title, Some(x.description), x.kind, x.severity, Some(x.status),
                                             Some(x.location), None, Some(dates(j)), reporter, now)
  }

  /** `SELECT id FROM documents WHERE title = ?`. */
  function DocumentKey(): SeedDocument -> Document -> bool {
    (x: SeedDocument) => DocumentTitled(x.title)
  }

  /** `INSERT INTO documents (title, description, category, filename)`: version '1.0'
      and active by default, no uploader. */
  function DocumentStatement(x: SeedDocument): Statement {
    InsertDocument(x.title, Some(x.description), x.category, x.filename, None, None, None, None, None)
  }

  function DocumentMaker(now: Time): (SeedDocument, nat) -> Document {
    (x: SeedDocument, j: nat) => NewDocument(x.title, Some(x.description), x.category, x.filename,
                                             None, None, None, None, None, now)
  }

  /** The incidents' reporter: `SELECT id FROM users WHERE role = 'employee' LIMIT 1`,
      that is the employee with the smallest id, then `?.id || null`. */
  function Reporter(t: Tables): (r: Option<int>)
    ensures r.Some? ==> r.value in t.users && t.users[r.value].role == "employee"
    ensures r.Some? ==> forall k :: k in t.users && t.users[k].role == "employee" ==> r.value <= k
    ensures (forall k :: k in t.users ==> k != 0) ==>
      (r.None? <==> forall k :: k in t.users ==> t.users[k].role != "employee")
  {
    var rows := Matching(t.users, RoleIs("employee"));
    FirstMatch(t.users, RoleIs("employee"));
    if rows == [] || rows[0].0 == 0 then None else Some(rows[0].0)
  }

  /** A scan in id order finds first the matching row with the smallest id. */
  lemma FirstMatch<T(!new)>(m: map<int, T>, p: T -> bool)
    ensures var rows := Matching(m, p);
      && (rows == [] <==> !Present(m, p))
      && (rows != [] ==> rows[0].0 in m && p(m[rows[0].0]) && forall k :: k in m && p(m[k]) ==> rows[0].0 <= k)
  {
    var rows := Matching(m, p);
    if rows != [] {
      assert rows[0] in rows;
      forall k | k in m && p(m[k]) ensures rows[0].0 <= k {
        assert (k, m[k]) in rows;
        var j :| 0 <= j < |rows| && rows[j] == (k, m[k]);
        assert j == 0 || rows[0].0 < rows[j].0;
      }
    }
  }

  // ---------------------------------------------------------------------------------
  // What the loops do to the tables
  // ---------------------------------------------------------------------------------

  function UsersSeeded(t: Tables, users: seq<SeedUser>, hashes: nat -> string, now: Time): Tables {
    var f := Fill(t.users, t.userSeq, users, UserKey(), UserMaker(hashes, now), 0);
    t.(users := f.0, userSeq := f.1)
  }

  function ModulesSeeded(t: Tables, modules: seq<SeedModule>, now: Time): Tables {
    var f := Fill(t.modules, t.moduleSeq, modules, ModuleKey(), ModuleMaker(now), 0);
    t.(modules := f.0, moduleSeq := f.1)
  }

  /** The reporter is looked up once, before the loop, in the tables as they are then. */
  function IncidentsSeeded(t: Tables, incidents: seq<SeedIncident>, dates: nat -> string, now: Time): Tables {
    var f := Fill(t.incidents, t.incidentSeq, incidents, IncidentKey(), IncidentMaker(Reporter(t), dates, now), 0);
    t.(incidents := f.0, incidentSeq := f.1)
  }

  function DocumentsSeeded(t: Tables, documents: seq<SeedDocument>, now: Time): Tables {
    var f := Fill(t.documents, t.documentSeq, documents, DocumentKey(), DocumentMaker(now), 0);
    t.(documents := f.0, documentSeq := f.1)
  }

  /** `seedDatabase` after `initDatabase`: users, then modules, then incidents, then
      documents. */
  function Seeded(t: Tables, d: Records, hashes: nat -> string, dates: nat -> string, now: Time): Tables {
    var t1 := UsersSeeded(t, d.users, hashes, now);
    var t2 := ModulesSeeded(t1, d.modules, now);
    var t3 := IncidentsSeeded(t2, d.incidents, dates, now);
    DocumentsSeeded(t3, d.documents, now)
  }

  // ---------------------------------------------------------------------------------
  // One iteration: the lookup, then the insert
  // ---------------------------------------------------------------------------------

  /** The e-mail lookup finds a row exactly when the record is present. */
  lemma LookupUser(t: Tables, x: SeedUser)
    requires TableNames <= t.schema
    ensures Eval(t, UserByEmail(x.email)).Ok?
    ensures Eval(t, UserByEmail(x.email)).value == [] <==> !Present(t.users, UserKey()(x))
  {
    assert Answer(t, UserByEmail(x.email)) == UserAnswer(t, UserByEmail(x.email));
    FirstMatch(t.users, EmailIs(x.email));
  }

  /** The title lookup finds a row exactly when the record is present. */
  lemma LookupModule(t: Tables, x: SeedModule)
    requires TableNames <= t.schema
    ensures Eval(t, ModuleByTitle(x.title)).Ok?
    ensures Eval(t, ModuleByTitle(x.title)).value == [] <==> !Present(t.modules, ModuleKey()(x))
  {
    assert Answer(t, ModuleByTitle(x.title)) == TrainingAnswer(t, ModuleByTitle(x.title));
    FirstMatch(t.modules, ModuleTitled(x.title));
  }

  lemma LookupIncident(t: Tables, x: SeedIncident)
    requires TableNames <= t.schema
    ensures Eval(t, IncidentByTitle(x.title)).Ok?
    ensures Eval(t, IncidentByTitle(x.title)).value == [] <==> !Present(t.incidents, IncidentKey()(x))
  {
    assert Answer(t, IncidentByTitle(x.title)) == IncidentAnswer(t, IncidentByTitle(x.title));
    FirstMatch(t.incidents, IncidentTitled(x.title));
  }

  lemma LookupDocument(t: Tables, x: SeedDocument)
    requires TableNames <= t.schema
    ensures Eval(t, DocumentByTitle(x.title)).Ok?
    ensures Eval(t, DocumentByTitle(x.title)).value == [] <==> !Present(t.documents, DocumentKey()(x))
  {
    assert Answer(t, DocumentByTitle(x.title)) == DocumentAnswer(t, DocumentByTitle(x.title));
    FirstMatch(t.documents, DocumentTitled(x.title));
  }

  /** The reporter lookup: `get` yields the first employee row, whose id `|| null` keeps. */
  lemma LookupReporter(t: Tables)
    requires TableNames <= t.schema
    ensures var r := Eval(t, FirstUserWithRole("employee"));
      && r.Ok?
      && (r.value == [] <==> Matching(t.users, RoleIs("employee")) == [])
      && (r.value != [] ==> r.value[0] == UserRow(Matching(t.users, RoleIs("employee"))[0].0,
                                                  Matching(t.users, RoleIs("employee"))[0].1))
  {
    assert Answer(t, FirstUserWithRole("employee")) == UserAnswer(t, FirstUserWithRole("employee"));
  }

  /** Inserting an absent demo user always succeeds and puts its row at the next id. */
  lemma UserStep(t: Tables, x: SeedUser, j: nat, hashes: nat -> string, now: Time)
    requires TableNames <= t.schema && x.role in Roles && !Present(t.users, UserKey()(x))
    ensures Exec(t, UserStatement(x, hashes(j)), now).Ok?
    ensures After(t, UserStatement(x, hashes(j)), now)
      == t.(users := t.users[t.userSeq + 1 := UserMaker(hashes, now)(x, j)], userSeq := t.userSeq + 1)
  {
    assert !EmailTaken(t.users, x.email);
  }

  /** Inserting an absent demo module always succeeds (its difficulty passes the CHECK
      and it has no creator) and puts its row at the next id. */
  lemma ModuleStep(t: Tables, x: SeedModule, j: nat, now: Time)
    requires TableNames <= t.schema && x.difficulty in Difficulties
    ensures Exec(t, ModuleStatement(x), now).Ok?
    ensures After(t, ModuleStatement(x), now)
      == t.(modules := t.modules[t.moduleSeq + 1 := ModuleMaker(now)(x, j)], moduleSeq := t.moduleSeq + 1)
  {
  }

  /** Inserting a demo incident succeeds when its reporter is a user (or null). */
  lemma IncidentStep(t: Tables, x: SeedIncident, reporter: Option<int>, j: nat, dates: nat -> string, now: Time)
    requires TableNames <= t.schema && RefOk(reporter, t.users)
    requires x.kind in IncidentTypes && x.severity in Severities && x.status in IncidentStatuses
    ensures Exec(t, IncidentStatement(x, reporter, dates(j)), now).Ok?
    ensures After(t, IncidentStatement(x, reporter, dates(j)), now)
      == t.(incidents := t.incidents[t.incidentSeq + 1 := IncidentMaker(reporter, dates, now)(x, j)],
            incidentSeq := t.incidentSeq + 1)
  {
  }

  lemma DocumentStep(t: Tables, x: SeedDocument, j: nat, now: Time)
    requires TableNames <= t.schema && x.category in DocumentCategories
    ensures Exec(t, DocumentStatement(x), now).Ok?
    ensures After(t, DocumentStatement(x), now)
      == t.(documents := t.documents[t.documentSeq + 1 := DocumentMaker(now)(x, j)], documentSeq := t.documentSeq + 1)
  {
  }

  // ---------------------------------------------------------------------------------
  // The loops
  // ---------------------------------------------------------------------------------

  /** The lookup at the top of the loop body: does a row already have the record's key? */
  method FindUser(db: Database, x: SeedUser) returns (found: bool)
    requires db.Valid() && db.initialized
    ensures found <==> Present(db.tables.users, UserKey()(x))
  {
    LookupUser(db.tables, x);
    var existing := db.Get(UserByEmail(x.email));
    found := !(existing.Ok? && existing.value.None?);
  }

  /** The insert of the loop body: it always succeeds and puts the row at the next id. */
  method InsertDemoUser(db: Database, x: SeedUser, j: nat, hashes: nat -> string, now: Time)
    requires db.Valid() && db.initialized && x.role in Roles && !Present(db.tables.users, UserKey()(x))
    modifies db
    ensures db.Valid() && db.initialized
    ensures db.tables == old(db.tables).(users := old(db.tables.users)[old(db.tables.userSeq) + 1 := UserMaker(hashes, now)(x, j)],
                                         userSeq := old(db.tables.userSeq) + 1)
  {
    UserStep(db.tables, x, j, hashes, now);
    var info := db.Run(UserStatement(x, hashes(j)), now);
  }

  /** The body of `seedUsers`' loop for one record: look the e-mail up, and insert
      the user (with the j-th hash) only when no row has it. */
  method AddDemoUser(db: Database, x: SeedUser, j: nat, hashes: nat -> string, now: Time)
    requires db.Valid() && db.initialized && x.role in Roles
    modifies db
    ensures db.Valid() && db.initialized
    ensures var f := FillOnce(old(db.tables.users), old(db.tables.userSeq), x, UserKey(), UserMaker(hashes, now), j);
      db.tables == old(db.tables).(users := f.0, userSeq := f.1)
  {
    ghost var t := db.tables;
    FillOnceCases(t.users, t.userSeq, x, UserKey(), UserMaker(hashes, now), j);
    var existing := FindUser(db, x);
    if !existing {
      InsertDemoUser(db, x, j, hashes, now);
    }
  }

  /** The `for (const user of users)` loop over any list of records whose roles pass
      the CHECK. */
  method SeedUsers(db: Database, users: seq<SeedUser>, hashes: nat -> string, now: Time)
    requires db.Valid() && db.initialized
    requires forall j :: 0 <= j < |users| ==> users[j].role in Roles
    modifies db
    ensures db.Valid() && db.initialized
    ensures db.tables == UsersSeeded(old(db.tables), users, hashes, now)
  {
    ghost var t0 := db.tables;
    var i := 0;
    while i < |users|
      invariant 0 <= i <= |users|
      invariant db.Valid() && db.initialized
      invariant db.tables == t0.(users := db.tables.users, userSeq := db.tables.userSeq)
      invariant Fill(db.tables.users, db.tables.userSeq, users, UserKey(), UserMaker(hashes, now), i)
             == Fill(t0.users, t0.userSeq, users, UserKey(), UserMaker(hashes, now), 0)
    {
      AddDemoUser(db, users[i], i, hashes, now);
      i := i + 1;
    }
  }

  /** The lookup at the top of the loop body: does a row already have the record's key? */
  method FindModule(db: Database, x: SeedModule) returns (found: bool)
    requires db.Valid() && db.initialized
    ensures found <==> Present(db.tables.modules, ModuleKey()(x))
  {
    LookupModule(db.tables, x);
    var existing := db.Get(ModuleByTitle(x.title));
    found := !(existing.Ok? && existing.value.None?);
  }

  /** The insert of the loop body: it always succeeds and puts the row at the next id. */
  method InsertDemoModule(db: Database, x: SeedModule, j: nat, now: Time)
    requires db.Valid() && db.initialized && x.difficulty in Difficulties
    modifies db
    ensures db.Valid() && db.initialized
    ensures db.tables == old(db.tables).(modules := old(db.tables.modules)[old(db.tables.moduleSeq) + 1 := ModuleMaker(now)(x, j)],
                                         moduleSeq := old(db.tables.moduleSeq) + 1)
  {
    ModuleStep(db.tables, x, j, now);
    var info := db.Run(ModuleStatement(x), now);
  }

  /** The body of `seedTrainingModules`' loop for one record. */
  method AddDemoModule(db: Database, x: SeedModule, j: nat, now: Time)
    requires db.Valid() && db.initialized && x.difficulty in Difficulties
    modifies db
    ensures db.Valid() && db.initialized
    ensures var f := FillOnce(old(db.tables.modules), old(db.tables.moduleSeq), x, ModuleKey(), ModuleMaker(now), j);
      db.tables == old(db.tables).(modules := f.0, moduleSeq := f.1)
  {
    ghost var t := db.tables;
    FillOnceCases(t.modules, t.moduleSeq, x, ModuleKey(), ModuleMaker(now), j);
    var existing := FindModule(db, x);
    if !existing {
      InsertDemoModule(db, x, j, now);
    }
  }

  /** The `for (const module of modules)` loop over any list of records whose
      difficulties pass the CHECK. */
  method SeedTrainingModules(db: Database, modules: seq<SeedModule>, now: Time)
    requires db.Valid() && db.initialized
    requires forall j :: 0 <= j < |modules| ==> modules[j].difficulty in Difficulties
    modifies db
    ensures db.Valid() && db.initialized
    ensures db.tables == ModulesSeeded(old(db.tables), modules, now)
  {
    ghost var t0 := db.tables;
    var i := 0;
    while i < |modules|
      invariant 0 <= i <= |modules|
      invariant db.Valid() && db.initialized
      invariant db.tables == t0.(modules := db.tables.modules, moduleSeq := db.tables.moduleSeq)
      invariant Fill(db.tables.modules, db.tables.moduleSeq, modules, ModuleKey(), ModuleMaker(now), i)
             == Fill(t0.modules, t0.moduleSeq, modules, ModuleKey(), ModuleMaker(now), 0)
    {
      AddDemoModule(db, modules[i], i, now);
      i := i + 1;
    }
  }

  /** The lookup at the top of the loop body: does a row already have the record's key? */
  method FindIncident(db: Database, x: SeedIncident) returns (found: bool)
    requires db.Valid() && db.initialized
    ensures found <==> Present(db.tables.incidents, IncidentKey()(x))
  {
    LookupIncident(db.tables, x);
    var existing := db.Get(IncidentByTitle(x.title));
    found := !(existing.Ok? && existing.value.None?);
  }

  /** The insert of the loop body: it always succeeds and puts the row at the next id. */
  method InsertDemoIncident(db: Database, x: SeedIncident, j: nat, reporter: Option<int>, dates: nat -> string, now: Time)
    requires db.Valid() && db.initialized && RefOk(reporter, db.tables.users)
    requires x.kind in IncidentTypes && x.severity in Severities && x.status in IncidentStatuses
    modifies db
    ensures db.Valid() && db.initialized
    ensures db.tables == old(db.tables).(incidents := old(db.tables.incidents)[old(db.tables.incidentSeq) + 1 := IncidentMaker(reporter, dates, now)(x, j)],
                                         incidentSeq := old(db.tables.incidentSeq) + 1)
  {
    IncidentStep(db.tables, x, reporter, j, dates, now);
    var info := db.Run(IncidentStatement(x, reporter, dates(j)), now);
  }

  /** The body of `seedIncidents`' loop for one record, with the reporter found before
      the loop. */
  method AddDemoIncident(db: Database, x: SeedIncident, reporter: Option<int>, j: nat, dates: nat -> string, now: Time)
    requires db.Valid() && db.initialized && RefOk(reporter, db.tables.users)
    requires x.kind in IncidentTypes && x.severity in Severities && x.status in IncidentStatuses
    modifies db
    ensures db.Valid() && db.initialized
    ensures var f := FillOnce(old(db.tables.incidents), old(db.tables.incidentSeq), x, IncidentKey(),
                              IncidentMaker(reporter, dates, now), j);
      db.tables == old(db.tables).(incidents := f.0, incidentSeq := f.1)
  {
    ghost var t := db.tables;
    ghost var f := FillOnce(t.incidents, t.incidentSeq, x, IncidentKey(), IncidentMaker(reporter, dates, now), j);
    FillOnceCases(t.incidents, t.incidentSeq, x, IncidentKey(), IncidentMaker(reporter, dates, now), j);
    var existing := FindIncident(db, x);
    if !existing {
      InsertDemoIncident(db, x, j, reporter, dates, now);
      assert f == (t.incidents[t.incidentSeq + 1 := IncidentMaker(reporter, dates, now)(x, j)], t.incidentSeq + 1);
    } else {
      assert f == (t.incidents, t.incidentSeq);
    }
  }

  /** `get('SELECT id FROM users WHERE role = ? LIMIT 1', ['employee'])`, then
      `reporter?.id || null`. */
  method FindReporter(db: Database) returns (reporter: Option<int>)
    requires db.Valid() && db.initialized
    ensures reporter == Reporter(db.tables)
  {
    LookupReporter(db.tables);
    var found := db.Get(FirstUserWithRole("employee"));
    reporter := None;
    if found.Ok? && found.value.Some? && found.value.value.UserRow? && found.value.value.id != 0 {
      reporter := Some(found.value.value.id);
    }
  }

  /** The `for (const incident of incidents)` loop over any list of records whose type,
      severity and status pass the CHECKs, with a reporter that is a user or null. */
  method SeedIncidentRecords(db: Database, incidents: seq<SeedIncident>, reporter: Option<int>,
                             dates: nat -> string, now: Time)
    requires db.Valid() && db.initialized && RefOk(reporter, db.tables.users)
    requires forall j :: 0 <= j < |incidents| ==>
      incidents[j].kind in IncidentTypes && incidents[j].severity in Severities && incidents[j].status in IncidentStatuses
    modifies db
    ensures db.Valid() && db.initialized
    ensures var f := Fill(old(db.tables.incidents), old(db.tables.incidentSeq), incidents, IncidentKey(),
                          IncidentMaker(reporter, dates, now), 0);
      db.tables == old(db.tables).(incidents := f.0, incidentSeq := f.1)
  {
    ghost var t0 := db.tables;
    var i := 0;
    while i < |incidents|
      invariant 0 <= i <= |incidents|
      invariant db.Valid() && db.initialized
      invariant db.tables == t0.(incidents := db.tables.incidents, incidentSeq := db.tables.incidentSeq)
      invariant Fill(db.tables.incidents, db.tables.incidentSeq, incidents, IncidentKey(), IncidentMaker(reporter, dates, now), i)
             == Fill(t0.incidents, t0.incidentSeq, incidents, IncidentKey(), IncidentMaker(reporter, dates, now), 0)
    {
      AddDemoIncident(db, incidents[i], reporter, i, dates, now);
      i := i + 1;
    }
  }

  /** `seedIncidents`: the reporter is looked up once, then the loop over the records. */
  method SeedIncidents(db: Database, incidents: seq<SeedIncident>, dates: nat -> string, now: Time)
    requires db.Valid() && db.initialized
    requires forall j :: 0 <= j < |incidents| ==>
      incidents[j].kind in IncidentTypes && incidents[j].severity in Severities && incidents[j].status in IncidentStatuses
    modifies db
    ensures db.Valid() && db.initialized
    ensures db.tables == IncidentsSeeded(old(db.tables), incidents, dates, now)
  {
    var reporter := FindReporter(db);
    SeedIncidentRecords(db, incidents, reporter, dates, now);
  }

  /** The lookup at the top of the loop body: does a row already have the record's key? */
  method FindDocument(db: Database, x: SeedDocument) returns (found: bool)
    requires db.Valid() && db.initialized
    ensures found <==> Present(db.tables.documents, DocumentKey()(x))
  {
    LookupDocument(db.tables, x);
    var existing := db.Get(DocumentByTitle(x.title));
    found := !(existing.Ok? && existing.value.None?);
  }

  /** The insert of the loop body: it always succeeds and puts the row at the next id. */
  method InsertDemoDocument(db: Database, x: SeedDocument, j: nat, now: Time)
    requires db.Valid() && db.initialized && x.category in DocumentCategories
    modifies db
    ensures db.Valid() && db.initialized
    ensures db.tables == old(db.tables).(documents := old(db.tables.documents)[old(db.tables.documentSeq) + 1 := DocumentMaker(now)(x, j)],
                                         documentSeq := old(db.tables.documentSeq) + 1)
  {
    DocumentStep(db.tables, x, j, now);
    var info := db.Run(DocumentStatement(x), now);
  }

  /** The body of `seedDocuments`' loop for one record. */
  method AddDemoDocument(db: Database, x: SeedDocument, j: nat, now: Time)
    requires db.Valid() && db.initialized && x.category in DocumentCategories
    modifies db
    ensures db.Valid() && db.initialized
    ensures var f := FillOnce(old(db.tables.documents), old(db.tables.documentSeq), x, DocumentKey(), DocumentMaker(now), j);
      db.tables == old(db.tables).(documents := f.0, documentSeq := f.1)
  {
    ghost var t := db.tables;
    FillOnceCases(t.documents, t.documentSeq, x, DocumentKey(), DocumentMaker(now), j);
    var existing := FindDocument(db, x);
    if !existing {
      InsertDemoDocument(db, x, j, now);
    }
  }

  /** The `for (const doc of documents)` loop over any list of records whose categories
      pass the CHECK. */
  method SeedDocuments(db: Database, documents: seq<SeedDocument>, now: Time)
    requires db.Valid() && db.initialized
    requires forall j :: 0 <= j < |documents| ==> documents[j].category in DocumentCategories
    modifies db
    ensures db.Valid() && db.initialized
    ensures db.tables == DocumentsSeeded(old(db.tables), documents, now)
  {
    ghost var t0 := db.tables;
    var i := 0;
    while i < |documents|
      invariant 0 <= i <= |documents|
      invariant db.Valid() && db.initialized
      invariant db.tables == t0.(documents := db.tables.documents, documentSeq := db.tables.documentSeq)
      invariant Fill(db.tables.documents, db.tables.documentSeq, documents, DocumentKey(), DocumentMaker(now), i)
             == Fill(t0.documents, t0.documentSeq, documents, DocumentKey(), DocumentMaker(now), 0)
    {
      AddDemoDocument(db, documents[i], i, now);
      i := i + 1;
    }
  }

  /** The four loops of `seedDatabase`, in order. */
  method SeedTables(db: Database, d: Records, hashes: nat -> string, dates: nat -> string, now: Time)
    requires db.Valid() && db.initialized && Closed(d)
    modifies db
    ensures db.Valid() && db.initialized
    ensures db.tables == Seeded(old(db.tables), d, hashes, dates, now)
  {
    SeedUsers(db, d.users, hashes, now);
    SeedTrainingModules(db, d.modules, now);
    SeedIncidents(db, d.incidents, dates, now);
    SeedDocuments(db, d.documents, now);
  }

  /** `seedDatabase` over records `d`: `initDatabase`, the four loops, then
      `saveDatabase`. `start` is the state the loops start from: the tables already open,
      or those `initDatabase` made from the file. */
  method SeedDatabase(db: Database, d: Records, hashes: nat -> string, dates: nat -> string, now: Time)
    returns (ghost start: Tables)
    requires db.Valid() && Closed(d)
    modifies db
    ensures db.Valid() && db.initialized
    ensures old(db.initialized) ==> start == old(db.tables)
    ensures !old(db.initialized) ==> start == CreateTables(Loaded(old(db.file)))
    ensures db.tables == Seeded(start, d, hashes, dates, now)
  {
    db.InitDatabase();
    start := db.tables;
    SeedTables(db, d, hashes, dates, now);
    db.SaveDatabase();
  }

  /** `seedDatabase` as the script runs it, over the demo records. */
  method SeedDemoDatabase(db: Database, hashes: nat -> string, dates: nat -> string, now: Time)
    returns (ghost start: Tables)
    requires db.Valid()
    modifies db
    ensures db.Valid() && db.initialized
    ensures old(db.initialized) ==> start == old(db.tables)
    ensures !old(db.initialized) ==> start == CreateTables(Loaded(old(db.file)))
    ensures db.tables == Seeded(start, Demo, hashes, dates, now)
  {
    DemoClosed();
    start := SeedDatabase(db, Demo, hashes, dates, now);
  }
}
