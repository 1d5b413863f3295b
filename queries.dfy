/** The SELECT statements the handlers, the middleware and the seeder send through
    `query` / `get` / `all` (server/database/init.js), and the rows SQLite returns for each:
    a table scan in row-id order, the WHERE filter, ORDER BY, LIMIT/OFFSET, COUNT and
    GROUP BY. */
module Queries {
  import opened Wrappers
  import opened Schema
  import opened Engine
  import opened Ordering

  /** One result row. Row-returning lookups give the id and the whole record. */
  datatype Row =
    | UserRow(id: int, user: User)
    | AccountRow(id: int, email: string, firstName: string, lastName: string, role: string,
                 department: Option<string>, active: bool, lastLogin: Option<Time>, createdAt: Time)
    | IncidentRow(id: int, incident: Incident)
    | PhotoRow(id: int, photo: Photo)
    | ModuleRow(id: int, course: Module)
    | ProgressRow(id: int, progress: Progress)
    | DocumentRow(id: int, document: Document)
    | CountRow(count: nat)
    | GroupRow(key: Option<string>, count: nat)
    | CompletionRow(id: int, timestamp: Option<Time>, title: string)

  /** Every SELECT the application issues, with its bound parameters. A list filter that
      the handler leaves out of the statement is `None`. */
  datatype Select =
    | UserById(id: int)
    | UserByEmail(email: string)
    | ActiveUserById(id: int)
    | FirstUserWithRole(role: string)
    | ListUsers
    | IncidentById(id: int)
    | IncidentByTitle(title: string)
    | ListIncidents(status: Option<string>, severity: Option<string>, kind: Option<string>,
                    limit: int, offset: int)
    | CountIncidents
    | PhotoById(id: int)
    | ListPhotos(phase: Option<string>, incidentId: Option<int>, limit: int, offset: int)
    | ModuleById(id: int)
    | ModuleByTitle(title: string)
    | ListModules(category: Option<string>, required: Option<bool>, limit: int)
    | ProgressOf(userId: int, moduleId: int)
    | DocumentById(id: int)
    | DocumentByTitle(title: string)
    | ListDocuments(category: Option<string>, limit: int)
    | CountActiveUsers
    | ActiveUsersByRole
    | CountOpenIncidents
    | CountResolvedSince(since: Time)
    | IncidentsByType
    | IncidentsBySeverity
    | CountActiveModules
    | CountCompletedProgress
    | CountPhotos
    | PhotosByPhase
    | RecentIncidents
    | RecentPhotos
    | RecentCompletions
    | CountRequiredModules
    | CompliantGroups(requiredCount: int)
    | CountCompliantUsers(requiredCount: int)
    | CountCriticalOpen

  // ---------------------------------------------------------------------------------
  // Scans
  // ---------------------------------------------------------------------------------

  /** Some element of a non-empty set. */
  lemma Pick<T>(s: set<T>) returns (x: T)
    requires s != {}
    ensures x in s
  {
    x :| x in s;
  }

  /** A non-empty finite set of row ids has a smallest element. */
  lemma {:induction false} MinExists(s: set<int>)
    requires s != {}
    ensures exists x :: x in s && forall y :: y in s ==> x <= y
    decreases |s|
  {
    var z := Pick(s);
    if s != {z} {
      MinExists(s - {z});
      var x :| x in s - {z} && forall y :: y in s - {z} ==> x <= y;
      var least := if z < x then z else x;
      forall y | y in s ensures least <= y {
        if y != z {
          assert y in s - {z};
        }
      }
    } else {
      assert forall y :: y in s ==> z <= y;
    }
  }

  /** The row ids of a table in ascending order: the order of a rowid table scan. */
  function SortedKeys(s: set<int>): (r: seq<int>)
    ensures forall k :: k in r <==> k in s
    ensures forall i, j :: 0 <= i < j < |r| ==> r[i] < r[j]
    decreases |s|
  {
    if s == {} then []
    else
      var x := Least(s);
      var rest := SortedKeys(s - {x});
      assert forall k :: k in rest ==> x < k;
      [x] + rest
  }

  /** The smallest row id of a non-empty table. */
  function Least(s: set<int>): (x: int)
    requires s != {}
    ensures x in s && forall y :: y in s ==> x <= y
  {
    MinExists(s);
    var x :| x in s && forall y :: y in s ==> x <= y;
    x
  }

  /** A full table scan: every row with its id, in ascending id order. */
  function All<T(!new)>(m: map<int, T>): (r: seq<(int, T)>)
    ensures forall e :: e in r <==> e.0 in m && e.1 == m[e.0]
    ensures forall i, j :: 0 <= i < j < |r| ==> r[i].0 < r[j].0
  {
    var keys := SortedKeys(m.Keys);
    var r := seq(|keys|, i requires 0 <= i < |keys| => (keys[i], m[keys[i]]));
    assert forall e: (int, T) :: e.0 in m && e.1 == m[e.0] ==> e in r by {
      forall e: (int, T) | e.0 in m && e.1 == m[e.0] ensures e in r {
        var i :| 0 <= i < |keys| && keys[i] == e.0;
        assert r[i] == e;
      }
    }
    r
  }

  /** A condition on a record, applied to an (id, record) pair. */
  function OnRecord<T>(p: T -> bool): ((int, T)) -> bool {
    (e: (int, T)) => p(e.1)
  }

  /** A sort order on records, applied to (id, record) pairs. */
  function ByRecord<T>(before: (T, T) -> bool): ((int, T), (int, T)) -> bool {
    (a: (int, T), b: (int, T)) => before(a.1, b.1)
  }

  lemma ByRecordOrder<T(!new)>(before: (T, T) -> bool)
    requires TotalPreorder(before)
    ensures TotalPreorder(ByRecord(before))
  {
    var lifted := ByRecord(before);
    forall a: (int, T), b: (int, T) ensures lifted(a, b) || lifted(b, a) {
      assert before(a.1, b.1) || before(b.1, a.1);
    }
    forall a: (int, T), b: (int, T), c: (int, T) | lifted(a, b) && lifted(b, c)
      ensures lifted(a, c)
    {
      assert before(a.1, b.1) && before(b.1, c.1);
    }
  }

  /** The rows of `m` that satisfy `p`, ordered by `before`, windowed by LIMIT/OFFSET:
      the shape of every list endpoint. */
  function Listing<T(!new)>(m: map<int, T>, p: T -> bool, before: (T, T) -> bool,
                            limit: int, offset: int): seq<(int, T)>
  {
    Window(SortBy(Where(All(m), OnRecord(p)), ByRecord(before)), limit, offset)
  }

  /** A window of a sorted sequence is a sorted run of its elements. */
  lemma WindowOfSorted<T>(s: seq<T>, before: (T, T) -> bool, limit: int, offset: int)
    requires Sorted(s, before)
    ensures forall x :: x in Window(s, limit, offset) ==> x in s
    ensures Sorted(Window(s, limit, offset), before)
  {
    var r := Window(s, limit, offset);
    var from := if offset < 0 then 0 else if offset > |s| then |s| else offset;
    forall x | x in r ensures x in s {
      var i :| 0 <= i < |r| && r[i] == x;
      assert s[from + i] == x;
    }
    forall i, j | 0 <= i < j < |r| ensures before(r[i], r[j]) {
      assert r[i] == s[from + i] && r[j] == s[from + j];
    }
  }

  /** A listing returns only matching rows of the table, in `before` order, at most
      `limit` of them; without a limit or an offset it returns every matching row. */
  lemma {:induction false} ListingSpec<T(!new)>(m: map<int, T>, p: T -> bool,
                                               before: (T, T) -> bool, limit: int, offset: int)
    requires TotalPreorder(before)
    ensures var r := Listing(m, p, before, limit, offset);
      && (forall e :: e in r ==> e.0 in m && e.1 == m[e.0] && p(e.1))
      && (forall i, j :: 0 <= i < j < |r| ==> before(r[i].1, r[j].1))
      && (limit >= 0 ==> |r| <= limit)
      && (limit < 0 && offset <= 0 ==>
            forall k :: k in m && p(m[k]) ==> (k, m[k]) in r)
  {
    var matching := Where(All(m), OnRecord(p));
    var sorted := SortBy(matching, ByRecord(before));
    ByRecordOrder(before);
    SortBySorted(matching, ByRecord(before));
    WindowOfSorted(sorted, ByRecord(before), limit, offset);
    var r := Window(sorted, limit, offset);
    forall e | e in r ensures e.0 in m && e.1 == m[e.0] && p(e.1) {
      assert e in multiset(sorted);
      assert e in matching;
    }
    forall i, j | 0 <= i < j < |r| ensures before(r[i].1, r[j].1) {
      assert ByRecord(before)(r[i], r[j]);
    }
    if limit < 0 && offset <= 0 {
      assert r == sorted;
      forall k | k in m && p(m[k]) ensures (k, m[k]) in r {
        assert (k, m[k]) in matching;
        assert (k, m[k]) in multiset(sorted);
      }
    }
  }

  /** `SELECT ... WHERE p` without ORDER BY: the matching rows in scan order. */
  function Matching<T(!new)>(m: map<int, T>, p: T -> bool): (r: seq<(int, T)>)
    ensures forall e :: e in r <==> e.0 in m && e.1 == m[e.0] && p(e.1)
    ensures r == [] <==> forall k :: k in m ==> !p(m[k])
    ensures forall i, j :: 0 <= i < j < |r| ==> r[i].0 < r[j].0
  {
    ScanFilter(m, p);
    Where(All(m), OnRecord(p))
  }

  lemma ScanFilter<T(!new)>(m: map<int, T>, p: T -> bool)
    ensures var r := Where(All(m), OnRecord(p));
      && (forall e :: e in r <==> e.0 in m && e.1 == m[e.0] && p(e.1))
      && (r == [] <==> forall k :: k in m ==> !p(m[k]))
      && (forall i, j :: 0 <= i < j < |r| ==> r[i].0 < r[j].0)
  {
    var all := All(m);
    var q := OnRecord(p);
    var r := Where(all, q);
    forall e | e in r ensures e.0 in m && e.1 == m[e.0] && p(e.1) {
      assert e in all && q(e);
    }
    forall e: (int, T) | e.0 in m && e.1 == m[e.0] && p(e.1) ensures e in r {
      assert e in all && q(e);
    }
    forall k | k in m && p(m[k]) ensures r != [] {
      assert (k, m[k]) in r;
    }
    if r != [] {
      assert r[0] in r;
    }
    WhereKeepsOrder(all, q);
  }

  /** Row ids strictly ascending: the order of a rowid scan. */
  predicate IdsAscending<T>(s: seq<(int, T)>) {
    forall i, j :: 0 <= i < j < |s| ==> s[i].0 < s[j].0
  }

  lemma HeadBelow<T>(s: seq<(int, T)>)
    requires IdsAscending(s) && s != []
    ensures IdsAscending(s[1..])
    ensures forall e :: e in s[1..] ==> s[0].0 < e.0
  {
    forall e | e in s[1..] ensures s[0].0 < e.0 {
      var k :| 0 <= k < |s[1..]| && s[1..][k] == e;
      assert s[k + 1] == e;
    }
  }

  lemma Prepend<T>(x: (int, T), s: seq<(int, T)>)
    requires IdsAscending(s) && forall e :: e in s ==> x.0 < e.0
    ensures IdsAscending([x] + s)
  {
    var r := [x] + s;
    forall i, j | 0 <= i < j < |r| ensures r[i].0 < r[j].0 {
      assert r[j] == s[j - 1] && s[j - 1] in s;
      if i > 0 {
        assert r[i] == s[i - 1];
      }
    }
  }

  /** WHERE keeps the scan's ascending id order. */
  lemma {:induction false} WhereKeepsOrder<T(!new)>(s: seq<(int, T)>, p: ((int, T)) -> bool)
    requires IdsAscending(s)
    ensures IdsAscending(Where(s, p))
  {
    if s != [] {
      HeadBelow(s);
      WhereKeepsOrder(s[1..], p);
      if p(s[0]) {
        Prepend(s[0], Where(s[1..], p));
      }
    }
  }

  /** `SELECT ... WHERE id = ?`. */
  function Lookup<T>(m: map<int, T>, id: int): (r: seq<(int, T)>)
    ensures |r| <= 1
    ensures r != [] <==> id in m
    ensures r != [] ==> r[0] == (id, m[id])
  {
    if id in m then [(id, m[id])] else []
  }

  // ---------------------------------------------------------------------------------
  // Orders
  // ---------------------------------------------------------------------------------

  /** `ORDER BY is_required DESC, title ASC`. */
  predicate RequiredThenTitle(a: Module, b: Module) {
    (a.required && !b.required) || (a.required == b.required && StrLe(a.title, b.title))
  }

  lemma RequiredThenTitleOrder()
    ensures TotalPreorder(RequiredThenTitle)
  {
    forall a: Module, b: Module ensures RequiredThenTitle(a, b) || RequiredThenTitle(b, a) {
      StrLeTotal(a.title, b.title);
    }
    forall a: Module, b: Module, c: Module | RequiredThenTitle(a, b) && RequiredThenTitle(b, c)
      ensures RequiredThenTitle(a, c)
    {
      if a.required == b.required && b.required == c.required {
        StrLeTransitive(a.title, b.title, c.title);
      }
    }
  }

  /** `ORDER BY created_at DESC`. */
  predicate IncidentNewer(a: Incident, b: Incident) { a.createdAt >= b.createdAt }
  predicate PhotoNewer(a: Photo, b: Photo) { a.createdAt >= b.createdAt }
  predicate DocumentNewer(a: Document, b: Document) { a.createdAt >= b.createdAt }
  predicate UserNewer(a: User, b: User) { a.createdAt >= b.createdAt }

  /** `ORDER BY completed_at DESC`: SQLite sorts NULL below every value, so NULLs come last. */
  predicate CompletedNewer(a: Progress, b: Progress) {
    b.completedAt.None? || (a.completedAt.Some? && a.completedAt.value >= b.completedAt.value)
  }

  lemma NewestFirstOrders()
    ensures TotalPreorder(IncidentNewer) && TotalPreorder(PhotoNewer)
    ensures TotalPreorder(DocumentNewer) && TotalPreorder(UserNewer)
    ensures TotalPreorder(CompletedNewer)
  {
  }

  // ---------------------------------------------------------------------------------
  // Filters: the WHERE clauses, each a function value so that statements and lemmas
  // speak of the same condition
  // ---------------------------------------------------------------------------------

  function Anything<T>(): T -> bool {
    _ => true
  }

  function EmailIs(email: string): User -> bool {
    (u: User) => u.email == email
  }

  function RoleIs(role: string): User -> bool {
    (u: User) => u.role == role
  }

  function IsActiveUser(): User -> bool {
    (u: User) => u.active
  }

  function IncidentTitled(title: string): Incident -> bool {
    (i: Incident) => i.title == title
  }

  function ModuleTitled(title: string): Module -> bool {
    (m: Module) => m.title == title
  }

  function DocumentTitled(title: string): Document -> bool {
    (d: Document) => d.title == title
  }

  function PairIs(userId: int, moduleId: int): Progress -> bool {
    (p: Progress) => p.userId == userId && p.moduleId == moduleId
  }

  /** `WHERE 1=1 [AND status = ?] [AND severity = ?] [AND type = ?]`. */
  function IncidentMatch(status: Option<string>, severity: Option<string>, kind: Option<string>): Incident -> bool {
    (i: Incident) =>
      && (status.None? || i.status == status)
      && (severity.None? || i.severity == severity.value)
      && (kind.None? || i.kind == kind.value)
  }

  /** `WHERE 1=1 [AND phase = ?] [AND incident_id = ?]`. */
  function PhotoMatch(phase: Option<string>, incidentId: Option<int>): Photo -> bool {
    (p: Photo) => (phase.None? || p.phase == phase) && (incidentId.None? || p.incidentId == incidentId)
  }

  /** `WHERE is_active = 1 [AND category = ?] [AND is_required = ?]`. */
  function ModuleMatch(category: Option<string>, required: Option<bool>): Module -> bool {
    (m: Module) =>
      m.active && (category.None? || m.category == category.value)
      && (required.None? || m.required == required.value)
  }

  /** `WHERE is_active = 1 [AND category = ?]`. */
  function DocumentMatch(category: Option<string>): Document -> bool {
    (d: Document) => d.active && (category.None? || d.category == category.value)
  }

  /** `status IN ('reported', 'investigating')`. */
  predicate IsOpen(i: Incident) {
    i.status == Some("reported") || i.status == Some("investigating")
  }

  function OpenIncident(): Incident -> bool {
    (i: Incident) => IsOpen(i)
  }

  function ResolvedSince(since: Time): Incident -> bool {
    (i: Incident) => i.status == Some("resolved") && i.resolvedAt.Some? && i.resolvedAt.value >= since
  }

  function CriticalOpen(): Incident -> bool {
    (i: Incident) => i.severity == "critical" && IsOpen(i)
  }

  function IsActiveModule(): Module -> bool {
    (m: Module) => m.active
  }

  function RequiredActiveModule(): Module -> bool {
    (m: Module) => m.required && m.active
  }

  function IsCompleted(): Progress -> bool {
    (p: Progress) => p.status == Some("completed")
  }

  /** The completed rows that the inner join with training_modules keeps. */
  function CompletedJoined(modules: map<int, Module>): Progress -> bool {
    (p: Progress) => p.status == Some("completed") && p.moduleId in modules
  }

  // ---------------------------------------------------------------------------------
  // Grouping and counting
  // ---------------------------------------------------------------------------------

  /** The distinct elements of `s` in order of first appearance. */
  function Distinct<T(==,!new)>(s: seq<T>): (r: seq<T>)
    ensures forall x :: x in r <==> x in s
    ensures forall i, j :: 0 <= i < j < |r| ==> r[i] != r[j]
    decreases |s|
  {
    if s == [] then []
    else
      var rest := Distinct(Where(s[1..], x => x != s[0]));
      assert s == [s[0]] + s[1..];
      assert forall x :: x in rest ==> x != s[0];
      [s[0]] + rest
  }

  /** Group keys in ascending order, NULL first. */
  predicate KeyLe(a: Option<string>, b: Option<string>) {
    a.None? || (b.Some? && StrLe(a.value, b.value))
  }

  /** `SELECT key, COUNT(*) ... WHERE p GROUP BY key`: one row per distinct key of the
      matching rows, with the number of matching rows that carry it, in key order. */
  function Groups<T(!new)>(m: map<int, T>, p: T -> bool, key: T -> Option<string>): seq<Row> {
    var keys := GroupKeys(m, p, key);
    seq(|keys|, i requires 0 <= i < |keys| => GroupRow(keys[i], GroupSize(m, p, key, keys[i])))
  }

  /** The distinct keys of the matching rows, in key order. */
  function GroupKeys<T(!new)>(m: map<int, T>, p: T -> bool, key: T -> Option<string>): seq<Option<string>> {
    SortBy(Distinct(KeyColumn(Matching(m, p), key)), KeyLe)
  }

  /** The key of each row, in row order. */
  function KeyColumn<T>(rows: seq<(int, T)>, key: T -> Option<string>): (r: seq<Option<string>>)
    ensures |r| == |rows| && forall i :: 0 <= i < |rows| ==> r[i] == key(rows[i].1)
  {
    seq(|rows|, i requires 0 <= i < |rows| => key(rows[i].1))
  }

  /** The number of matching rows whose key is `g`. */
  function GroupSize<T>(m: map<int, T>, p: T -> bool, key: T -> Option<string>, g: Option<string>): nat {
    |set k | k in m && p(m[k]) && key(m[k]) == g|
  }

  function RoleKey(): User -> Option<string> {
    (u: User) => Some(u.role)
  }

  function KindKey(): Incident -> Option<string> {
    (i: Incident) => Some(i.kind)
  }

  function SeverityKey(): Incident -> Option<string> {
    (i: Incident) => Some(i.severity)
  }

  function PhaseKey(): Photo -> Option<string> {
    (p: Photo) => p.phase
  }

  /** `SELECT COUNT(*) ... WHERE p`. */
  function Count<T>(m: map<int, T>, p: T -> bool): nat {
    |set k | k in m && p(m[k])|
  }

  /** A count whose condition also looks at the row id. */
  function CountWhere<T>(m: map<int, T>, p: T -> bool, also: int -> bool): nat {
    |set k | k in m && p(m[k]) && also(k)|
  }

  /** Progress rows of user `u` that are completed and belong to a required module. */
  function CompletedRequired(t: Tables, u: int): set<int> {
    set k | k in t.progress && t.progress[k].userId == u && t.progress[k].status == Some("completed")
      && t.progress[k].moduleId in t.modules && t.modules[t.progress[k].moduleId].required
  }

  /** Users whose group survives `GROUP BY tp.user_id HAVING COUNT(*) >= n`: they have at
      least one completed required row (otherwise there is no group) and at least `n`. */
  predicate Qualifies(t: Tables, u: int, n: int) {
    |CompletedRequired(t, u)| > 0 && |CompletedRequired(t, u)| >= n
  }

  function QualifyingUser(t: Tables, n: int): ((int, User)) -> bool {
    (e: (int, User)) => Qualifies(t, e.0, n)
  }

  // ---------------------------------------------------------------------------------
  // Evaluation
  // ---------------------------------------------------------------------------------

  function UserRows(s: seq<(int, User)>): seq<Row> { seq(|s|, i requires 0 <= i < |s| => UserRow(s[i].0, s[i].1)) }
  function IncidentRows(s: seq<(int, Incident)>): seq<Row> { seq(|s|, i requires 0 <= i < |s| => IncidentRow(s[i].0, s[i].1)) }
  function PhotoRows(s: seq<(int, Photo)>): seq<Row> { seq(|s|, i requires 0 <= i < |s| => PhotoRow(s[i].0, s[i].1)) }
  function ModuleRows(s: seq<(int, Module)>): seq<Row> { seq(|s|, i requires 0 <= i < |s| => ModuleRow(s[i].0, s[i].1)) }
  function ProgressRows(s: seq<(int, Progress)>): seq<Row> { seq(|s|, i requires 0 <= i < |s| => ProgressRow(s[i].0, s[i].1)) }
  function DocumentRows(s: seq<(int, Document)>): seq<Row> { seq(|s|, i requires 0 <= i < |s| => DocumentRow(s[i].0, s[i].1)) }

  /** The user listing: every user, active or not, newest first. */
  function ListedUsers(t: Tables): seq<Row> {
    AccountRows(Listing(t.users, Anything(), UserNewer, -1, 0))
  }

  /** The columns the user listing selects (no password hash, no phone). */
  function AccountRows(s: seq<(int, User)>): seq<Row> {
    seq(|s|, i requires 0 <= i < |s| =>
      var u := s[i].1;
      AccountRow(s[i].0, u.email, u.firstName, u.lastName, u.role, u.department, u.active,
                 u.lastLogin, u.createdAt))
  }

  /** `SELECT tp.id, tp.completed_at, tm.title FROM training_progress tp JOIN
      training_modules tm ... WHERE tp.status = 'completed' ORDER BY tp.completed_at DESC LIMIT 5`. */
  function RecentCompletionRows(t: Tables): seq<Row> {
    var s := Listing(t.progress, CompletedJoined(t.modules), CompletedNewer, 5, 0);
    seq(|s|, i requires 0 <= i < |s| =>
      CompletionRow(s[i].0, s[i].1.completedAt,
                    if s[i].1.moduleId in t.modules then t.modules[s[i].1.moduleId].title else ""))
  }

  /** The rows SQLite returns for `q` once every table exists. */
  function Answer(t: Tables, q: Select): seq<Row> {
    match q
    case UserById(_) | UserByEmail(_) | ActiveUserById(_) | FirstUserWithRole(_) | ListUsers => UserAnswer(t, q)
    case IncidentById(_) | IncidentByTitle(_) | ListIncidents(_, _, _, _, _) | CountIncidents => IncidentAnswer(t, q)
    case PhotoById(_) | ListPhotos(_, _, _, _) => PhotoAnswer(t, q)
    case ModuleById(_) | ModuleByTitle(_) | ListModules(_, _, _) | ProgressOf(_, _) => TrainingAnswer(t, q)
    case DocumentById(_) | DocumentByTitle(_) | ListDocuments(_, _) => DocumentAnswer(t, q)
    case _ => DashboardAnswer(t, q)
  }

  function UserAnswer(t: Tables, q: Select): seq<Row> {
    match q
    case UserById(id) => UserRows(Lookup(t.users, id))
    case UserByEmail(email) => UserRows(Matching(t.users, EmailIs(email)))
    case ActiveUserById(id) => UserRows(if id in t.users && t.users[id].active then [(id, t.users[id])] else [])
    case FirstUserWithRole(role) => UserRows(Window(Matching(t.users, RoleIs(role)), 1, 0))
    case _ => ListedUsers(t)
  }

  function IncidentAnswer(t: Tables, q: Select): seq<Row> {
    match q
    case IncidentById(id) => IncidentRows(Lookup(t.incidents, id))
    case IncidentByTitle(title) => IncidentRows(Matching(t.incidents, IncidentTitled(title)))
    case ListIncidents(status, severity, kind, limit, offset) =>
      IncidentRows(Listing(t.incidents, IncidentMatch(status, severity, kind), IncidentNewer, limit, offset))
    case _ => [CountRow(|t.incidents|)]
  }

  function PhotoAnswer(t: Tables, q: Select): seq<Row> {
    match q
    case PhotoById(id) => PhotoRows(Lookup(t.photos, id))
    case ListPhotos(phase, incidentId, limit, offset) =>
      PhotoRows(Listing(t.photos, PhotoMatch(phase, incidentId), PhotoNewer, limit, offset))
    case _ => []
  }

  function TrainingAnswer(t: Tables, q: Select): seq<Row> {
    match q
    case ModuleById(id) => ModuleRows(Lookup(t.modules, id))
    case ModuleByTitle(title) => ModuleRows(Matching(t.modules, ModuleTitled(title)))
    case ListModules(category, required, limit) =>
      ModuleRows(Listing(t.modules, ModuleMatch(category, required), RequiredThenTitle, limit, 0))
    case ProgressOf(userId, moduleId) => ProgressRows(Matching(t.progress, PairIs(userId, moduleId)))
    case _ => []
  }

  function DocumentAnswer(t: Tables, q: Select): seq<Row> {
    match q
    case DocumentById(id) => DocumentRows(Lookup(t.documents, id))
    case DocumentByTitle(title) => DocumentRows(Matching(t.documents, DocumentTitled(title)))
    case ListDocuments(category, limit) =>
      DocumentRows(Listing(t.documents, DocumentMatch(category), DocumentNewer, limit, 0))
    case _ => []
  }

  /** The aggregate reads of the dashboard. */
  function DashboardAnswer(t: Tables, q: Select): seq<Row> {
    match q
    case CountActiveUsers => [CountRow(Count(t.users, IsActiveUser()))]
    case ActiveUsersByRole => Groups(t.users, IsActiveUser(), RoleKey())
    case CountOpenIncidents => [CountRow(Count(t.incidents, OpenIncident()))]
    case CountResolvedSince(since) => [CountRow(Count(t.incidents, ResolvedSince(since)))]
    case IncidentsByType => Groups(t.incidents, Anything(), KindKey())
    case IncidentsBySeverity => Groups(t.incidents, Anything(), SeverityKey())
    case CountActiveModules => [CountRow(Count(t.modules, IsActiveModule()))]
    case CountCompletedProgress => [CountRow(Count(t.progress, IsCompleted()))]
    case CountPhotos => [CountRow(|t.photos|)]
    case PhotosByPhase => Groups(t.photos, Anything(), PhaseKey())
    case RecentIncidents => IncidentRows(Listing(t.incidents, Anything(), IncidentNewer, 5, 0))
    case RecentPhotos => PhotoRows(Listing(t.photos, Anything(), PhotoNewer, 5, 0))
    case RecentCompletions => RecentCompletionRows(t)
    case CountRequiredModules => [CountRow(Count(t.modules, RequiredActiveModule()))]
    case CompliantGroups(n) => CompliantGroupRows(t, n)
    case CountCompliantUsers(n) => [CountRow(CompliantUserCount(t, n))]
    case _ => [CountRow(Count(t.incidents, CriticalOpen()))]
  }

  /** `SELECT COUNT(DISTINCT tp.user_id) ... GROUP BY tp.user_id HAVING COUNT(*) >= n`:
      one row per qualifying user, each counting that one user. */
  function CompliantGroupRows(t: Tables, n: int): seq<Row> {
    var groups := Where(All(t.users), QualifyingUser(t, n));
    seq(|groups|, i requires 0 <= i < |groups| => CountRow(1))
  }

  /** The number of active users who qualify. */
  function CompliantUserCount(t: Tables, n: int): nat {
    CountWhere(t.users, IsActiveUser(), QualifyingId(t, n))
  }

  function QualifyingId(t: Tables, n: int): int -> bool {
    (u: int) => Qualifies(t, u, n)
  }

  /** A SELECT fails when a table it reads has not been created. */
  function Eval(t: Tables, q: Select): Result<seq<Row>, SqlError> {
    if TableNames <= t.schema then Ok(Answer(t, q)) else Err(NoSuchTable)
  }

  lemma EvalListModules(t: Tables, category: Option<string>, required: Option<bool>, limit: int)
    requires TableNames <= t.schema
    ensures Eval(t, ListModules(category, required, limit))
      == Ok(ModuleRows(Listing(t.modules, ModuleMatch(category, required), RequiredThenTitle, limit, 0)))
  {
    TrainingDispatch(t, ListModules(category, required, limit));
  }

  lemma EvalModuleById(t: Tables, id: int)
    requires TableNames <= t.schema
    ensures Eval(t, ModuleById(id)) == Ok(ModuleRows(Lookup(t.modules, id)))
  {
    TrainingDispatch(t, ModuleById(id));
  }

  lemma EvalProgressOf(t: Tables, userId: int, moduleId: int)
    requires TableNames <= t.schema
    ensures Eval(t, ProgressOf(userId, moduleId)) == Ok(ProgressRows(Matching(t.progress, PairIs(userId, moduleId))))
    ensures Eval(t, ProgressOf(userId, moduleId)).value == [] <==> !PairTaken(t.progress, userId, moduleId)
  {
    TrainingDispatch(t, ProgressOf(userId, moduleId));
    PairLookup(t.progress, userId, moduleId);
  }

  /** The training reads are answered from the modules and progress tables. */
  lemma TrainingDispatch(t: Tables, q: Select)
    requires q.ModuleById? || q.ModuleByTitle? || q.ListModules? || q.ProgressOf?
    ensures Answer(t, q) == TrainingAnswer(t, q)
  {
  }

  /** The pair lookup finds a row exactly when the pair has one. */
  lemma PairLookup(progress: map<int, Progress>, userId: int, moduleId: int)
    ensures Matching(progress, PairIs(userId, moduleId)) == [] <==> !PairTaken(progress, userId, moduleId)
  {
    var rows := Matching(progress, PairIs(userId, moduleId));
    if PairTaken(progress, userId, moduleId) {
      var k :| k in progress && progress[k].userId == userId && progress[k].moduleId == moduleId;
      assert (k, progress[k]) in rows;
    }
  }

  // Lookups and listings once the tables exist, one per statement a handler reads with.

  lemma EvalIncidentById(t: Tables, id: int)
    requires TableNames <= t.schema
    ensures Eval(t, IncidentById(id)) == Ok(IncidentRows(Lookup(t.incidents, id)))
  {
    IncidentDispatch(t, IncidentById(id));
  }

  lemma EvalListIncidents(t: Tables, status: Option<string>, severity: Option<string>, kind: Option<string>,
                          limit: int, offset: int)
    requires TableNames <= t.schema
    ensures Eval(t, ListIncidents(status, severity, kind, limit, offset))
      == Ok(IncidentRows(Listing(t.incidents, IncidentMatch(status, severity, kind), IncidentNewer, limit, offset)))
    ensures Eval(t, CountIncidents) == Ok([CountRow(|t.incidents|)])
  {
    var q := ListIncidents(status, severity, kind, limit, offset);
    IncidentDispatch(t, q);
    IncidentDispatch(t, CountIncidents);
    assert IncidentAnswer(t, q)
      == IncidentRows(Listing(t.incidents, IncidentMatch(status, severity, kind), IncidentNewer, limit, offset));
  }

  /** The incident reads are answered from the incidents table. */
  lemma IncidentDispatch(t: Tables, q: Select)
    requires q.IncidentById? || q.IncidentByTitle? || q.ListIncidents? || q.CountIncidents?
    ensures Answer(t, q) == IncidentAnswer(t, q)
  {
  }

  lemma EvalPhotoById(t: Tables, id: int)
    requires TableNames <= t.schema
    ensures Eval(t, PhotoById(id)) == Ok(PhotoRows(Lookup(t.photos, id)))
  {
    PhotoDispatch(t, PhotoById(id));
  }

  lemma EvalListPhotos(t: Tables, phase: Option<string>, incidentId: Option<int>, limit: int, offset: int)
    requires TableNames <= t.schema
    ensures Eval(t, ListPhotos(phase, incidentId, limit, offset))
      == Ok(PhotoRows(Listing(t.photos, PhotoMatch(phase, incidentId), PhotoNewer, limit, offset)))
  {
    var q := ListPhotos(phase, incidentId, limit, offset);
    PhotoDispatch(t, q);
    assert PhotoAnswer(t, q) == PhotoRows(Listing(t.photos, PhotoMatch(phase, incidentId), PhotoNewer, limit, offset));
  }

  /** The photo reads are answered from the photos table. */
  lemma PhotoDispatch(t: Tables, q: Select)
    requires q.PhotoById? || q.ListPhotos?
    ensures Answer(t, q) == PhotoAnswer(t, q)
  {
  }

  lemma EvalDocumentById(t: Tables, id: int)
    requires TableNames <= t.schema
    ensures Eval(t, DocumentById(id)) == Ok(DocumentRows(Lookup(t.documents, id)))
  {
    DocumentDispatch(t, DocumentById(id));
  }

  lemma EvalListDocuments(t: Tables, category: Option<string>, limit: int)
    requires TableNames <= t.schema
    ensures Eval(t, ListDocuments(category, limit))
      == Ok(DocumentRows(Listing(t.documents, DocumentMatch(category), DocumentNewer, limit, 0)))
  {
    DocumentDispatch(t, ListDocuments(category, limit));
  }

  /** The document reads are answered from the documents table. */
  lemma DocumentDispatch(t: Tables, q: Select)
    requires q.DocumentById? || q.DocumentByTitle? || q.ListDocuments?
    ensures Answer(t, q) == DocumentAnswer(t, q)
  {
  }

  lemma EvalUserById(t: Tables, id: int)
    requires TableNames <= t.schema
    ensures Eval(t, UserById(id)) == Ok(UserRows(Lookup(t.users, id)))
  {
    UserDispatch(t, UserById(id));
  }

  /** The user reads are answered from the users table. */
  lemma UserDispatch(t: Tables, q: Select)
    requires q.UserById? || q.UserByEmail? || q.ActiveUserById? || q.FirstUserWithRole? || q.ListUsers?
    ensures Answer(t, q) == UserAnswer(t, q)
  {
  }

  /** The email lookup finds a row exactly when the email is taken. */
  lemma EvalUserByEmail(t: Tables, email: string)
    requires TableNames <= t.schema
    ensures Eval(t, UserByEmail(email)) == Ok(UserRows(Matching(t.users, EmailIs(email))))
    ensures Eval(t, UserByEmail(email)).value == [] <==> !EmailTaken(t.users, email)
  {
    UserDispatch(t, UserByEmail(email));
    var rows := Matching(t.users, EmailIs(email));
    if EmailTaken(t.users, email) {
      var k :| k in t.users && t.users[k].email == email;
      assert (k, t.users[k]) in rows;
    }
  }

  lemma EvalListUsers(t: Tables)
    requires TableNames <= t.schema
    ensures Eval(t, ListUsers) == Ok(ListedUsers(t))
  {
    UserDispatch(t, ListUsers);
  }
}
