/** The dashboard handlers of server/routes/dashboard.js: the integer statistics of
    /stats, the merged, sorted and truncated activity feed, and the integer counts of
    /compliance. Every read goes through `get` / `all`; no handler writes. */
module Dashboard {
  import opened Wrappers
  import opened Schema
  import opened Engine
  import opened Ordering
  import opened Queries
  import opened Store
  import opened Js

  // ---------------------------------------------------------------------------------
  // Reading counts
  // ---------------------------------------------------------------------------------

  /** `db.get(q)?.count || 0`: the count of the first row, or 0 when there is none. */
  function CountAnswer(t: Tables, q: Select): nat {
    var rows := Answer(t, q);
    if rows != [] && rows[0].CountRow? then rows[0].count else 0
  }

  method GetCount(db: Database, q: Select) returns (n: nat)
    requires db.Valid() && db.initialized
    ensures n == CountAnswer(db.tables, q)
  {
    var row := db.Get(q);
    n := 0;
    if row.Ok? && row.value.Some? && row.value.value.CountRow? {
      n := row.value.value.count;
    }
  }

  method GetAll(db: Database, q: Select) returns (rows: seq<Row>)
    requires db.Valid() && db.initialized
    ensures rows == Answer(db.tables, q)
  {
    var r := db.All(q);
    rows := if r.Ok? then r.value else [];
  }

  /** A COUNT(*) with a WHERE clause counts a subset of what a weaker clause counts. */
  lemma {:induction false} CountMonotone<T>(m: map<int, T>, p: T -> bool, q: T -> bool)
    requires forall x :: p(x) ==> q(x)
    ensures Count(m, p) <= Count(m, q) <= |m|
  {
    var a := set k | k in m && p(m[k]);
    var b := set k | k in m && q(m[k]);
    SubsetCard(a, b);
    SubsetCard(b, m.Keys);
  }

  lemma {:induction false} SubsetCard(a: set<int>, b: set<int>)
    requires a <= b
    ensures |a| <= |b|
    decreases |b|
  {
    if a != {} {
      var x := Pick(a);
      SubsetCard(a - {x}, b - {x});
    }
  }

  // ---------------------------------------------------------------------------------
  // GROUP BY
  // ---------------------------------------------------------------------------------

  ghost predicate KeyOfSome<T>(m: map<int, T>, p: T -> bool, key: T -> Option<string>, g: Option<string>) {
    exists k :: k in m && p(m[k]) && key(m[k]) == g
  }

  lemma KeyOrder()
    ensures TotalPreorder(KeyLe)
  {
    forall a: Option<string>, b: Option<string> ensures KeyLe(a, b) || KeyLe(b, a) {
      if a.Some? && b.Some? {
        StrLeTotal(a.value, b.value);
      }
    }
    forall a: Option<string>, b: Option<string>, c: Option<string> | KeyLe(a, b) && KeyLe(b, c)
      ensures KeyLe(a, c)
    {
      if a.Some? && b.Some? && c.Some? {
        StrLeTransitive(a.value, b.value, c.value);
      }
    }
  }

  /** Sorting the distinct elements keeps exactly the elements. */
  lemma SortedDistinctMembers<T(!new)>(s: seq<T>, before: (T, T) -> bool)
    ensures forall x :: x in SortBy(Distinct(s), before) <==> x in s
  {
    forall x ensures x in SortBy(Distinct(s), before) <==> x in s {
      if x in SortBy(Distinct(s), before) {
        assert x in multiset(SortBy(Distinct(s), before));
      }
      if x in s {
        assert x in multiset(Distinct(s));
      }
    }
  }

  /** The keys of the matching rows are the keys some matching row carries. */
  lemma KeyColumnMembers<T>(rows: seq<(int, T)>, m: map<int, T>, p: T -> bool, key: T -> Option<string>)
    requires forall e :: e in rows <==> e.0 in m && e.1 == m[e.0] && p(e.1)
    ensures forall g :: g in KeyColumn(rows, key) <==> KeyOfSome(m, p, key, g)
  {
    var c := KeyColumn(rows, key);
    forall g ensures g in c <==> KeyOfSome(m, p, key, g) {
      if g in c {
        var j :| 0 <= j < |c| && c[j] == g;
        assert rows[j] in rows;
        var k := rows[j].0;
        assert k in m && p(m[k]) && key(m[k]) == g;
      }
      if KeyOfSome(m, p, key, g) {
        var k :| k in m && p(m[k]) && key(m[k]) == g;
        assert (k, m[k]) in rows;
        var j :| 0 <= j < |rows| && rows[j] == (k, m[k]);
        assert c[j] == g;
      }
    }
  }

  /** The group keys are exactly the keys some matching row carries. */
  lemma GroupKeysMembers<T(!new)>(m: map<int, T>, p: T -> bool, key: T -> Option<string>)
    ensures forall g :: g in GroupKeys(m, p, key) <==> KeyOfSome(m, p, key, g)
  {
    KeyColumnMembers(Matching(m, p), m, p, key);
    SortedDistinctMembers(KeyColumn(Matching(m, p), key), KeyLe);
  }

  /** The group keys come in ascending order, NULL first. */
  lemma GroupKeysSorted<T(!new)>(m: map<int, T>, p: T -> bool, key: T -> Option<string>)
    ensures Sorted(GroupKeys(m, p, key), KeyLe)
  {
    KeyOrder();
    SortBySorted(Distinct(KeyColumn(Matching(m, p), key)), KeyLe);
  }

  /** A GROUP BY answer has one row per key carried by some matching row, and no other:
      each group counts the matching rows with its key, none is empty, and the keys come
      in ascending order, NULL first. */
  lemma GroupsSpec<T(!new)>(m: map<int, T>, p: T -> bool, key: T -> Option<string>)
    ensures var r := Groups(m, p, key);
      && (forall i :: 0 <= i < |r| ==>
            && r[i].GroupRow? && KeyOfSome(m, p, key, r[i].key)
            && r[i].count == GroupSize(m, p, key, r[i].key) && r[i].count > 0)
      && (forall k :: k in m && p(m[k]) ==> exists i :: 0 <= i < |r| && r[i].key == key(m[k]))
      && (forall i, j :: 0 <= i < j < |r| ==> KeyLe(r[i].key, r[j].key))
  {
    var keys := GroupKeys(m, p, key);
    var r := Groups(m, p, key);
    GroupKeysMembers(m, p, key);
    GroupKeysSorted(m, p, key);
    forall i | 0 <= i < |r|
      ensures r[i].GroupRow? && KeyOfSome(m, p, key, r[i].key)
      ensures r[i].count == GroupSize(m, p, key, r[i].key) && r[i].count > 0
    {
      assert r[i].key == keys[i] && keys[i] in keys;
      var k :| k in m && p(m[k]) && key(m[k]) == keys[i];
      assert k in set k' | k' in m && p(m[k']) && key(m[k']) == keys[i];
    }
    forall k | k in m && p(m[k]) ensures exists i :: 0 <= i < |r| && r[i].key == key(m[k]) {
      assert KeyOfSome(m, p, key, key(m[k]));
      var i :| 0 <= i < |keys| && keys[i] == key(m[k]);
      assert r[i].key == key(m[k]);
    }
    forall i, j | 0 <= i < j < |r| ensures KeyLe(r[i].key, r[j].key) {
      assert r[i].key == keys[i] && r[j].key == keys[j];
    }
  }

  // ---------------------------------------------------------------------------------
  // GET /stats
  // ---------------------------------------------------------------------------------

  /** `Math.round((part / whole) * 100)`, computed exactly: the nearest integer to the
      percentage, halves rounded up. */
  function Percent(part: nat, whole: nat): (r: nat)
    requires whole > 0
    ensures 2 * whole * r <= 200 * part + whole < 2 * whole * (r + 1)
  {
    var d := 2 * whole;
    var x := 200 * part + whole;
    assert d * (x / d) + x % d == x;
    x / d
  }

  /** A part of the whole is at most 100 percent. */
  lemma PercentAtMost100(part: nat, whole: nat)
    requires 0 < whole && part <= whole
    ensures Percent(part, whole) <= 100
  {
    var r := Percent(part, whole);
    assert whole * (2 * r) <= whole * 201;
    MulCancel(whole, 2 * r, 201);
  }

  /** All of the whole is 100 percent. */
  lemma PercentOfWhole(whole: nat)
    requires whole > 0
    ensures Percent(whole, whole) == 100
  {
    var h := Percent(whole, whole);
    assert whole * (2 * h) <= whole * 201;
    MulCancel(whole, 2 * h, 201);
    assert whole * 199 < whole * (2 * h);
    MulLess(whole, 199, 2 * h);
  }

  /** The completion rate of /stats: the completed rows as a percentage of every
      (active user, active module) pair, 0 when there are no users or no modules. */
  function CompletionRate(users: nat, modules: nat, completed: nat): (r: nat)
    ensures users == 0 || modules == 0 ==> r == 0
    ensures users > 0 && modules > 0 ==> r == Percent(completed, users * modules)
  {
    if users > 0 && modules > 0 then Percent(completed, users * modules) else 0
  }

  lemma MulCancel(a: int, b: int, c: int)
    requires a > 0 && a * b <= a * c
    ensures b <= c
  {
  }

  lemma MulLess(a: int, b: int, c: int)
    requires a > 0 && a * b < a * c
    ensures b < c
  {
  }

  /** The integer part of the /stats answer. */
  datatype Stats = Stats(
    totalUsers: nat, usersByRole: seq<Row>,
    totalIncidents: nat, openIncidents: nat, resolvedThisMonth: nat,
    incidentsByType: seq<Row>, incidentsBySeverity: seq<Row>,
    totalModules: nat, completedTraining: nat, completionRate: nat,
    totalPhotos: nat, photosByPhase: seq<Row>)

  /** What /stats reads; `monthStart` is `datetime('now', 'start of month')`. */
  function StatsOf(t: Tables, monthStart: Time): Stats {
    var users := CountAnswer(t, CountActiveUsers);
    var modules := CountAnswer(t, CountActiveModules);
    var completed := CountAnswer(t, CountCompletedProgress);
    Stats(users, Answer(t, ActiveUsersByRole),
          CountAnswer(t, CountIncidents), CountAnswer(t, CountOpenIncidents),
          CountAnswer(t, CountResolvedSince(monthStart)),
          Answer(t, IncidentsByType), Answer(t, IncidentsBySeverity),
          modules, completed, CompletionRate(users, modules, completed),
          CountAnswer(t, CountPhotos), Answer(t, PhotosByPhase))
  }

  /** GET /stats (optional authentication, which does not affect the answer). */
  method GetStats(db: Database, monthStart: Time) returns (code: int, stats: Stats)
    requires db.Valid() && db.initialized
    ensures code == 200 && stats == StatsOf(db.tables, monthStart)
  {
    var totalUsers := GetCount(db, CountActiveUsers);
    var usersByRole := GetAll(db, ActiveUsersByRole);
    var totalIncidents := GetCount(db, CountIncidents);
    var openIncidents := GetCount(db, CountOpenIncidents);
    var resolvedThisMonth := GetCount(db, CountResolvedSince(monthStart));
    var incidentsByType := GetAll(db, IncidentsByType);
    var incidentsBySeverity := GetAll(db, IncidentsBySeverity);
    var totalModules := GetCount(db, CountActiveModules);
    var completedTraining := GetCount(db, CountCompletedProgress);
    var completionRate := 0;
    if totalUsers > 0 && totalModules > 0 {
      completionRate := CompletionRate(totalUsers, totalModules, completedTraining);
    }
    var totalPhotos := GetCount(db, CountPhotos);
    var photosByPhase := GetAll(db, PhotosByPhase);
    code := 200;
    stats := Stats(totalUsers, usersByRole, totalIncidents, openIncidents, resolvedThisMonth,
                   incidentsByType, incidentsBySeverity, totalModules, completedTraining, completionRate,
                   totalPhotos, photosByPhase);
  }

  // What each dashboard read returns.

  lemma ReadActiveUsers(t: Tables)
    ensures CountAnswer(t, CountActiveUsers) == Count(t.users, IsActiveUser())
  {
    assert Answer(t, CountActiveUsers) == DashboardAnswer(t, CountActiveUsers);
  }

  lemma ReadUsersByRole(t: Tables)
    ensures Answer(t, ActiveUsersByRole) == Groups(t.users, IsActiveUser(), RoleKey())
  {
    assert Answer(t, ActiveUsersByRole) == DashboardAnswer(t, ActiveUsersByRole);
  }

  lemma ReadIncidentTotal(t: Tables)
    ensures CountAnswer(t, CountIncidents) == |t.incidents|
  {
    assert Answer(t, CountIncidents) == IncidentAnswer(t, CountIncidents);
  }

  lemma ReadOpenIncidents(t: Tables)
    ensures CountAnswer(t, CountOpenIncidents) == Count(t.incidents, OpenIncident())
  {
    assert Answer(t, CountOpenIncidents) == DashboardAnswer(t, CountOpenIncidents);
  }

  lemma ReadResolvedSince(t: Tables, since: Time)
    ensures CountAnswer(t, CountResolvedSince(since)) == Count(t.incidents, ResolvedSince(since))
  {
    assert Answer(t, CountResolvedSince(since)) == DashboardAnswer(t, CountResolvedSince(since));
  }

  lemma ReadCriticalOpen(t: Tables)
    ensures CountAnswer(t, CountCriticalOpen) == Count(t.incidents, CriticalOpen())
  {
    assert Answer(t, CountCriticalOpen) == DashboardAnswer(t, CountCriticalOpen);
  }

  lemma ReadActiveModules(t: Tables)
    ensures CountAnswer(t, CountActiveModules) == Count(t.modules, IsActiveModule())
  {
    assert Answer(t, CountActiveModules) == DashboardAnswer(t, CountActiveModules);
  }

  lemma ReadCompletedProgress(t: Tables)
    ensures CountAnswer(t, CountCompletedProgress) == Count(t.progress, IsCompleted())
  {
    assert Answer(t, CountCompletedProgress) == DashboardAnswer(t, CountCompletedProgress);
  }

  lemma ReadRequiredModules(t: Tables)
    ensures CountAnswer(t, CountRequiredModules) == Count(t.modules, RequiredActiveModule())
  {
    assert Answer(t, CountRequiredModules) == DashboardAnswer(t, CountRequiredModules);
  }

  lemma ReadPhotoCounts(t: Tables)
    ensures CountAnswer(t, CountPhotos) == |t.photos|
  {
    assert Answer(t, CountPhotos) == DashboardAnswer(t, CountPhotos);
  }

  /** The user counts of /stats see active users only; the open count is the incidents
      'reported' or 'investigating', which are among all incidents; the resolved count
      sees incidents resolved since the month began; the rate is 0 unless there are
      both active users and active modules. */
  lemma StatsCounts(t: Tables, monthStart: Time)
    ensures var s := StatsOf(t, monthStart);
      && s.totalUsers == Count(t.users, IsActiveUser()) <= |t.users|
      && s.totalIncidents == |t.incidents|
      && s.openIncidents == Count(t.incidents, OpenIncident())
      && s.openIncidents <= s.totalIncidents
      && s.resolvedThisMonth == Count(t.incidents, ResolvedSince(monthStart))
      && s.totalModules == Count(t.modules, IsActiveModule()) <= |t.modules|
      && s.completedTraining == Count(t.progress, IsCompleted()) <= |t.progress|
      && s.totalPhotos == |t.photos|
      && (s.completionRate > 0 ==> s.totalUsers > 0 && s.totalModules > 0)
  {
    ReadActiveUsers(t);
    ReadIncidentTotal(t);
    ReadOpenIncidents(t);
    ReadResolvedSince(t, monthStart);
    ReadActiveModules(t);
    ReadCompletedProgress(t);
    ReadPhotoCounts(t);
    CountMonotone(t.incidents, OpenIncident(), Anything());
    CountMonotone(t.users, IsActiveUser(), Anything());
    CountMonotone(t.modules, IsActiveModule(), Anything());
    CountMonotone(t.progress, IsCompleted(), Anything());
  }

  /** The by-role groups of /stats count active users only: one group per role that
      some active user holds, each with the number of active users in that role, in
      role order. */
  lemma StatsGroups(t: Tables, monthStart: Time)
    ensures var g := StatsOf(t, monthStart).usersByRole;
      && (forall i :: 0 <= i < |g| ==>
            && g[i].GroupRow? && g[i].key.Some? && g[i].count > 0
            && g[i].count == GroupSize(t.users, IsActiveUser(), RoleKey(), g[i].key))
      && (forall k :: k in t.users && t.users[k].active ==>
            exists i :: 0 <= i < |g| && g[i].key == Some(t.users[k].role))
      && (forall i, j :: 0 <= i < j < |g| ==> KeyLe(g[i].key, g[j].key))
  {
    ReadUsersByRole(t);
    GroupsSpec(t.users, IsActiveUser(), RoleKey());
    var g := Groups(t.users, IsActiveUser(), RoleKey());
    assert StatsOf(t, monthStart).usersByRole == g;
    forall i | 0 <= i < |g| ensures g[i].key.Some? {
      assert KeyOfSome(t.users, IsActiveUser(), RoleKey(), g[i].key);
    }
    forall k | k in t.users && t.users[k].active
      ensures exists i :: 0 <= i < |g| && g[i].key == Some(t.users[k].role)
    {
      assert IsActiveUser()(t.users[k]) && RoleKey()(t.users[k]) == Some(t.users[k].role);
    }
  }

  // ---------------------------------------------------------------------------------
  // GET /compliance
  // ---------------------------------------------------------------------------------

  /** The integer part of the /compliance answer (the average resolution time is left
      out) and the overall score. */
  datatype Compliance = Compliance(trainingCompliance: nat, requiredModules: nat,
                                   criticalOpenIncidents: nat, overallScore: real)

  /** `totalActiveUsers > 0 ? Math.round(withAll / totalActiveUsers * 100) : 0`. */
  function ComplianceRate(withAll: nat, activeUsers: nat): nat {
    if activeUsers > 0 then Percent(withAll, activeUsers) else 0
  }

  /** `Math.max(0, 100 - criticalOpen * 10 - (100 - trainingCompliance) / 2)`; the value
      is a multiple of one half, which a double holds exactly. */
  function OverallScore(criticalOpen: nat, trainingCompliance: nat): (s: real)
    ensures s >= 0.0
    ensures trainingCompliance <= 100 ==> s <= 100.0
    ensures trainingCompliance <= 100 ==> (s == 100.0 <==> criticalOpen == 0 && trainingCompliance == 100)
    ensures criticalOpen >= 10 && trainingCompliance <= 100 ==> s == 0.0
  {
    var v := 100.0 - 10.0 * (criticalOpen as real) - (100.0 - trainingCompliance as real) / 2.0;
    if v > 0.0 then v else 0.0
  }

  /** The /compliance answer with the per-user count of users who completed every
      required module; `withAll` is the `usersWithAllRequired` read. */
  function ComplianceFrom(t: Tables, withAll: nat): Compliance {
    var required := CountAnswer(t, CountRequiredModules);
    var critical := CountAnswer(t, CountCriticalOpen);
    var rate := ComplianceRate(withAll, CountAnswer(t, CountActiveUsers));
    Compliance(rate, required, critical, OverallScore(critical, rate))
  }

  /** The handler as written: `db.get` of a GROUP BY query returns the first group only,
      whose `COUNT(DISTINCT tp.user_id)` is 1. */
  function ComplianceAsWritten(t: Tables): Compliance {
    var required := CountAnswer(t, CountRequiredModules);
    ComplianceFrom(t, CountAnswer(t, CompliantGroups(required)))
  }

  /** The handler with the count it evidently means: the active users with at least
      `requiredModules` completed required rows. */
  function ComplianceOf(t: Tables): Compliance {
    var required := CountAnswer(t, CountRequiredModules);
    ComplianceFrom(t, CountAnswer(t, CountCompliantUsers(required)))
  }

  /** GET /compliance, behind `authenticate`, as written: the user count is the first
      group of the GROUP BY statement (see `AsWrittenCountsOne`). */
  method GetCompliance(db: Database) returns (code: int, compliance: Compliance)
    requires db.Valid() && db.initialized
    ensures code == 200 && compliance == ComplianceAsWritten(db.tables)
  {
    var requiredModules := GetCount(db, CountRequiredModules);
    var usersWithAllRequired := GetCount(db, CompliantGroups(requiredModules));
    var totalActiveUsers := GetCount(db, CountActiveUsers);
    var trainingCompliance := 0;
    if totalActiveUsers > 0 {
      trainingCompliance := Percent(usersWithAllRequired, totalActiveUsers);
    }
    var criticalOpen := GetCount(db, CountCriticalOpen);
    code := 200;
    compliance := Compliance(trainingCompliance, requiredModules, criticalOpen,
                             OverallScore(criticalOpen, trainingCompliance));
  }

  lemma ReadCompliantGroups(t: Tables, n: int)
    ensures Answer(t, CompliantGroups(n)) == CompliantGroupRows(t, n)
  {
    assert Answer(t, CompliantGroups(n)) == DashboardAnswer(t, CompliantGroups(n));
  }

  lemma ReadCompliantUsers(t: Tables, n: int)
    ensures CountAnswer(t, CountCompliantUsers(n)) == CompliantUserCount(t, n)
  {
    assert Answer(t, CountCompliantUsers(n)) == DashboardAnswer(t, CountCompliantUsers(n));
  }

  /** The GROUP BY yields a row exactly when some user qualifies, each counting 1. */
  lemma CompliantGroupRowsSpec(t: Tables, n: int)
    ensures var r := CompliantGroupRows(t, n);
      && (forall i :: 0 <= i < |r| ==> r[i] == CountRow(1))
      && (r != [] <==> exists u :: u in t.users && Qualifies(t, u, n))
  {
    var groups := Where(All(t.users), QualifyingUser(t, n));
    if exists u :: u in t.users && Qualifies(t, u, n) {
      var u :| u in t.users && Qualifies(t, u, n);
      assert (u, t.users[u]) in All(t.users);
      assert QualifyingUser(t, n)((u, t.users[u]));
      assert (u, t.users[u]) in groups;
    }
    if groups != [] {
      assert groups[0] in groups;
      assert QualifyingUser(t, n)(groups[0]);
    }
  }

  /** As written, the user count is 1 whenever any user qualifies, however many do. */
  lemma AsWrittenCountsOne(t: Tables, n: int)
    ensures CountAnswer(t, CompliantGroups(n)) <= 1
    ensures CountAnswer(t, CompliantGroups(n)) == 1 <==> exists u :: u in t.users && Qualifies(t, u, n)
  {
    ReadCompliantGroups(t, n);
    CompliantGroupRowsSpec(t, n);
  }

  /** The corrected count counts active users, so the compliance rate is a percentage
      and the overall score lies between 0 and 100. */
  lemma ComplianceBounds(t: Tables)
    ensures var c := ComplianceOf(t);
      && c.trainingCompliance <= 100
      && 0.0 <= c.overallScore <= 100.0
      && c.requiredModules == Count(t.modules, RequiredActiveModule())
      && c.criticalOpenIncidents == Count(t.incidents, CriticalOpen())
      && (c.criticalOpenIncidents > 0 ==> c.overallScore < 100.0)
  {
    ReadCriticalOpen(t);
    ReadRequiredModules(t);
    var n := CountAnswer(t, CountRequiredModules);
    var w := CountAnswer(t, CountCompliantUsers(n));
    var users := CountAnswer(t, CountActiveUsers);
    CompliantAmongActive(t, n);
    var rate := ComplianceRate(w, users);
    if users > 0 {
      PercentAtMost100(w, users);
    }
    var critical := CountAnswer(t, CountCriticalOpen);
    assert ComplianceOf(t) == Compliance(rate, n, critical, OverallScore(critical, rate));
  }

  /** A rate over a count of at most one is a percentage, and positive only for one. */
  lemma RateOfAtMostOne(w: nat, users: nat)
    requires w <= 1
    ensures ComplianceRate(w, users) <= 100
    ensures ComplianceRate(w, users) > 0 ==> w == 1
  {
    if users > 0 {
      if w == 0 {
        assert Percent(0, users) == 0;
      } else {
        PercentAtMost100(w, users);
      }
    }
  }

  /** The answer as written is bounded like the corrected one: the rate is a
      percentage and the overall score lies between 0 and 100. */
  lemma AsWrittenBounds(t: Tables)
    ensures var c := ComplianceAsWritten(t);
      && c.trainingCompliance <= 100
      && 0.0 <= c.overallScore <= 100.0
      && c.requiredModules == Count(t.modules, RequiredActiveModule())
      && c.criticalOpenIncidents == Count(t.incidents, CriticalOpen())
      && (c.trainingCompliance > 0 ==>
            exists u :: u in t.users && Qualifies(t, u, c.requiredModules))
  {
    ReadCriticalOpen(t);
    ReadRequiredModules(t);
    var n := CountAnswer(t, CountRequiredModules);
    var w := CountAnswer(t, CompliantGroups(n));
    var rate := ComplianceRate(w, CountAnswer(t, CountActiveUsers));
    AsWrittenCountsOne(t, n);
    RateOfAtMostOne(w, CountAnswer(t, CountActiveUsers));
    var critical := CountAnswer(t, CountCriticalOpen);
    assert ComplianceAsWritten(t) == Compliance(rate, n, critical, OverallScore(critical, rate));
  }

  /** The corrected count never exceeds the active-user count. */
  lemma CompliantAmongActive(t: Tables, n: int)
    ensures CountAnswer(t, CountCompliantUsers(n)) <= CountAnswer(t, CountActiveUsers)
  {
    ReadActiveUsers(t);
    ReadCompliantUsers(t, n);
    CountNarrower(t.users, IsActiveUser(), QualifyingId(t, n));
  }

  /** A further condition on the row id only narrows a count. */
  lemma CountNarrower<T>(m: map<int, T>, p: T -> bool, also: int -> bool)
    ensures CountWhere(m, p, also) <= Count(m, p)
  {
    SubsetCard(set k | k in m && p(m[k]) && also(k), set k | k in m && p(m[k]));
  }

  /** Two active users who both completed the one required module: the handler as
      written reports one of them, the corrected count two. */
  lemma ComplianceCounterexample()
    ensures var t := TwoCompliantUsers();
      && CountAnswer(t, CompliantGroups(1)) == 1
      && CountAnswer(t, CountCompliantUsers(1)) == 2
      && CountAnswer(t, CountRequiredModules) == 1
      && ComplianceAsWritten(t).trainingCompliance == 50
      && ComplianceOf(t).trainingCompliance == 100
  {
    var t := TwoCompliantUsers();
    ExampleCounts();
    ExampleQualifies();
    assert 1 in t.users;
    AsWrittenCountsOne(t, 1);
    assert ComplianceAsWritten(t) == ComplianceFrom(t, 1);
    assert ComplianceFrom(t, 1).trainingCompliance == Percent(1, 2) == 50;
    assert ComplianceOf(t) == ComplianceFrom(t, 2);
    assert ComplianceFrom(t, 2).trainingCompliance == Percent(2, 2);
    PercentOfWhole(2);
  }

  lemma ExampleQualifies()
    ensures Qualifies(TwoCompliantUsers(), 1, 1) && Qualifies(TwoCompliantUsers(), 2, 1)
  {
    var t := TwoCompliantUsers();
    assert CompletedRequired(t, 1) == {1};
    assert CompletedRequired(t, 2) == {2};
  }

  lemma ExampleCounts()
    ensures var t := TwoCompliantUsers();
      && CountAnswer(t, CountRequiredModules) == 1
      && CountAnswer(t, CountActiveUsers) == 2
      && CountAnswer(t, CountCompliantUsers(1)) == 2
  {
    ExampleRequired();
    ExampleActive();
  }

  lemma ExampleRequired()
    ensures CountAnswer(TwoCompliantUsers(), CountRequiredModules) == 1
  {
    var t := TwoCompliantUsers();
    ReadRequiredModules(t);
    CountEverything(t.modules, RequiredActiveModule(), _ => true);
    assert t.modules.Keys == {1};
  }

  lemma ExampleActive()
    ensures CountAnswer(TwoCompliantUsers(), CountActiveUsers) == 2
    ensures CountAnswer(TwoCompliantUsers(), CountCompliantUsers(1)) == 2
  {
    var t := TwoCompliantUsers();
    ExampleQualifies();
    ReadActiveUsers(t);
    ReadCompliantUsers(t, 1);
    CountEverything(t.users, IsActiveUser(), QualifyingId(t, 1));
    assert t.users.Keys == {1, 2};
  }

  /** When every row matches, a count is the size of the table. */
  lemma CountEverything<T>(m: map<int, T>, p: T -> bool, also: int -> bool)
    requires forall k :: k in m ==> p(m[k]) && also(k)
    ensures Count(m, p) == |m| && CountWhere(m, p, also) == |m|
  {
    var a := set k | k in m && p(m[k]);
    var b := set k | k in m && p(m[k]) && also(k);
    forall k | k in m ensures k in a && k in b {
      assert p(m[k]) && also(k);
    }
    assert a == m.Keys && b == m.Keys;
  }

  /** Two active employees and one required, active module that both have completed. */
  function TwoCompliantUsers(): Tables {
    var u := User("a", "", "", "", "employee", None, None, true, None, 0, 0);
    var m := Module("", None, "safety", None, None, None, true, true, None, 0, 0);
    Tables(SchemaObjects, map[1 := u, 2 := u.(email := "b")], 2, map[], 0, map[], 0,
           map[1 := m], 1,
           map[1 := Progress(1, 1, Some("completed"), Some(100), None, Some(0), None),
               2 := Progress(2, 1, Some("completed"), Some(100), None, Some(0), None)], 2,
           map[], 0, map[], 0)
  }
}
