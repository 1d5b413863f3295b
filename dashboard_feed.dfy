/** The activity feed of server/routes/dashboard.js: the five newest incidents, photos
    and completions, turned into entries, merged, sorted newest first and cut to the
    requested length. */
module DashboardFeed {
  import opened Wrappers
  import opened Schema
  import opened Engine
  import opened Ordering
  import opened Queries
  import opened Store
  import opened Js
  import opened Dashboard

  /** One entry of the activity feed; `kind` is the `type` property. */
  datatype Activity = Activity(kind: string, title: string, description: string,
                               timestamp: Option<Time>, entityId: int)

  /** An entry for one of the five newest incidents. */
  function FromIncident(r: Row): Activity {
    match r
    case IncidentRow(id, i) => Activity("incident", i.title, i.kind + " incident reported", Some(i.createdAt), id)
    case _ => Activity("incident", "", "", None, 0)
  }

  /** An entry for one of the five newest photos; a missing phase prints as "null". */
  function FromPhoto(r: Row): Activity {
    match r
    case PhotoRow(id, p) =>
      Activity("photo", "Photo Upload - " + Show(p.phase),
               Or(p.description, Show(p.phase) + "-task documentation"), Some(p.createdAt), id)
    case _ => Activity("photo", "", "", None, 0)
  }

  /** An entry for one of the five newest completions. */
  function FromCompletion(r: Row): Activity {
    match r
    case CompletionRow(id, completedAt, title) =>
      Activity("training", "Training Completed: " + title, "Module completed successfully", completedAt, id)
    case _ => Activity("training", "", "", None, 0)
  }

  function MapRows(rows: seq<Row>, f: Row -> Activity): (r: seq<Activity>)
    ensures |r| == |rows| && forall i :: 0 <= i < |rows| ==> r[i] == f(rows[i])
  {
    seq(|rows|, i requires 0 <= i < |rows| => f(rows[i]))
  }

  /** The entries in the order they are pushed: incidents, photos, completions. */
  function Entries(t: Tables): seq<Activity> {
    MapRows(Answer(t, RecentIncidents), FromIncident)
      + MapRows(Answer(t, RecentPhotos), FromPhoto)
      + MapRows(Answer(t, RecentCompletions), FromCompletion)
  }

  /** The comparator `new Date(b.timestamp) - new Date(a.timestamp)`: newest first; a
      missing timestamp (the epoch) comes last. */
  predicate ActivityNewer(a: Activity, b: Activity) {
    b.timestamp.None? || (a.timestamp.Some? && a.timestamp.value >= b.timestamp.value)
  }

  lemma ActivityOrder()
    ensures TotalPreorder(ActivityNewer)
  {
  }

  /** The feed: every entry sorted (stably) newest first, then `slice(0, limit)` with
      `parseInt(limit) || 10`. */
  function ActivityFeed(t: Tables, limit: Option<int>): seq<Activity> {
    NewestFirst(Entries(t), limit)
  }

  /** `rows.forEach(r => activities.push(f(r)))`. */
  method PushAll(activities: seq<Activity>, rows: seq<Row>, f: Row -> Activity) returns (r: seq<Activity>)
    ensures r == activities + MapRows(rows, f)
  {
    ghost var pushed := MapRows(rows, f);
    r := activities;
    var i := 0;
    while i < |rows|
      invariant 0 <= i <= |rows|
      invariant r == activities + pushed[..i]
    {
      r := r + [f(rows[i])];
      i := i + 1;
    }
    assert pushed[..|rows|] == pushed;
  }

  /** The three reads and the pushes, in the handler's order. */
  method CollectEntries(db: Database) returns (activities: seq<Activity>)
    requires db.Valid() && db.initialized
    ensures activities == Entries(db.tables)
  {
    ghost var t := db.tables;
    var incidents := GetAll(db, RecentIncidents);
    var fromIncidents := PushAll([], incidents, FromIncident);
    assert fromIncidents == MapRows(Answer(t, RecentIncidents), FromIncident);
    var photos := GetAll(db, RecentPhotos);
    var fromPhotos := PushAll(fromIncidents, photos, FromPhoto);
    assert fromPhotos == fromIncidents + MapRows(Answer(t, RecentPhotos), FromPhoto);
    var training := GetAll(db, RecentCompletions);
    activities := PushAll(fromPhotos, training, FromCompletion);
    assert activities == fromPhotos + MapRows(Answer(t, RecentCompletions), FromCompletion);
  }

  /** Sorting and `slice(0, limit)`. */
  function NewestFirst(entries: seq<Activity>, limit: Option<int>): seq<Activity> {
    Slice0(SortBy(entries, ActivityNewer), NumOr(limit, 10))
  }

  /** GET /activity (optional authentication, which does not affect the answer). */
  method GetActivity(db: Database, limit: Option<int>) returns (code: int, feed: seq<Activity>)
    requires db.Valid() && db.initialized
    ensures code == 200 && feed == ActivityFeed(db.tables, limit)
  {
    var activities := CollectEntries(db);
    code := 200;
    feed := NewestFirst(activities, limit);
  }

  /** Where a feed entry comes from: an incident, a photo, or a completed progress row of
      an existing module, with the title and timestamp the handler builds from it. */
  ghost predicate FromTables(t: Tables, a: Activity) {
    || (a.kind == "incident" && a.entityId in t.incidents
        && a.title == t.incidents[a.entityId].title
        && a.timestamp == Some(t.incidents[a.entityId].createdAt))
    || (a.kind == "photo" && a.entityId in t.photos
        && a.title == "Photo Upload - " + Show(t.photos[a.entityId].phase)
        && a.timestamp == Some(t.photos[a.entityId].createdAt))
    || (a.kind == "training" && a.entityId in t.progress
        && t.progress[a.entityId].status == Some("completed")
        && t.progress[a.entityId].moduleId in t.modules
        && a.title == "Training Completed: " + t.modules[t.progress[a.entityId].moduleId].title
        && a.timestamp == t.progress[a.entityId].completedAt)
  }

  lemma ReadRecentIncidents(t: Tables)
    ensures Answer(t, RecentIncidents) == IncidentRows(Listing(t.incidents, Anything(), IncidentNewer, 5, 0))
  {
    assert Answer(t, RecentIncidents) == DashboardAnswer(t, RecentIncidents);
  }

  lemma ReadRecentPhotos(t: Tables)
    ensures Answer(t, RecentPhotos) == PhotoRows(Listing(t.photos, Anything(), PhotoNewer, 5, 0))
  {
    assert Answer(t, RecentPhotos) == DashboardAnswer(t, RecentPhotos);
  }

  lemma ReadRecentCompletions(t: Tables)
    ensures Answer(t, RecentCompletions) == RecentCompletionRows(t)
  {
    assert Answer(t, RecentCompletions) == DashboardAnswer(t, RecentCompletions);
  }

  lemma IncidentEntries(t: Tables)
    ensures var e := MapRows(Answer(t, RecentIncidents), FromIncident);
      |e| <= 5 && forall a :: a in e ==> FromTables(t, a)
  {
    ReadRecentIncidents(t);
    NewestFirstOrders();
    var l := Listing(t.incidents, Anything(), IncidentNewer, 5, 0);
    ListingSpec(t.incidents, Anything(), IncidentNewer, 5, 0);
    var e := MapRows(IncidentRows(l), FromIncident);
    forall a | a in e ensures FromTables(t, a) {
      var i :| 0 <= i < |e| && e[i] == a;
      assert l[i] in l;
    }
  }

  lemma PhotoEntries(t: Tables)
    ensures var e := MapRows(Answer(t, RecentPhotos), FromPhoto);
      |e| <= 5 && forall a :: a in e ==> FromTables(t, a)
  {
    ReadRecentPhotos(t);
    NewestFirstOrders();
    var l := Listing(t.photos, Anything(), PhotoNewer, 5, 0);
    ListingSpec(t.photos, Anything(), PhotoNewer, 5, 0);
    var e := MapRows(PhotoRows(l), FromPhoto);
    forall a | a in e ensures FromTables(t, a) {
      var i :| 0 <= i < |e| && e[i] == a;
      assert l[i] in l;
    }
  }

  lemma CompletionEntries(t: Tables)
    ensures var e := MapRows(Answer(t, RecentCompletions), FromCompletion);
      |e| <= 5 && forall a :: a in e ==> FromTables(t, a)
  {
    ReadRecentCompletions(t);
    NewestFirstOrders();
    var l := Listing(t.progress, CompletedJoined(t.modules), CompletedNewer, 5, 0);
    ListingSpec(t.progress, CompletedJoined(t.modules), CompletedNewer, 5, 0);
    var e := MapRows(RecentCompletionRows(t), FromCompletion);
    forall a | a in e ensures FromTables(t, a) {
      var i :| 0 <= i < |e| && e[i] == a;
      assert l[i] in l;
      assert CompletedJoined(t.modules)(l[i].1);
    }
  }

  /** `f` is a cut of `e` that keeps the newest entries: what is cut off is no newer
      than anything kept. */
  ghost predicate KeepsNewest(f: seq<Activity>, e: seq<Activity>) {
    exists rest: seq<Activity> :: multiset(f) + multiset(rest) == multiset(e)
      && forall a, b :: a in f && b in rest ==> ActivityNewer(a, b)
  }

  /** Sorting and cutting keeps entries only from its input, sorted newest first, at
      most `limit` of them (ten without a usable limit), the newest of them, and all of
      them when the limit does not cut. */
  lemma NewestFirstSpec(e: seq<Activity>, limit: Option<int>)
    ensures var f := NewestFirst(e, limit);
      && |f| <= |e|
      && (NumOr(limit, 10) >= 0 ==> |f| <= NumOr(limit, 10))
      && (forall i, j :: 0 <= i < j < |f| ==> ActivityNewer(f[i], f[j]))
      && (forall a :: a in f ==> a in e)
      && (NumOr(limit, 10) >= |e| ==> multiset(f) == multiset(e))
      && KeepsNewest(f, e)
  {
    ActivityOrder();
    SortBySorted(e, ActivityNewer);
    var sorted := SortBy(e, ActivityNewer);
    var f := NewestFirst(e, limit);
    assert f == sorted[..|f|];
    forall i, j | 0 <= i < j < |f| ensures ActivityNewer(f[i], f[j]) {
      assert f[i] == sorted[i] && f[j] == sorted[j];
    }
    forall a | a in f ensures a in e {
      var i :| 0 <= i < |f| && f[i] == a;
      assert sorted[i] in multiset(e);
    }
    if NumOr(limit, 10) >= |e| {
      assert f == sorted;
    }
    PrefixKeepsNewest(sorted, e, |f|);
  }

  /** A prefix of a newest-first ordering of `e` keeps the newest entries of `e`. */
  lemma PrefixKeepsNewest(sorted: seq<Activity>, e: seq<Activity>, k: nat)
    requires k <= |sorted| && multiset(sorted) == multiset(e)
    requires forall i, j :: 0 <= i < j < |sorted| ==> ActivityNewer(sorted[i], sorted[j])
    ensures KeepsNewest(sorted[..k], e)
  {
    var f, rest := sorted[..k], sorted[k..];
    assert sorted == f + rest;
    assert multiset(f) + multiset(rest) == multiset(e);
    forall a, b | a in f && b in rest ensures ActivityNewer(a, b) {
      var i :| 0 <= i < |f| && f[i] == a;
      var j :| 0 <= j < |rest| && rest[j] == b;
      assert sorted[i] == a && sorted[k + j] == b;
    }
  }

  /** Every entry describes a row of the store, and there are at most fifteen. */
  lemma EntriesSpec(t: Tables)
    ensures |Entries(t)| <= 15
    ensures forall a :: a in Entries(t) ==> FromTables(t, a)
  {
    IncidentEntries(t);
    PhotoEntries(t);
    CompletionEntries(t);
  }

  /** The feed holds at most fifteen entries and at most `limit` (ten when no usable
      limit is given); it is sorted newest first; every entry describes a row of the
      store; the entries cut off are no newer than those kept; and when the limit does
      not cut, it holds every entry. */
  lemma FeedSpec(t: Tables, limit: Option<int>)
    ensures var f := ActivityFeed(t, limit);
      && |f| <= 15
      && (NumOr(limit, 10) >= 0 ==> |f| <= NumOr(limit, 10))
      && (limit.None? ==> |f| <= 10)
      && (forall i, j :: 0 <= i < j < |f| ==> ActivityNewer(f[i], f[j]))
      && (forall a :: a in f ==> FromTables(t, a))
      && (NumOr(limit, 10) >= |Entries(t)| ==> multiset(f) == multiset(Entries(t)))
      && KeepsNewest(f, Entries(t))
  {
    EntriesSpec(t);
    NewestFirstSpec(Entries(t), limit);
  }
}
