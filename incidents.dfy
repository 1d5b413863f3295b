/** The incident handlers of server/routes/incidents.js: the filtered, paged list, the
    report (create) with its default title, the COALESCE update, the status update and
    the role-gated delete. */
module Incidents {
  import opened Wrappers
  import opened Schema
  import opened Engine
  import opened Ordering
  import opened Queries
  import opened Store
  import opened AuthMiddleware
  import opened Js

  const DefaultListLimit := 50
  const UnknownLocation := "Unknown Location"

  // ---------------------------------------------------------------------------------
  // GET /
  // ---------------------------------------------------------------------------------

  /** The incident list: each of status, severity and type filters only when the query
      gives a truthy value; newest first; LIMIT and OFFSET. */
  function IncidentList(t: Tables, status: Option<string>, severity: Option<string>, kind: Option<string>,
                        limit: int, offset: int): seq<(int, Incident)>
  {
    Listing(t.incidents, IncidentMatch(OrNull(status), OrNull(severity), OrNull(kind)), IncidentNewer, limit, offset)
  }

  lemma IncidentListSpec(t: Tables, status: Option<string>, severity: Option<string>, kind: Option<string>,
                         limit: int, offset: int)
    ensures var r := IncidentList(t, status, severity, kind, limit, offset);
      && (forall e :: e in r ==>
            && e.0 in t.incidents && e.1 == t.incidents[e.0]
            && (Truthy(status) ==> e.1.status == status)
            && (Truthy(severity) ==> e.1.severity == severity.value)
            && (Truthy(kind) ==> e.1.kind == kind.value))
      && (forall i, j :: 0 <= i < j < |r| ==> r[i].1.createdAt >= r[j].1.createdAt)
      && (limit >= 0 ==> |r| <= limit)
      && (limit < 0 && offset <= 0 ==>
            forall k :: (k in t.incidents
              && (Truthy(status) ==> t.incidents[k].status == status)
              && (Truthy(severity) ==> t.incidents[k].severity == severity.value)
              && (Truthy(kind) ==> t.incidents[k].kind == kind.value))
              ==> (k, t.incidents[k]) in r)
  {
    NewestFirstOrders();
    ListingSpec(t.incidents, IncidentMatch(OrNull(status), OrNull(severity), OrNull(kind)), IncidentNewer, limit, offset);
  }

  /** GET / (optional authentication, which does not affect the answer). `total` counts
      every incident, whatever the filters. */
  method List(db: Database, status: Option<string>, severity: Option<string>, kind: Option<string>,
                      limit: Option<int>, offset: Option<int>)
    returns (code: int, incidents: seq<Row>, total: nat)
    requires db.Valid() && db.initialized
    ensures code == 200
    ensures incidents == IncidentRows(IncidentList(db.tables, status, severity, kind,
                                                   limit.GetOr(DefaultListLimit), offset.GetOr(0)))
    ensures total == |db.tables.incidents|
  {
    EvalListIncidents(db.tables, OrNull(status), OrNull(severity), OrNull(kind),
                      limit.GetOr(DefaultListLimit), offset.GetOr(0));
    var rows := db.All(ListIncidents(OrNull(status), OrNull(severity), OrNull(kind),
                                     limit.GetOr(DefaultListLimit), offset.GetOr(0)));
    var count := db.Get(CountIncidents);
    code := 200;
    incidents := if rows.Ok? then rows.value else [];
    total := 0;
    if count.Ok? && count.value.Some? && count.value.value.CountRow? {
      total := count.value.value.count;
    }
  }

  // ---------------------------------------------------------------------------------
  // POST /
  // ---------------------------------------------------------------------------------

  /** `title || `${type} Incident - ${location || 'Unknown Location'}``. */
  function IncidentTitle(title: Option<string>, kind: string, location: Option<string>): (r: string)
    ensures Truthy(title) ==> r == title.value
    ensures !Truthy(title) ==> r == kind + " Incident - " + Or(location, UnknownLocation)
  {
    Or(title, kind + " Incident - " + Or(location, UnknownLocation))
  }

  /** The body validation: `type` and `severity` must be in their closed sets. */
  predicate ReportValid(kind: Option<string>, severity: Option<string>) {
    kind.Some? && kind.value in IncidentTypes && severity.Some? && severity.value in Severities
  }

  /** The INSERT of a report: the (trimmed) title or the default one, the caller as
      reporter; the status column is not named, so it takes its default. */
  function ReportStatement(caller: int, kind: string, severity: string, title: Option<string>,
                           description: Option<string>, location: Option<string>,
                           witnesses: Option<string>, date: Option<string>): Statement
  {
    InsertIncident(IncidentTitle(Trimmed(title), kind, location), Trimmed(description), kind, severity, None,
                   location, witnesses, date, Some(caller))
  }

  /** A valid report by an existing user adds exactly one incident at the next id,
      'reported', with the caller as reporter, and changes nothing else. */
  lemma ReportEffect(t: Tables, caller: int, kind: string, severity: string, title: Option<string>,
                     description: Option<string>, location: Option<string>, witnesses: Option<string>,
                     date: Option<string>, now: Time)
    requires Consistent(t) && TableNames <= t.schema && caller in t.users
    requires kind in IncidentTypes && severity in Severities
    ensures var r := Exec(t, ReportStatement(caller, kind, severity, title, description, location, witnesses, date), now);
      var id := t.incidentSeq + 1;
      && r.Ok? && id !in t.incidents && r.value.inserted == Some(id)
      && r.value.tables == t.(incidents := t.incidents[id := r.value.tables.incidents[id]], incidentSeq := id)
      && var i := r.value.tables.incidents[id];
      && i.status == Some("reported") && i.reporterId == Some(caller)
      && i.kind == kind && i.severity == severity && i.location == location
      && i.assignedTo.None? && i.resolvedAt.None? && i.createdAt == now
      && i.title == IncidentTitle(Trimmed(title), kind, location)
  {
    var i := NewIncident(IncidentTitle(Trimmed(title), kind, location), Trimmed(description), kind, severity, None,
                         location, witnesses, date, Some(caller), now);
    var id := t.incidentSeq + 1;
    assert ReportStatement(caller, kind, severity, title, description, location, witnesses, date)
      == InsertIncident(i.title, i.description, kind, severity, None, location, witnesses, date, Some(caller));
    InsertReportExec(t, i.title, i.description, kind, severity, location, witnesses, date, caller, now);
    assert t.incidents[id := i][id] == i;
    assert id !in t.incidents by {
      assert Keyed(t.incidents, t.incidentSeq);
    }
  }

  /** The INSERT of a report, with a type and severity from their sets and an existing
      user as reporter, succeeds at the next id whatever the title. */
  lemma InsertReportExec(t: Tables, title: string, description: Option<string>, kind: string, severity: string,
                         location: Option<string>, witnesses: Option<string>, date: Option<string>,
                         caller: int, now: Time)
    requires TableNames <= t.schema && caller in t.users
    requires kind in IncidentTypes && severity in Severities
    ensures var i := NewIncident(title, description, kind, severity, None, location, witnesses, date, Some(caller), now);
      Exec(t, InsertIncident(title, description, kind, severity, None, location, witnesses, date, Some(caller)), now)
        == Ok(Effect(t.(incidents := t.incidents[t.incidentSeq + 1 := i], incidentSeq := t.incidentSeq + 1),
                     Some(t.incidentSeq + 1), 1))
  {
    var i := NewIncident(title, description, kind, severity, None, location, witnesses, date, Some(caller), now);
    assert i.status == Some(DefaultIncidentStatus);
    assert DefaultIncidentStatus in IncidentStatuses;
    assert IncidentValuesOk(i) && IncidentRefsOk(i, t.users);
  }

  /** POST /, behind `authenticate`. */
  method Create(db: Database, caller: Principal, kind: Option<string>, severity: Option<string>,
                        title: Option<string>, description: Option<string>, location: Option<string>,
                        witnesses: Option<string>, date: Option<string>, now: Time)
    returns (code: int, id: Option<int>)
    requires db.Valid() && db.initialized
    modifies db
    ensures db.Valid() && db.initialized
    ensures !ReportValid(kind, severity) ==> code == 400 && id.None? && unchanged(db)
    ensures ReportValid(kind, severity) ==>
      var s := ReportStatement(caller.id, kind.value, severity.value, title, description, location, witnesses, date);
      var r := Exec(old(db.tables), s, now);
      && db.tables == After(old(db.tables), s, now)
      && code == (if r.Ok? then 201 else 500)
      && id == (if r.Ok? then Some(db.lastInsertRowid) else None)
  {
    if !ReportValid(kind, severity) {
      return 400, None;
    }
    var s := ReportStatement(caller.id, kind.value, severity.value, title, description, location, witnesses, date);
    var result := db.Run(s, now);
    if result.Err? {
      return 500, None;
    }
    code := 201;
    id := Some(result.value.lastInsertRowid);
  }

  // ---------------------------------------------------------------------------------
  // PUT /:id and PATCH /:id/status
  // ---------------------------------------------------------------------------------

  /** The incident update on an existing row succeeds exactly when the merged row meets
      the CHECKs and its assignee exists. It changes that row only: each supplied field
      replaces the old value and each NULL one keeps it; type, location, date, reporter,
      witnesses and creation time stay; resolved_at is set to now exactly when the
      status given is 'resolved' and is never cleared; updated_at becomes now. */
  lemma IncidentUpdateEffect(t: Tables, id: int, p: IncidentPatch, now: Time)
    requires Consistent(t) && TableNames <= t.schema && id in t.incidents
    ensures var r := Exec(t, UpdateIncident(id, p), now);
      var o := t.incidents[id];
      && (r.Ok? <==>
            && (if p.severity.Some? then p.severity.value else o.severity) in Severities
            && CheckIn(if p.status.Some? then p.status else o.status, IncidentStatuses)
            && RefOk(if p.assignedTo.Some? then p.assignedTo else o.assignedTo, t.users))
      && (r.Ok? ==>
            var n := r.value.tables.incidents[id];
            && r.value.tables == t.(incidents := t.incidents[id := n])
            && n.title == (if p.title.Some? then p.title.value else o.title)
            && n.description == (if p.description.Some? then p.description else o.description)
            && n.status == (if p.status.Some? then p.status else o.status)
            && n.severity == (if p.severity.Some? then p.severity.value else o.severity)
            && n.assignedTo == (if p.assignedTo.Some? then p.assignedTo else o.assignedTo)
            && n.correctiveActions == (if p.correctiveActions.Some? then p.correctiveActions else o.correctiveActions)
            && n.resolutionNotes == (if p.resolutionNotes.Some? then p.resolutionNotes else o.resolutionNotes)
            && n.kind == o.kind && n.location == o.location && n.incidentDate == o.incidentDate
            && n.reporterId == o.reporterId && n.witnesses == o.witnesses && n.createdAt == o.createdAt
            && n.resolvedAt == (if p.status == Some("resolved") then Some(now) else o.resolvedAt)
            && (o.resolvedAt.Some? ==> n.resolvedAt.Some?)
            && n.updatedAt == now)
  {
  }

  /** PUT /:id, behind `authenticate`. */
  method Update(db: Database, id: int, p: IncidentPatch, now: Time) returns (code: int)
    requires db.Valid() && db.initialized
    modifies db
    ensures db.Valid() && db.initialized
    ensures id !in old(db.tables.incidents) ==> code == 404 && unchanged(db)
    ensures id in old(db.tables.incidents) ==>
      && db.tables == After(old(db.tables), Engine.UpdateIncident(id, p), now)
      && code == (if Exec(old(db.tables), Engine.UpdateIncident(id, p), now).Ok? then 200 else 500)
  {
    EvalIncidentById(db.tables, id);
    var found := db.Get(IncidentById(id));
    if found.Err? {
      return 500;
    }
    if found.value.None? {
      return 404;
    }
    var result := db.Run(Engine.UpdateIncident(id, p), now);
    code := if result.Ok? then 200 else 500;
  }

  /** The status update overwrites the status with the value given, NULL included, so it
      succeeds exactly when that value passes the CHECK (NULL does); resolved_at follows
      the same rule as the full update and nothing else but updated_at changes. */
  lemma StatusUpdateEffect(t: Tables, id: int, status: Option<string>, now: Time)
    requires Consistent(t) && TableNames <= t.schema && id in t.incidents
    ensures var r := Exec(t, SetIncidentStatus(id, status), now);
      var o := t.incidents[id];
      && (r.Ok? <==> CheckIn(status, IncidentStatuses))
      && (r.Err? ==> r.error == CheckViolation)
      && (r.Ok? ==>
            var n := r.value.tables.incidents[id];
            && r.value.tables == t.(incidents := t.incidents[id := n])
            && n.status == status
            && n.resolvedAt == (if status == Some("resolved") then Some(now) else o.resolvedAt)
            && n.updatedAt == now
            && n.(status := o.status, resolvedAt := o.resolvedAt, updatedAt := o.updatedAt) == o)
  {
    var o := t.incidents[id];
    var n := WithStatus(o, status, now);
    assert IncidentRefsOk(n, t.users);
  }

  /** PATCH /:id/status, behind `authenticate`. The body validator is declared but its
      result is never read, so any status (or none) reaches the UPDATE. */
  method UpdateStatus(db: Database, id: int, status: Option<string>, now: Time) returns (code: int)
    requires db.Valid() && db.initialized
    modifies db
    ensures db.Valid() && db.initialized
    ensures id !in old(db.tables.incidents) ==> code == 404 && unchanged(db)
    ensures id in old(db.tables.incidents) ==>
      && db.tables == After(old(db.tables), SetIncidentStatus(id, status), now)
      && code == (if Exec(old(db.tables), SetIncidentStatus(id, status), now).Ok? then 200 else 500)
  {
    EvalIncidentById(db.tables, id);
    var found := db.Get(IncidentById(id));
    if found.Err? {
      return 500;
    }
    if found.value.None? {
      return 404;
    }
    var result := db.Run(SetIncidentStatus(id, status), now);
    code := if result.Ok? then 200 else 500;
  }

  // ---------------------------------------------------------------------------------
  // DELETE /:id
  // ---------------------------------------------------------------------------------

  /** `['admin', 'manager'].includes(req.user.role)`. */
  predicate MayDelete(role: string) {
    role == "admin" || role == "manager"
  }

  /** Deleting an existing incident removes exactly that row; its photos stay, detached. */
  lemma DeleteIncidentEffect(t: Tables, id: int, now: Time)
    requires TableNames <= t.schema && id in t.incidents
    ensures var r := Exec(t, DeleteIncident(id), now);
      && r.Ok?
      && r.value.tables.incidents == t.incidents - {id}
      && r.value.tables.photos.Keys == t.photos.Keys
      && r.value.tables.(photos := t.photos, incidents := t.incidents) == t
      && forall k :: k in t.photos ==>
           r.value.tables.photos[k] ==
             (if t.photos[k].incidentId == Some(id) then t.photos[k].(incidentId := None) else t.photos[k])
  {
  }

  /** DELETE /:id, behind `authenticate`: 403 unless admin or manager, then 404. */
  method Delete(db: Database, caller: Principal, id: int, now: Time) returns (code: int)
    requires db.Valid() && db.initialized
    modifies db
    ensures db.Valid() && db.initialized
    ensures !MayDelete(caller.role) ==> code == 403 && unchanged(db)
    ensures MayDelete(caller.role) && id !in old(db.tables.incidents) ==> code == 404 && unchanged(db)
    ensures MayDelete(caller.role) && id in old(db.tables.incidents) ==>
      && db.tables == After(old(db.tables), Engine.DeleteIncident(id), now)
      && code == (if Exec(old(db.tables), Engine.DeleteIncident(id), now).Ok? then 200 else 500)
  {
    if !MayDelete(caller.role) {
      return 403;
    }
    EvalIncidentById(db.tables, id);
    var found := db.Get(IncidentById(id));
    if found.Err? {
      return 500;
    }
    if found.value.None? {
      return 404;
    }
    var result := db.Run(Engine.DeleteIncident(id), now);
    code := if result.Ok? then 200 else 500;
  }
}
