/** What the declared constraints buy: every statement that succeeds on a consistent
    store leaves it consistent, failing statements are exactly the constraint
    violations, and the foreign-key actions do what createTables declares. */
module Integrity {
  import opened Wrappers
  import opened Schema
  import opened Engine

  // ---------------------------------------------------------------------------------
  // Preservation, statement by statement
  // ---------------------------------------------------------------------------------

  lemma AddUserConsistent(t: Tables, u: User)
    requires Consistent(t) && AddUser(t, u).Ok?
    ensures Consistent(AddUser(t, u).value.tables)
  {
    assert forall b :: b in t.users ==> t.users[b].email != u.email;
    assert t.userSeq + 1 !in t.users;
  }

  lemma ReplaceUserConsistent(t: Tables, id: int, n: User)
    requires Consistent(t) && ReplaceUser(t, id, n).Ok?
    requires id in t.users ==> n.email == t.users[id].email
    ensures Consistent(ReplaceUser(t, id, n).value.tables)
  {
    var t' := ReplaceUser(t, id, n).value.tables;
    forall a, b | a in t'.users && b in t'.users && t'.users[a].email == t'.users[b].email
      ensures a == b
    {
      assert t.users[a].email == t'.users[a].email;
      assert t.users[b].email == t'.users[b].email;
    }
  }

  lemma RemoveUserConsistent(t: Tables, id: int)
    requires Consistent(t) && RemoveUser(t, id).Ok?
    ensures Consistent(RemoveUser(t, id).value.tables)
  {
    if id in t.users {
      var t' := RemoveUser(t, id).value.tables;
      forall k | k in t'.incidents ensures IncidentRefsOk(t'.incidents[k], t'.users) {
        assert t'.incidents[k].reporterId != Some(id) && t'.incidents[k].assignedTo != Some(id);
      }
      forall k | k in t'.photos ensures PhotoRefsOk(t'.photos[k], t'.incidents, t'.users) {
        assert t'.photos[k].uploadedBy != Some(id);
      }
      forall k | k in t'.modules ensures ModuleRefsOk(t'.modules[k], t'.users) {
        assert t'.modules[k].createdBy != Some(id);
      }
      forall k | k in t'.documents ensures DocumentRefsOk(t'.documents[k], t'.users) {
        assert t'.documents[k].uploadedBy != Some(id);
      }
      assert ProgressOk(t');
      assert AuditOk(t');
    }
  }

  lemma AddIncidentConsistent(t: Tables, i: Incident)
    requires Consistent(t) && AddIncident(t, i).Ok?
    ensures Consistent(AddIncident(t, i).value.tables)
  {
  }

  lemma ReplaceIncidentConsistent(t: Tables, id: int, n: Incident)
    requires Consistent(t) && ReplaceIncident(t, id, n).Ok?
    ensures Consistent(ReplaceIncident(t, id, n).value.tables)
  {
  }

  lemma RemoveIncidentConsistent(t: Tables, id: int)
    requires Consistent(t)
    ensures RemoveIncident(t, id).Ok? && Consistent(RemoveIncident(t, id).value.tables)
  {
  }

  lemma AddPhotoConsistent(t: Tables, p: Photo)
    requires Consistent(t) && AddPhoto(t, p).Ok?
    ensures Consistent(AddPhoto(t, p).value.tables)
  {
  }

  lemma RemovePhotoConsistent(t: Tables, id: int)
    requires Consistent(t)
    ensures RemovePhoto(t, id).Ok? && Consistent(RemovePhoto(t, id).value.tables)
  {
  }

  lemma AddModuleConsistent(t: Tables, m: Module)
    requires Consistent(t) && AddModule(t, m).Ok?
    ensures Consistent(AddModule(t, m).value.tables)
  {
  }

  lemma RemoveModuleConsistent(t: Tables, id: int)
    requires Consistent(t)
    ensures RemoveModule(t, id).Ok? && Consistent(RemoveModule(t, id).value.tables)
  {
  }

  lemma AddProgressConsistent(t: Tables, p: Progress)
    requires Consistent(t) && AddProgress(t, p).Ok?
    ensures Consistent(AddProgress(t, p).value.tables)
  {
    assert forall b :: b in t.progress ==>
      t.progress[b].userId != p.userId || t.progress[b].moduleId != p.moduleId;
    assert t.progressSeq + 1 !in t.progress;
  }

  lemma UpdatePairConsistent(t: Tables, userId: int, moduleId: int, f: Progress -> Progress)
    requires Consistent(t)
    requires forall p :: ProgressValuesOk(f(p)) && f(p).userId == p.userId && f(p).moduleId == p.moduleId
    ensures Consistent(UpdatePair(t, userId, moduleId, f).tables)
  {
    var t' := UpdatePair(t, userId, moduleId, f).tables;
    forall a, b | a in t'.progress && b in t'.progress
      && t'.progress[a].userId == t'.progress[b].userId
      && t'.progress[a].moduleId == t'.progress[b].moduleId
      ensures a == b
    {
      assert t'.progress[a].userId == t.progress[a].userId && t'.progress[a].moduleId == t.progress[a].moduleId;
      assert t'.progress[b].userId == t.progress[b].userId && t'.progress[b].moduleId == t.progress[b].moduleId;
    }
  }

  lemma AddDocumentConsistent(t: Tables, d: Document)
    requires Consistent(t) && AddDocument(t, d).Ok?
    ensures Consistent(AddDocument(t, d).value.tables)
  {
  }

  lemma ReplaceDocumentConsistent(t: Tables, id: int, n: Document)
    requires Consistent(t) && ReplaceDocument(t, id, n).Ok?
    ensures Consistent(ReplaceDocument(t, id, n).value.tables)
  {
  }

  lemma RemoveDocumentConsistent(t: Tables, id: int)
    requires Consistent(t)
    ensures RemoveDocument(t, id).Ok? && Consistent(RemoveDocument(t, id).value.tables)
  {
  }

  lemma AddAuditLogConsistent(t: Tables, a: AuditLog)
    requires Consistent(t) && AddAuditLog(t, a).Ok?
    ensures Consistent(AddAuditLog(t, a).value.tables)
  {
  }

  /** Every statement that succeeds on a consistent store leaves a consistent store:
      the schema's constraints are an invariant of `run`. */
  lemma {:induction false} ExecConsistent(t: Tables, s: Statement, now: Time)
    requires Consistent(t) && Exec(t, s, now).Ok?
    ensures Consistent(Exec(t, s, now).value.tables)
  {
    if s.InsertUser? || s.UpdateUser? || s.DeactivateUser? || s.TouchLastLogin? || s.DeleteUser?
       || s.InsertIncident? || s.UpdateIncident? || s.SetIncidentStatus? || s.DeleteIncident?
    {
      PeopleAndIncidentsConsistent(t, s, now);
    } else {
      RecordsConsistent(t, s, now);
    }
  }

  lemma PeopleAndIncidentsConsistent(t: Tables, s: Statement, now: Time)
    requires Consistent(t) && Exec(t, s, now).Ok?
    requires s.InsertUser? || s.UpdateUser? || s.DeactivateUser? || s.TouchLastLogin? || s.DeleteUser?
       || s.InsertIncident? || s.UpdateIncident? || s.SetIncidentStatus? || s.DeleteIncident?
    ensures Consistent(Exec(t, s, now).value.tables)
  {
    match s
    case InsertUser(email, hash, first, last, role, dept) =>
      AddUserConsistent(t, NewUser(email, hash, first, last, role, dept, now));
    case UpdateUser(id, p) =>
      if id in t.users { ReplaceUserConsistent(t, id, MergeUser(t.users[id], p, now)); }
    case DeactivateUser(id) =>
      if id in t.users { ReplaceUserConsistent(t, id, t.users[id].(active := false, updatedAt := now)); }
    case TouchLastLogin(id) =>
      if id in t.users { ReplaceUserConsistent(t, id, t.users[id].(lastLogin := Some(now))); }
    case DeleteUser(id) => RemoveUserConsistent(t, id);
    case InsertIncident(title, desc, kind, sev, status, loc, wit, date, rep) =>
      AddIncidentConsistent(t, NewIncident(title, desc, kind, sev, status, loc, wit, date, rep, now));
    case UpdateIncident(id, p) =>
      if id in t.incidents { ReplaceIncidentConsistent(t, id, MergeIncident(t.incidents[id], p, now)); }
    case SetIncidentStatus(id, status) =>
      if id in t.incidents { ReplaceIncidentConsistent(t, id, WithStatus(t.incidents[id], status, now)); }
    case DeleteIncident(id) => RemoveIncidentConsistent(t, id);
  }

  lemma RecordsConsistent(t: Tables, s: Statement, now: Time)
    requires Consistent(t) && Exec(t, s, now).Ok?
    requires !(s.InsertUser? || s.UpdateUser? || s.DeactivateUser? || s.TouchLastLogin? || s.DeleteUser?
       || s.InsertIncident? || s.UpdateIncident? || s.SetIncidentStatus? || s.DeleteIncident?)
    ensures Consistent(Exec(t, s, now).value.tables)
  {
    match s
    case InsertPhoto(file, orig, mime, size, phase, desc, loc, inc, owner) =>
      AddPhotoConsistent(t, Photo(file, orig, mime, size, phase, desc, loc, inc, owner, now));
    case DeletePhoto(id) => RemovePhotoConsistent(t, id);
    case InsertModule(title, desc, cat, dur, url, diff, req, owner) =>
      AddModuleConsistent(t, NewModule(title, desc, cat, dur, url, diff, req, owner, now));
    case DeleteModule(id) => RemoveModuleConsistent(t, id);
    case InsertProgress(u, m, status, progress, started, completed, score) =>
      AddProgressConsistent(t, NewProgress(u, m, status, progress, started, completed, score));
    case SetProgress(u, m, value) =>
      UpdatePairConsistent(t, u, m, p => WithProgress(p, value, now));
    case CompleteProgress(u, m, score) =>
      UpdatePairConsistent(t, u, m, p => Completed(p, score, now));
    case InsertDocument(title, desc, cat, file, orig, mime, size, version, owner) =>
      AddDocumentConsistent(t, NewDocument(title, desc, cat, file, orig, mime, size, version, owner, now));
    case UpdateDocument(id, p) =>
      if id in t.documents { ReplaceDocumentConsistent(t, id, MergeDocument(t.documents[id], p, now)); }
    case DeleteDocument(id) => RemoveDocumentConsistent(t, id);
    case InsertAuditLog(actor, action, entityType, entityId, oldValues, newValues) =>
      AddAuditLogConsistent(t, AuditLog(actor, action, entityType, entityId, oldValues, newValues, now));
  }

  // ---------------------------------------------------------------------------------
  // Defaults, UNIQUE and the foreign-key actions
  // ---------------------------------------------------------------------------------

  /** An INSERT into users that does not name role or is_active stores 'employee' and 1,
      under the fresh id it reports as last_insert_rowid. */
  lemma InsertUserDefaults(t: Tables, email: string, hash: string, first: string, last: string,
                           department: Option<string>, now: Time)
    requires Consistent(t) && TableNames <= t.schema && !EmailTaken(t.users, email)
    ensures var r := Exec(t, InsertUser(email, hash, first, last, None, department), now);
      && r.Ok? && r.value.inserted.Some? && r.value.changes == 1
      && var id := r.value.inserted.value;
      && id !in t.users
      && r.value.tables.users == t.users[id := r.value.tables.users[id]]
      && r.value.tables.users[id].role == "employee" && r.value.tables.users[id].active
  {
  }

  /** A second row with an email that is already stored is refused by UNIQUE. */
  lemma DuplicateEmailRejected(t: Tables, email: string, hash: string, first: string, last: string,
                               role: Option<string>, department: Option<string>, now: Time)
    requires TableNames <= t.schema && EmailTaken(t.users, email)
    requires role.None? || role.value in Roles
    ensures Exec(t, InsertUser(email, hash, first, last, role, department), now) == Err(UniqueViolation)
  {
  }

  /** An INSERT into incidents that does not name status stores 'reported'; one whose
      type, severity or status is outside its set is refused by the CHECK. */
  lemma InsertIncidentChecks(t: Tables, title: string, desc: Option<string>, kind: string,
                             severity: string, status: Option<string>, loc: Option<string>,
                             wit: Option<string>, date: Option<string>, rep: Option<int>, now: Time)
    requires TableNames <= t.schema
    ensures var r := Exec(t, InsertIncident(title, desc, kind, severity, status, loc, wit, date, rep), now);
      && ((kind !in IncidentTypes || severity !in Severities || !CheckIn(status, IncidentStatuses))
            ==> r == Err(CheckViolation))
      && (r.Ok? ==> r.value.tables.incidents[r.value.inserted.value].status
                      == Some(if status.Some? then status.value else "reported"))
  {
  }

  /** Under `UNIQUE(user_id, module_id)`, a (user, module) pair has at most one
      training_progress row. */
  lemma {:induction false} PairKeysAtMostOne(t: Tables, userId: int, moduleId: int)
    requires Consistent(t)
    ensures |PairKeys(t.progress, userId, moduleId)| <= 1
  {
    var keys := PairKeys(t.progress, userId, moduleId);
    forall a, b | a in keys && b in keys ensures a == b {
      assert t.progress[a].userId == t.progress[b].userId;
      assert t.progress[a].moduleId == t.progress[b].moduleId;
    }
    AtMostOne(keys);
  }

  /** A set whose elements are all equal has at most one element. */
  lemma AtMostOne<T>(s: set<T>)
    requires forall a, b :: a in s && b in s ==> a == b
    ensures |s| <= 1
  {
    if s != {} {
      var x :| x in s;
      assert s == {x};
    }
  }

  /** Deleting an incident keeps every photo and nulls the incident_id of its photos
      (`ON DELETE SET NULL`). */
  lemma DeleteIncidentSetsNull(t: Tables, id: int, now: Time)
    requires TableNames <= t.schema && id in t.incidents
    ensures var r := Exec(t, DeleteIncident(id), now);
      && r.Ok? && r.value.changes == 1
      && r.value.tables.incidents == t.incidents - {id}
      && r.value.tables.photos.Keys == t.photos.Keys
      && (forall k :: k in t.photos ==>
            r.value.tables.photos[k] ==
              (if t.photos[k].incidentId == Some(id) then t.photos[k].(incidentId := None) else t.photos[k]))
      && r.value.tables.(incidents := t.incidents, photos := t.photos) == t
  {
  }

  /** Deleting a user that nothing references without an action removes its
      training_progress rows (`ON DELETE CASCADE`) and nulls its audit_logs.user_id
      (`ON DELETE SET NULL`); a user still referenced by an incident, photo, module or
      document is refused. */
  lemma DeleteUserActions(t: Tables, id: int, now: Time)
    requires TableNames <= t.schema && id in t.users
    ensures var r := Exec(t, DeleteUser(id), now);
      && (UserReferenced(t, id) <==> r == Err(ForeignKeyViolation))
      && (r.Ok? ==>
            && r.value.tables.users == t.users - {id}
            && (forall k :: k in r.value.tables.progress <==> k in t.progress && t.progress[k].userId != id)
            && (forall k :: k in r.value.tables.progress ==> r.value.tables.progress[k] == t.progress[k])
            && r.value.tables.auditLogs.Keys == t.auditLogs.Keys
            && (forall k :: k in t.auditLogs ==>
                  r.value.tables.auditLogs[k].userId ==
                    (if t.auditLogs[k].userId == Some(id) then None else t.auditLogs[k].userId)))
  {
  }

  /** Deleting a module removes its training_progress rows (`ON DELETE CASCADE`). */
  lemma DeleteModuleCascades(t: Tables, id: int, now: Time)
    requires TableNames <= t.schema && id in t.modules
    ensures var r := Exec(t, DeleteModule(id), now);
      && r.Ok? && r.value.tables.modules == t.modules - {id}
      && (forall k :: k in r.value.tables.progress <==> k in t.progress && t.progress[k].moduleId != id)
      && (forall k :: k in r.value.tables.progress ==> r.value.tables.progress[k] == t.progress[k])
  {
  }

  /** Statements change rows only: no statement creates or drops a schema object. */
  lemma ExecKeepsSchema(t: Tables, s: Statement, now: Time)
    requires Exec(t, s, now).Ok?
    ensures Exec(t, s, now).value.tables.schema == t.schema
  {
  }
}
