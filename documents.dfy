/** The document handlers of server/routes/documents.js: the active-only list, the
    lookup by id, the validated upload, the COALESCE update and the admin-only hard
    delete. The stored file is not modelled; an upload is the description multer hands
    to the handler. */
module Documents {
  import opened Wrappers
  import opened Schema
  import opened Engine
  import opened Ordering
  import opened Queries
  import opened Store
  import opened AuthMiddleware
  import opened Js

  const DefaultListLimit := 50

  // ---------------------------------------------------------------------------------
  // GET / and GET /:id
  // ---------------------------------------------------------------------------------

  /** The document list: active documents only, the category filter only when given,
      newest first, LIMIT. */
  function DocumentList(t: Tables, category: Option<string>, limit: int): seq<(int, Document)> {
    Listing(t.documents, DocumentMatch(OrNull(category)), DocumentNewer, limit, 0)
  }

  lemma DocumentListSpec(t: Tables, category: Option<string>, limit: int)
    ensures var r := DocumentList(t, category, limit);
      && (forall e :: e in r ==>
            && e.0 in t.documents && e.1 == t.documents[e.0] && e.1.active
            && (Truthy(category) ==> e.1.category == category.value))
      && (forall i, j :: 0 <= i < j < |r| ==> r[i].1.createdAt >= r[j].1.createdAt)
      && (limit >= 0 ==> |r| <= limit)
      && (limit < 0 ==>
            forall k :: (k in t.documents && t.documents[k].active
              && (Truthy(category) ==> t.documents[k].category == category.value))
              ==> (k, t.documents[k]) in r)
  {
    NewestFirstOrders();
    ListingSpec(t.documents, DocumentMatch(OrNull(category)), DocumentNewer, limit, 0);
  }

  /** GET / (optional authentication, which does not affect the answer). */
  method List(db: Database, category: Option<string>, limit: Option<int>) returns (code: int, documents: seq<Row>)
    requires db.Valid() && db.initialized
    ensures code == 200
    ensures documents == DocumentRows(DocumentList(db.tables, category, limit.GetOr(DefaultListLimit)))
  {
    EvalListDocuments(db.tables, OrNull(category), limit.GetOr(DefaultListLimit));
    var rows := db.All(ListDocuments(OrNull(category), limit.GetOr(DefaultListLimit)));
    code := 200;
    documents := if rows.Ok? then rows.value else [];
  }

  /** GET /:id: the row whatever its `is_active`, or 404 when there is none. */
  method Get(db: Database, id: int) returns (code: int, document: Option<Row>)
    requires db.Valid() && db.initialized
    ensures code == 404 <==> id !in db.tables.documents
    ensures code == 200 <==> id in db.tables.documents
    ensures code == 200 ==> document == Some(DocumentRow(id, db.tables.documents[id]))
    ensures code == 404 ==> document.None?
  {
    EvalDocumentById(db.tables, id);
    var found := db.Get(DocumentById(id));
    if found.Err? || found.value.None? {
      return 404, None;
    }
    return 200, found.value;
  }

  // ---------------------------------------------------------------------------------
  // POST /
  // ---------------------------------------------------------------------------------

  /** The handler's checks after the role gate: a file, a title and a category from the
      closed set. */
  predicate UploadValid(file: Option<Upload>, title: Option<string>, category: Option<string>) {
    file.Some? && Truthy(title) && Truthy(category) && category.value in DocumentCategories
  }

  /** The INSERT of an upload: `version || '1.0'` and the caller as uploader; is_active
      takes its default. */
  function UploadStatement(caller: int, file: Upload, title: string, description: Option<string>,
                           category: string, version: Option<string>): Statement
  {
    InsertDocument(title, description, category, file.filename, Some(file.originalName),
                   Some(file.mimeType), Some(file.size), Some(Or(version, DefaultVersion)), Some(caller))
  }

  /** A validated upload by an existing user always succeeds: it adds one active
      document at the next id, owned by the caller, version '1.0' unless one was given,
      and changes nothing else. */
  lemma UploadEffect(t: Tables, caller: int, file: Upload, title: string, description: Option<string>,
                     category: string, version: Option<string>, now: Time)
    requires TableNames <= t.schema && caller in t.users && category in DocumentCategories
    ensures var r := Exec(t, UploadStatement(caller, file, title, description, category, version), now);
      var id := t.documentSeq + 1;
      && r.Ok? && r.value.inserted == Some(id)
      && r.value.tables == t.(documents := t.documents[id := r.value.tables.documents[id]], documentSeq := id)
      && var d := r.value.tables.documents[id];
      && d.title == title && d.category == category && d.active
      && d.uploadedBy == Some(caller)
      && d.version == Some(if Truthy(version) then version.value else "1.0")
      && d.filename == file.filename && d.fileSize == Some(file.size)
      && d.createdAt == now && d.updatedAt == now
  {
  }

  /** POST /, behind `authenticate`, `requireRole(['admin', 'manager'])` and multer. */
  method Create(db: Database, caller: Principal, file: Option<Upload>, title: Option<string>,
                description: Option<string>, category: Option<string>, version: Option<string>, now: Time)
    returns (code: int, id: Option<int>)
    requires db.Valid() && db.initialized
    modifies db
    ensures db.Valid() && db.initialized
    ensures RequireManager(Some(caller)).Some? ==> code == 403 && id.None? && unchanged(db)
    ensures RequireManager(Some(caller)).None? && !UploadValid(file, title, category) ==>
      code == 400 && id.None? && unchanged(db)
    ensures RequireManager(Some(caller)).None? && UploadValid(file, title, category) ==>
      var s := UploadStatement(caller.id, file.value, title.value, description, category.value, version);
      && db.tables == After(old(db.tables), s, now)
      && code == (if Exec(old(db.tables), s, now).Ok? then 201 else 500)
      && id == (if Exec(old(db.tables), s, now).Ok? then Some(db.lastInsertRowid) else None)
  {
    if RequireManager(Some(caller)).Some? {
      return 403, None;
    }
    if file.None? {
      return 400, None;
    }
    if !Truthy(title) || !Truthy(category) {
      return 400, None;
    }
    if category.value !in DocumentCategories {
      return 400, None;
    }
    var s := UploadStatement(caller.id, file.value, title.value, description, category.value, version);
    var result := db.Run(s, now);
    if result.Err? {
      return 500, None;
    }
    code := 201;
    id := Some(result.value.lastInsertRowid);
  }

  // ---------------------------------------------------------------------------------
  // PUT /:id
  // ---------------------------------------------------------------------------------

  /** The document update on an existing row succeeds exactly when the merged category
      is in the closed set (the handler does not check it). It changes that row only:
      title, description, category and version each take the value given or keep the
      old one; the file columns, is_active, the uploader and the creation time stay;
      updated_at becomes now. */
  lemma DocumentUpdateEffect(t: Tables, id: int, p: DocumentPatch, now: Time)
    requires Consistent(t) && TableNames <= t.schema && id in t.documents
    ensures var r := Exec(t, Engine.UpdateDocument(id, p), now);
      var o := t.documents[id];
      && (r.Ok? <==> (if p.category.Some? then p.category.value else o.category) in DocumentCategories)
      && (r.Err? ==> r.error == CheckViolation)
      && (r.Ok? ==>
            var n := r.value.tables.documents[id];
            && r.value.tables == t.(documents := t.documents[id := n])
            && n.title == (if p.title.Some? then p.title.value else o.title)
            && n.description == (if p.description.Some? then p.description else o.description)
            && n.category == (if p.category.Some? then p.category.value else o.category)
            && n.version == (if p.version.Some? then p.version else o.version)
            && n.filename == o.filename && n.originalName == o.originalName
            && n.mimeType == o.mimeType && n.fileSize == o.fileSize
            && n.active == o.active && n.uploadedBy == o.uploadedBy && n.createdAt == o.createdAt
            && n.updatedAt == now)
  {
    assert DocumentRefsOk(MergeDocument(t.documents[id], p, now), t.users);
  }

  /** PUT /:id, behind `authenticate` and `requireRole(['admin', 'manager'])`. */
  method Update(db: Database, caller: Principal, id: int, p: DocumentPatch, now: Time) returns (code: int)
    requires db.Valid() && db.initialized
    modifies db
    ensures db.Valid() && db.initialized
    ensures RequireManager(Some(caller)).Some? ==> code == 403 && unchanged(db)
    ensures RequireManager(Some(caller)).None? && id !in old(db.tables.documents) ==> code == 404 && unchanged(db)
    ensures RequireManager(Some(caller)).None? && id in old(db.tables.documents) ==>
      && db.tables == After(old(db.tables), Engine.UpdateDocument(id, p), now)
      && code == (if Exec(old(db.tables), Engine.UpdateDocument(id, p), now).Ok? then 200 else 500)
  {
    if RequireManager(Some(caller)).Some? {
      return 403;
    }
    EvalDocumentById(db.tables, id);
    var found := db.Get(DocumentById(id));
    if found.Err? {
      return 500;
    }
    if found.value.None? {
      return 404;
    }
    var result := db.Run(Engine.UpdateDocument(id, p), now);
    code := if result.Ok? then 200 else 500;
  }

  // ---------------------------------------------------------------------------------
  // DELETE /:id
  // ---------------------------------------------------------------------------------

  /** Deleting an existing document removes the row outright (not a soft delete);
      nothing references documents, so nothing else changes. */
  lemma DeleteDocumentEffect(t: Tables, id: int, now: Time)
    requires TableNames <= t.schema && id in t.documents
    ensures var r := Exec(t, DeleteDocument(id), now);
      && r.Ok? && r.value.changes == 1
      && id !in r.value.tables.documents
      && r.value.tables == t.(documents := t.documents - {id})
  {
  }

  /** DELETE /:id, behind `authenticate` and `requireRole(['admin'])`. */
  method Delete(db: Database, caller: Principal, id: int, now: Time) returns (code: int)
    requires db.Valid() && db.initialized
    modifies db
    ensures db.Valid() && db.initialized
    ensures RequireAdmin(Some(caller)).Some? ==> code == 403 && unchanged(db)
    ensures RequireAdmin(Some(caller)).None? && id !in old(db.tables.documents) ==> code == 404 && unchanged(db)
    ensures RequireAdmin(Some(caller)).None? && id in old(db.tables.documents) ==>
      && db.tables == After(old(db.tables), DeleteDocument(id), now)
      && code == (if Exec(old(db.tables), DeleteDocument(id), now).Ok? then 200 else 500)
  {
    if RequireAdmin(Some(caller)).Some? {
      return 403;
    }
    EvalDocumentById(db.tables, id);
    var found := db.Get(DocumentById(id));
    if found.Err? {
      return 500;
    }
    if found.value.None? {
      return 404;
    }
    var result := db.Run(DeleteDocument(id), now);
    code := if result.Ok? then 200 else 500;
  }
}
