/** The photo handlers of server/routes/photos.js: the upload filter, the filtered,
    paged list, the upload insert with its defaults and the owner-or-role delete. The
    file itself (disk storage, generated names, unlinking) is not modelled; an upload is
    the description multer hands to the handler. */
module Photos {
  import opened Wrappers
  import opened Schema
  import opened Engine
  import opened Ordering
  import opened Queries
  import opened Store
  import opened AuthMiddleware
  import opened Js

  const DefaultListLimit := 50
  const DefaultPhase := "pre"
  /** multer's `limits.fileSize`: 10 MB. */
  const MaxPhotoBytes := 10 * 1024 * 1024
  const ImageTypes: set<string> := {"image/jpeg", "image/png", "image/webp", "image/gif"}

  // ---------------------------------------------------------------------------------
  // The upload filter
  // ---------------------------------------------------------------------------------

  /** `fileFilter`: only JPEG, PNG, WebP and GIF images are stored. */
  function FileFilter(mimeType: string): (accepted: bool)
    ensures accepted <==>
      mimeType == "image/jpeg" || mimeType == "image/png" || mimeType == "image/webp" || mimeType == "image/gif"
  {
    mimeType in ImageTypes
  }

  /** The multer stage in front of the handler, with the router's error handler: a file
      of a refused type or over the size limit ends the request with 400. */
  function MulterCheck(file: Option<Upload>): (rejected: bool)
    ensures rejected <==> file.Some? && (!FileFilter(file.value.mimeType) || file.value.size > MaxPhotoBytes)
  {
    match file
    case None => false
    case Some(f) => !FileFilter(f.mimeType) || f.size > MaxPhotoBytes
  }

  // ---------------------------------------------------------------------------------
  // GET /
  // ---------------------------------------------------------------------------------

  /** The photo list: phase and incident filter only when given, newest first, LIMIT and
      OFFSET. */
  function PhotoList(t: Tables, phase: Option<string>, incidentId: Option<int>, limit: int, offset: int)
    : seq<(int, Photo)>
  {
    Listing(t.photos, PhotoMatch(OrNull(phase), incidentId), PhotoNewer, limit, offset)
  }

  lemma PhotoListSpec(t: Tables, phase: Option<string>, incidentId: Option<int>, limit: int, offset: int)
    ensures var r := PhotoList(t, phase, incidentId, limit, offset);
      && (forall e :: e in r ==>
            && e.0 in t.photos && e.1 == t.photos[e.0]
            && (Truthy(phase) ==> e.1.phase == phase)
            && (incidentId.Some? ==> e.1.incidentId == incidentId))
      && (forall i, j :: 0 <= i < j < |r| ==> r[i].1.createdAt >= r[j].1.createdAt)
      && (limit >= 0 ==> |r| <= limit)
      && (limit < 0 && offset <= 0 ==>
            forall k :: (k in t.photos
              && (Truthy(phase) ==> t.photos[k].phase == phase)
              && (incidentId.Some? ==> t.photos[k].incidentId == incidentId))
              ==> (k, t.photos[k]) in r)
  {
    NewestFirstOrders();
    ListingSpec(t.photos, PhotoMatch(OrNull(phase), incidentId), PhotoNewer, limit, offset);
  }

  /** GET / (optional authentication, which does not affect the answer). */
  method List(db: Database, phase: Option<string>, incidentId: Option<int>, limit: Option<int>, offset: Option<int>)
    returns (code: int, photos: seq<Row>)
    requires db.Valid() && db.initialized
    ensures code == 200
    ensures photos == PhotoRows(PhotoList(db.tables, phase, incidentId, limit.GetOr(DefaultListLimit), offset.GetOr(0)))
  {
    EvalListPhotos(db.tables, OrNull(phase), incidentId, limit.GetOr(DefaultListLimit), offset.GetOr(0));
    var rows := db.All(ListPhotos(OrNull(phase), incidentId, limit.GetOr(DefaultListLimit), offset.GetOr(0)));
    code := 200;
    photos := if rows.Ok? then rows.value else [];
  }

  // ---------------------------------------------------------------------------------
  // POST /
  // ---------------------------------------------------------------------------------

  /** The INSERT of an upload: the file's columns, `phase || 'pre'`, the incident id when
      one is given, and the caller as uploader. The phase is not checked by the handler. */
  function UploadStatement(caller: int, file: Upload, phase: Option<string>, description: Option<string>,
                           location: Option<string>, incidentId: Option<int>): Statement
  {
    InsertPhoto(file.filename, Some(file.originalName), Some(file.mimeType), Some(file.size),
                Some(Or(phase, DefaultPhase)), description, location, incidentId, Some(caller))
  }

  /** An upload by an existing user succeeds exactly when the phase (after the default)
      passes the CHECK and the incident, if any, exists; a bad phase fails the CHECK
      before the foreign key is looked at. A successful upload adds one photo at the
      next id, owned by the caller, with the default phase when none was given, and
      changes nothing else. */
  lemma UploadEffect(t: Tables, caller: int, file: Upload, phase: Option<string>, description: Option<string>,
                     location: Option<string>, incidentId: Option<int>, now: Time)
    requires TableNames <= t.schema && caller in t.users
    ensures var r := Exec(t, UploadStatement(caller, file, phase, description, location, incidentId), now);
      var id := t.photoSeq + 1;
      && (r.Ok? <==> Or(phase, DefaultPhase) in Phases && RefOk(incidentId, t.incidents))
      && (Or(phase, DefaultPhase) !in Phases ==> r == Err(CheckViolation))
      && (Or(phase, DefaultPhase) in Phases && !RefOk(incidentId, t.incidents) ==> r == Err(ForeignKeyViolation))
      && (r.Ok? ==>
            && r.value.inserted == Some(id)
            && r.value.tables == t.(photos := t.photos[id := r.value.tables.photos[id]], photoSeq := id)
            && var p := r.value.tables.photos[id];
            && p.uploadedBy == Some(caller) && p.incidentId == incidentId
            && p.phase == Some(if Truthy(phase) then phase.value else DefaultPhase)
            && p.filename == file.filename && p.mimeType == Some(file.mimeType)
            && p.fileSize == Some(file.size) && p.createdAt == now)
  {
  }

  /** POST /, behind `authenticate` and multer. */
  method Create(db: Database, caller: Principal, file: Option<Upload>, phase: Option<string>,
                description: Option<string>, location: Option<string>, incidentId: Option<int>, now: Time)
    returns (code: int, id: Option<int>)
    requires db.Valid() && db.initialized
    modifies db
    ensures db.Valid() && db.initialized
    ensures (file.None? || MulterCheck(file)) ==> code == 400 && id.None? && unchanged(db)
    ensures file.Some? && !MulterCheck(file) ==>
      var s := UploadStatement(caller.id, file.value, phase, description, location, incidentId);
      && db.tables == After(old(db.tables), s, now)
      && code == (if Exec(old(db.tables), s, now).Ok? then 201 else 500)
      && id == (if Exec(old(db.tables), s, now).Ok? then Some(db.lastInsertRowid) else None)
  {
    if MulterCheck(file) {
      return 400, None;
    }
    if file.None? {
      return 400, None;
    }
    var s := UploadStatement(caller.id, file.value, phase, description, location, incidentId);
    var result := db.Run(s, now);
    if result.Err? {
      return 500, None;
    }
    code := 201;
    id := Some(result.value.lastInsertRowid);
  }

  // ---------------------------------------------------------------------------------
  // DELETE /:id
  // ---------------------------------------------------------------------------------

  /** The uploader, an admin or a manager may delete a photo. A photo with no uploader
      can be deleted by admins and managers only. */
  predicate MayDelete(p: Photo, caller: Principal) {
    p.uploadedBy == Some(caller.id) || caller.role == "admin" || caller.role == "manager"
  }

  /** Deleting an existing photo removes exactly that row; nothing references photos,
      so nothing else changes. */
  lemma DeletePhotoEffect(t: Tables, id: int, now: Time)
    requires TableNames <= t.schema && id in t.photos
    ensures var r := Exec(t, DeletePhoto(id), now);
      && r.Ok? && r.value.changes == 1
      && r.value.tables == t.(photos := t.photos - {id})
  {
  }

  /** DELETE /:id, behind `authenticate`: 404 first, then 403 unless permitted. */
  method Delete(db: Database, caller: Principal, id: int, now: Time) returns (code: int)
    requires db.Valid() && db.initialized
    modifies db
    ensures db.Valid() && db.initialized
    ensures id !in old(db.tables.photos) ==> code == 404 && unchanged(db)
    ensures id in old(db.tables.photos) && !MayDelete(old(db.tables.photos[id]), caller) ==>
      code == 403 && unchanged(db)
    ensures id in old(db.tables.photos) && MayDelete(old(db.tables.photos[id]), caller) ==>
      && db.tables == After(old(db.tables), DeletePhoto(id), now)
      && code == (if Exec(old(db.tables), DeletePhoto(id), now).Ok? then 200 else 500)
  {
    EvalPhotoById(db.tables, id);
    var found := db.Get(PhotoById(id));
    if found.Err? {
      return 500;
    }
    if found.value.None? {
      return 404;
    }
    var row := found.value.value;
    if !(row.PhotoRow? && MayDelete(row.photo, caller)) {
      return 403;
    }
    var result := db.Run(DeletePhoto(id), now);
    code := if result.Ok? then 200 else 500;
  }
}
