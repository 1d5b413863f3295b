/** The training handlers of server/routes/training.js: the module list, module
    creation, and the three progress transitions (start, progress update, complete) that
    keep one `training_progress` row per user and module. */
module Training {
  import opened Wrappers
  import opened Schema
  import opened Engine
  import opened Ordering
  import opened Queries
  import opened Store
  import opened AuthMiddleware
  import opened Js

  const DefaultListLimit := 50
  const DefaultDuration := 60

  // ---------------------------------------------------------------------------------
  // GET /modules
  // ---------------------------------------------------------------------------------

  /** The `is_required` query value: absent means no filter, "true" selects the
      required modules and any other value the optional ones. */
  function RequiredFilter(isRequired: Option<string>): (r: Option<bool>)
    ensures r.None? <==> isRequired.None?
    ensures r == Some(true) <==> isRequired == Some("true")
  {
    if isRequired.None? then None else Some(isRequired.value == "true")
  }

  /** The module list for the given query: active modules only, the category filter
      when it is truthy, the `is_required` filter when it is present, required modules
      first and then by title, at most `limit` rows. */
  function ModuleList(t: Tables, category: Option<string>, isRequired: Option<string>, limit: int): seq<(int, Module)> {
    Listing(t.modules, ModuleMatch(OrNull(category), RequiredFilter(isRequired)), RequiredThenTitle, limit, 0)
  }

  lemma ModuleListSpec(t: Tables, category: Option<string>, isRequired: Option<string>, limit: int)
    ensures var r := ModuleList(t, category, isRequired, limit);
      && (forall e :: e in r ==>
            && e.0 in t.modules && e.1 == t.modules[e.0] && e.1.active
            && (Truthy(category) ==> e.1.category == category.value)
            && (isRequired.Some? ==> e.1.required == (isRequired.value == "true")))
      && (forall i, j :: 0 <= i < j < |r| ==>
            (r[i].1.required && !r[j].1.required)
            || (r[i].1.required == r[j].1.required && StrLe(r[i].1.title, r[j].1.title)))
      && (limit >= 0 ==> |r| <= limit)
      && (limit < 0 ==>
            forall k :: (k in t.modules && t.modules[k].active
              && (Truthy(category) ==> t.modules[k].category == category.value)
              && (isRequired.Some? ==> t.modules[k].required == (isRequired.value == "true")))
              ==> (k, t.modules[k]) in r)
  {
    RequiredThenTitleOrder();
    ListingSpec(t.modules, ModuleMatch(OrNull(category), RequiredFilter(isRequired)), RequiredThenTitle, limit, 0);
  }

  /** GET /modules (optional authentication, which does not affect the answer). */
  method GetModules(db: Database, category: Option<string>, isRequired: Option<string>, limit: Option<int>)
    returns (status: int, modules: seq<Row>)
    requires db.Valid() && db.initialized
    ensures status == 200
    ensures modules == ModuleRows(ModuleList(db.tables, category, isRequired, limit.GetOr(DefaultListLimit)))
  {
    EvalListModules(db.tables, OrNull(category), RequiredFilter(isRequired), limit.GetOr(DefaultListLimit));
    var rows := db.All(ListModules(OrNull(category), RequiredFilter(isRequired), limit.GetOr(DefaultListLimit)));
    status := 200;
    modules := if rows.Ok? then rows.value else [];
  }

  // ---------------------------------------------------------------------------------
  // POST /modules
  // ---------------------------------------------------------------------------------

  /** The INSERT of module creation: duration 60 and difficulty 'beginner' when the
      body gives a falsy value, `is_required` as 0/1, the caller as creator. */
  function CreateModuleStatement(caller: int, title: string, description: Option<string>, category: string,
                                 duration: Option<int>, contentUrl: Option<string>,
                                 difficulty: Option<string>, isRequired: bool): Statement
  {
    InsertModule(title, description, category, Some(NumOr(duration, DefaultDuration)), contentUrl,
                 Some(Or(difficulty, DefaultDifficulty)), isRequired, Some(caller))
  }

  /** Creating a module by an existing user succeeds exactly when the difficulty is one
      of the schema's; it adds one active module at the next id, owned by the caller,
      and changes nothing else. */
  lemma CreateModuleEffect(t: Tables, caller: int, title: string, description: Option<string>,
                           category: string, duration: Option<int>, contentUrl: Option<string>,
                           difficulty: Option<string>, isRequired: bool, now: Time)
    requires Consistent(t) && TableNames <= t.schema && caller in t.users
    ensures var r := Exec(t, CreateModuleStatement(caller, title, description, category, duration,
                                                    contentUrl, difficulty, isRequired), now);
      && (r.Ok? <==> Or(difficulty, DefaultDifficulty) in Difficulties)
      && (r.Err? ==> r.error == CheckViolation)
      && (r.Ok? ==>
            var id := t.moduleSeq + 1;
            && id !in t.modules
            && r.value.inserted == Some(id)
            && r.value.tables == t.(modules := t.modules[id := r.value.tables.modules[id]], moduleSeq := id)
            && r.value.tables.modules[id] == Module(title, description, category,
                 Some(if duration.Some? && duration.value != 0 then duration.value else 60), contentUrl,
                 Some(if Truthy(difficulty) then difficulty.value else "beginner"), isRequired, true,
                 Some(caller), now, now))
  {
  }

  /** POST /modules, behind `authenticate` and `requireRole(['admin', 'manager'])`. */
  method CreateModule(db: Database, caller: Principal, title: Option<string>, description: Option<string>,
                      category: Option<string>, duration: Option<int>, contentUrl: Option<string>,
                      difficulty: Option<string>, isRequired: bool, now: Time)
    returns (status: int, id: Option<int>)
    requires db.Valid() && db.initialized
    modifies db
    ensures db.Valid() && db.initialized
    ensures RequireManager(Some(caller)).Some? ==> status == 403 && id.None? && unchanged(db)
    ensures RequireManager(Some(caller)).None? && !(Truthy(title) && Truthy(category)) ==>
      status == 400 && id.None? && unchanged(db)
    ensures RequireManager(Some(caller)).None? && Truthy(title) && Truthy(category) ==>
      var s := CreateModuleStatement(caller.id, title.value, description, category.value, duration,
                                     contentUrl, difficulty, isRequired);
      var r := Exec(old(db.tables), s, now);
      && db.tables == After(old(db.tables), s, now)
      && status == (if r.Ok? then 201 else 500)
      && id == (if r.Ok? then Some(db.lastInsertRowid) else None)
  {
    id := None;
    if RequireManager(Some(caller)).Some? {
      return 403, None;
    }
    if !Truthy(title) || !Truthy(category) {
      return 400, None;
    }
    var result := db.Run(CreateModuleStatement(caller.id, title.value, description, category.value, duration,
                                               contentUrl, difficulty, isRequired), now);
    if result.Err? {
      return 500, None;
    }
    status := 201;
    id := Some(result.value.lastInsertRowid);
  }

  // ---------------------------------------------------------------------------------
  // Progress rows
  // ---------------------------------------------------------------------------------

  /** A progress row as the training routes leave it: 'completed' exactly when the value
      is 100, a completion time whenever it is completed, and the value (when not NULL)
      within 0..100. */
  predicate Coupled(p: Progress) {
    && (p.status == Some("completed") <==> p.progress == Some(100))
    && (p.status == Some("completed") ==> p.completedAt.Some?)
    && (p.progress.Some? ==> 0 <= p.progress.value <= 100)
  }

  predicate ProgressCoupled(t: Tables) {
    forall k :: k in t.progress ==> Coupled(t.progress[k])
  }

  /** The INSERT of POST /modules/:id/start. */
  function StartStatement(caller: int, moduleId: int, now: Time): Statement {
    InsertProgress(caller, moduleId, Some("in_progress"), Some(0), Some(now), None, None)
  }

  /** The UPDATE of PATCH /modules/:id/progress. */
  function ProgressStatement(caller: int, moduleId: int, value: Option<int>): Statement {
    SetProgress(caller, moduleId, value)
  }

  /** POST /modules/:id/complete: an UPDATE when the pair already has a row, an INSERT
      otherwise; a falsy score (absent, null or 0) is stored as NULL. */
  function CompleteStatement(t: Tables, caller: int, moduleId: int, score: Option<int>, now: Time): Statement {
    if PairTaken(t.progress, caller, moduleId) then CompleteProgress(caller, moduleId, NumOrNull(score))
    else InsertProgress(caller, moduleId, Some("completed"), Some(100), Some(now), Some(now), NumOrNull(score))
  }

  /** The statements the three progress routes can issue. */
  predicate TrainingWrite(s: Statement, caller: int, moduleId: int, now: Time) {
    || s == StartStatement(caller, moduleId, now)
    || (s.SetProgress? && s.userId == caller && s.moduleId == moduleId
        && (s.value.None? || 0 <= s.value.value <= 100))
    || (s.CompleteProgress? && s.userId == caller && s.moduleId == moduleId)
    || (s.InsertProgress? && s == InsertProgress(caller, moduleId, Some("completed"), Some(100),
                                                  Some(now), Some(now), s.score))
  }

  /** Rows of other users are neither changed, removed nor added. */
  predicate OthersUntouched(before: map<int, Progress>, after: map<int, Progress>, caller: int) {
    && (forall k :: k in before && before[k].userId != caller ==> k in after && after[k] == before[k])
    && (forall k :: k in after && after[k].userId != caller ==> k in before)
  }

  /** The progress routes touch nothing but the caller's progress rows, and they keep the
      progress/status/completion coupling of every row. */
  lemma TrainingWriteEffect(t: Tables, s: Statement, caller: int, moduleId: int, now: Time)
    requires Consistent(t) && TrainingWrite(s, caller, moduleId, now)
    ensures var after := After(t, s, now);
      && after.(progress := t.progress, progressSeq := t.progressSeq) == t
      && OthersUntouched(t.progress, after.progress, caller)
      && (ProgressCoupled(t) ==> ProgressCoupled(after))
  {
    if s.InsertProgress? {
      ProgressInsertEffect(t, s, caller, moduleId, now);
    } else {
      ProgressUpdateWriteEffect(t, s, caller, moduleId, now);
    }
  }

  lemma ProgressInsertEffect(t: Tables, s: Statement, caller: int, moduleId: int, now: Time)
    requires Consistent(t) && TrainingWrite(s, caller, moduleId, now) && s.InsertProgress?
    ensures var after := After(t, s, now);
      && after.(progress := t.progress, progressSeq := t.progressSeq) == t
      && OthersUntouched(t.progress, after.progress, caller)
      && (ProgressCoupled(t) ==> ProgressCoupled(after))
  {
  }

  lemma ProgressUpdateWriteEffect(t: Tables, s: Statement, caller: int, moduleId: int, now: Time)
    requires TrainingWrite(s, caller, moduleId, now) && (s.SetProgress? || s.CompleteProgress?)
    ensures var after := After(t, s, now);
      && after.(progress := t.progress, progressSeq := t.progressSeq) == t
      && OthersUntouched(t.progress, after.progress, caller)
      && (ProgressCoupled(t) ==> ProgressCoupled(after))
  {
    var after := After(t, s, now);
    if Exec(t, s, now).Ok? {
      forall k | k in after.progress ensures k in t.progress
        && (t.progress[k].userId == caller && t.progress[k].moduleId == moduleId ==>
              after.progress[k] == (if s.SetProgress? then WithProgress(t.progress[k], s.value, now)
                                    else Completed(t.progress[k], s.score, now)))
        && (!(t.progress[k].userId == caller && t.progress[k].moduleId == moduleId) ==>
              after.progress[k] == t.progress[k])
      {
      }
      if ProgressCoupled(t) {
        forall k | k in after.progress ensures Coupled(after.progress[k]) {
          assert Coupled(t.progress[k]);
        }
      }
    }
  }

  // ---------------------------------------------------------------------------------
  // POST /modules/:id/start
  // ---------------------------------------------------------------------------------

  /** Starting a module that exists, for an existing user without a row for it, adds
      exactly one row, in progress at 0 since `now`, and it is the pair's only row. */
  lemma StartInsertsOne(t: Tables, caller: int, moduleId: int, now: Time)
    requires Consistent(t) && TableNames <= t.schema
    requires caller in t.users && moduleId in t.modules && !PairTaken(t.progress, caller, moduleId)
    ensures var r := Exec(t, StartStatement(caller, moduleId, now), now);
      var id := t.progressSeq + 1;
      && r.Ok? && id !in t.progress && r.value.inserted == Some(id)
      && r.value.tables == t.(progress := t.progress[id := Progress(caller, moduleId, Some("in_progress"),
                                                                     Some(0), Some(now), None, None)],
                              progressSeq := id)
      && PairKeys(r.value.tables.progress, caller, moduleId) == {id}
  {
    var r := Exec(t, StartStatement(caller, moduleId, now), now);
    var id := t.progressSeq + 1;
    NewRowIsPairsOnly(t, r.value.tables, caller, moduleId, id);
  }

  /** A pair without rows that gains row `id` and nothing else has exactly that row. */
  lemma NewRowIsPairsOnly(t: Tables, t': Tables, caller: int, moduleId: int, id: int)
    requires !PairTaken(t.progress, caller, moduleId)
    requires id in t'.progress && t'.progress[id].userId == caller && t'.progress[id].moduleId == moduleId
    requires forall k :: k in t'.progress && k != id ==> k in t.progress && t'.progress[k] == t.progress[k]
    ensures PairKeys(t'.progress, caller, moduleId) == {id}
  {
    forall k | k in PairKeys(t'.progress, caller, moduleId) ensures k == id {
    }
  }

  /** POST /modules/:id/start, behind `authenticate`. */
  method StartModule(db: Database, caller: Principal, moduleId: int, now: Time) returns (status: int)
    requires db.Valid() && db.initialized
    modifies db
    ensures db.Valid() && db.initialized
    ensures moduleId !in old(db.tables.modules) ==> status == 404 && unchanged(db)
    ensures moduleId in old(db.tables.modules) && PairTaken(old(db.tables.progress), caller.id, moduleId) ==>
      status == 200 && unchanged(db)
    ensures moduleId in old(db.tables.modules) && !PairTaken(old(db.tables.progress), caller.id, moduleId) ==>
      var s := StartStatement(caller.id, moduleId, now);
      && db.tables == After(old(db.tables), s, now)
      && status == (if Exec(old(db.tables), s, now).Ok? then 200 else 500)
  {
    EvalModuleById(db.tables, moduleId);
    EvalProgressOf(db.tables, caller.id, moduleId);
    var found := db.Get(ModuleById(moduleId));
    if found.Err? {
      return 500;
    }
    if found.value.None? {
      return 404;
    }
    var existing := db.Get(ProgressOf(caller.id, moduleId));
    if existing.Err? {
      return 500;
    }
    if existing.value.Some? {
      return 200;
    }
    var result := db.Run(StartStatement(caller.id, moduleId, now), now);
    status := if result.Ok? then 200 else 500;
  }

  // ---------------------------------------------------------------------------------
  // PATCH /modules/:id/progress
  // ---------------------------------------------------------------------------------

  /** The `progress` field of the request body. */
  datatype ProgressField = Absent | Null | Given(value: int)

  /** `progress === undefined || progress < 0 || progress > 100`; `null` compares as 0,
      so it passes. */
  predicate ProgressRejected(progress: ProgressField) {
    progress.Absent? || (progress.Given? && (progress.value < 0 || progress.value > 100))
  }

  function Bound(progress: ProgressField): Option<int> {
    if progress.Given? then Some(progress.value) else None
  }

  /** The progress update stores the given value in every row of the pair, marks it
      completed exactly when the value is at least 100, refreshes the completion time
      only then, and changes no other column and no other row. */
  lemma ProgressUpdateEffect(t: Tables, caller: int, moduleId: int, value: Option<int>, now: Time)
    requires TableNames <= t.schema
    ensures var r := Exec(t, ProgressStatement(caller, moduleId, value), now);
      && r.Ok?
      && r.value.tables.(progress := t.progress) == t
      && r.value.tables.progress.Keys == t.progress.Keys
      && forall k :: k in t.progress ==>
           var o := t.progress[k];
           var n := r.value.tables.progress[k];
           if o.userId == caller && o.moduleId == moduleId then
             && n.progress == value
             && (n.status == Some("completed") <==> value.Some? && value.value >= 100)
             && (n.status != Some("completed") ==> n.status == Some("in_progress"))
             && n.completedAt == (if value.Some? && value.value >= 100 then Some(now) else o.completedAt)
             && n.userId == o.userId && n.moduleId == o.moduleId
             && n.startedAt == o.startedAt && n.score == o.score
           else n == o
  {
  }

  /** PATCH /modules/:id/progress, behind `authenticate`. */
  method UpdateProgress(db: Database, caller: Principal, moduleId: int, progress: ProgressField, now: Time)
    returns (status: int)
    requires db.Valid() && db.initialized
    modifies db
    ensures db.Valid() && db.initialized
    ensures ProgressRejected(progress) ==> status == 400 && unchanged(db)
    ensures !ProgressRejected(progress) && !PairTaken(old(db.tables.progress), caller.id, moduleId) ==>
      status == 404 && unchanged(db)
    ensures !ProgressRejected(progress) && PairTaken(old(db.tables.progress), caller.id, moduleId) ==>
      var s := ProgressStatement(caller.id, moduleId, Bound(progress));
      && db.tables == After(old(db.tables), s, now)
      && status == (if Exec(old(db.tables), s, now).Ok? then 200 else 500)
  {
    if ProgressRejected(progress) {
      return 400;
    }
    EvalProgressOf(db.tables, caller.id, moduleId);
    var existing := db.Get(ProgressOf(caller.id, moduleId));
    if existing.Err? {
      return 500;
    }
    if existing.value.None? {
      return 404;
    }
    var result := db.Run(ProgressStatement(caller.id, moduleId, Bound(progress)), now);
    status := if result.Ok? then 200 else 500;
  }

  /** A value the route accepts keeps the coupling. */
  lemma AcceptedProgressIsTrainingWrite(caller: int, moduleId: int, progress: ProgressField, now: Time)
    requires !ProgressRejected(progress)
    ensures TrainingWrite(ProgressStatement(caller, moduleId, Bound(progress)), caller, moduleId, now)
  {
  }

  // ---------------------------------------------------------------------------------
  // POST /modules/:id/complete
  // ---------------------------------------------------------------------------------

  /** Completing is an upsert: for an existing user and module it succeeds, and afterwards
      the pair has exactly one row, completed at 100 with the completion time `now` and
      the score (a falsy score stored as NULL). */
  lemma CompleteUpsert(t: Tables, caller: int, moduleId: int, score: Option<int>, now: Time)
    requires Consistent(t) && TableNames <= t.schema && caller in t.users && moduleId in t.modules
    ensures var r := Exec(t, CompleteStatement(t, caller, moduleId, score, now), now);
      && r.Ok?
      && |PairKeys(r.value.tables.progress, caller, moduleId)| == 1
      && forall k :: k in PairKeys(r.value.tables.progress, caller, moduleId) ==>
           var p := r.value.tables.progress[k];
           && p.status == Some("completed") && p.progress == Some(100)
           && p.completedAt == Some(now)
           && p.score == (if score.Some? && score.value != 0 then score else None)
  {
    if PairTaken(t.progress, caller, moduleId) {
      CompleteUpdates(t, caller, moduleId, score, now);
    } else {
      CompleteInserts(t, caller, moduleId, score, now);
    }
  }

  /** A pair that has its row: the row is updated in place and stays the only one. */
  lemma CompleteUpdates(t: Tables, caller: int, moduleId: int, score: Option<int>, now: Time)
    requires Consistent(t) && TableNames <= t.schema && PairTaken(t.progress, caller, moduleId)
    ensures var r := Exec(t, CompleteStatement(t, caller, moduleId, score, now), now);
      && r.Ok?
      && |PairKeys(r.value.tables.progress, caller, moduleId)| == 1
      && forall k :: k in PairKeys(r.value.tables.progress, caller, moduleId) ==>
           var p := r.value.tables.progress[k];
           && p.status == Some("completed") && p.progress == Some(100)
           && p.completedAt == Some(now)
           && p.score == (if score.Some? && score.value != 0 then score else None)
  {
    var s := CompleteStatement(t, caller, moduleId, score, now);
    var r := Exec(t, s, now);
    Integrity.PairKeysAtMostOne(t, caller, moduleId);
    var k :| k in t.progress && t.progress[k].userId == caller && t.progress[k].moduleId == moduleId;
    assert k in PairKeys(t.progress, caller, moduleId);
    assert PairKeys(r.value.tables.progress, caller, moduleId) == PairKeys(t.progress, caller, moduleId);
    assert PairKeys(t.progress, caller, moduleId) == {k} by {
      forall j | j in PairKeys(t.progress, caller, moduleId) ensures j == k {
        assert UniquePairs(t.progress);
      }
    }
  }

  /** A pair without a row: the one inserted is its only row. */
  lemma CompleteInserts(t: Tables, caller: int, moduleId: int, score: Option<int>, now: Time)
    requires Consistent(t) && TableNames <= t.schema && caller in t.users && moduleId in t.modules
    requires !PairTaken(t.progress, caller, moduleId)
    ensures var r := Exec(t, CompleteStatement(t, caller, moduleId, score, now), now);
      && r.Ok?
      && |PairKeys(r.value.tables.progress, caller, moduleId)| == 1
      && forall k :: k in PairKeys(r.value.tables.progress, caller, moduleId) ==>
           var p := r.value.tables.progress[k];
           && p.status == Some("completed") && p.progress == Some(100)
           && p.completedAt == Some(now)
           && p.score == (if score.Some? && score.value != 0 then score else None)
  {
    var r := Exec(t, CompleteStatement(t, caller, moduleId, score, now), now);
    NewRowIsPairsOnly(t, r.value.tables, caller, moduleId, t.progressSeq + 1);
  }

  /** POST /modules/:id/complete, behind `authenticate`. The module is not looked up: a
      missing module fails the foreign key of the INSERT. */
  method CompleteModule(db: Database, caller: Principal, moduleId: int, score: Option<int>, now: Time)
    returns (status: int)
    requires db.Valid() && db.initialized
    modifies db
    ensures db.Valid() && db.initialized
    ensures var s := CompleteStatement(old(db.tables), caller.id, moduleId, score, now);
      && db.tables == After(old(db.tables), s, now)
      && status == (if Exec(old(db.tables), s, now).Ok? then 200 else 500)
  {
    EvalProgressOf(db.tables, caller.id, moduleId);
    var existing := db.Get(ProgressOf(caller.id, moduleId));
    if existing.Err? {
      return 500;
    }
    var result;
    if existing.value.Some? {
      result := db.Run(CompleteProgress(caller.id, moduleId, NumOrNull(score)), now);
    } else {
      result := db.Run(InsertProgress(caller.id, moduleId, Some("completed"), Some(100), Some(now), Some(now),
                                      NumOrNull(score)), now);
    }
    status := if result.Ok? then 200 else 500;
  }

  /** Every statement the complete route can issue is one of the progress writes. */
  lemma CompleteIsTrainingWrite(t: Tables, caller: int, moduleId: int, score: Option<int>, now: Time)
    ensures TrainingWrite(CompleteStatement(t, caller, moduleId, score, now), caller, moduleId, now)
  {
  }
}
