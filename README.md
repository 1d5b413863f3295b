# Workplace-safety record store, modelled in Dafny

This project models the server side of a workplace-safety application. The server is an
Express API over one SQLite database, held in memory by sql.js and written back to a
file after every change. The model covers:

- **The database module** (`server/database/init.js`). The seven tables with their
  CHECK, UNIQUE, FOREIGN KEY and AUTOINCREMENT rules. Every INSERT, UPDATE and DELETE
  the handlers issue, and the SELECTs they read with. The module state: the handle, the
  `initialized` flag, the foreign-key pragma and the file image, with `initDatabase`,
  `saveDatabase`, `run`, `query`, `get` and `all`.
- **The authentication middleware** (`server/middleware/auth.js`). The Bearer-token
  parse, the active-user lookup and the role gates.
- **The route handlers** for training, incidents, photos, documents, users and
  authentication. Each handler's validation, lookups, status codes and writes are
  modelled in the order the source performs them.
- **The dashboard** (`server/routes/dashboard.js`). The statistics, the activity feed
  and the compliance report.
- **The demo-data seeder** (`server/database/seed.js`).

The model is organised as follows:

- **Store contents.** The contents of the store are a value, `Schema.Tables`: one
  `map<int, Row>` per table, keyed by row id, plus that table's AUTOINCREMENT counter.
- **Statements.** `Engine.Exec` gives the meaning of each statement.
- **Reads.** `Queries.Eval` gives the meaning of each read. A read is a scan in rowid
  order, then a filter, then a stable sort, then LIMIT/OFFSET.
- **Module state.** The module-level state of `init.js` is the class `Store.Database`.
  Its `tables` field is reassigned by `Run`.
- **Handlers.** Each handler is a method on a `Database`. It returns the HTTP status
  code and what the response body carries. Its `ensures` states the new tables in terms
  of `Exec`. A lemma next to it states what that write does.

The main proved properties are:

- Every statement keeps the declared constraints (`Integrity.ExecConsistent`).
- The seeder is idempotent (`SeedFacts.SeededIdempotent`).
- The Bearer header round-trips (`AuthMiddleware.BearerRoundTrip`).
- The listings are complete and correctly ordered (for example `Queries.ListingSpec`
  and `DashboardFeed.FeedSpec`).
- The dashboard figures are bounded and counted correctly (`Dashboard.StatsCounts`,
  `Dashboard.ComplianceBounds`).

What stays outside the model is given as parameters:

- bcrypt hashes and comparisons;
- JWT verification;
- the `isEmail` verdict;
- multer's upload record;
- the clock (`now`);
- the seeder's random incident dates.

## Model

| member | source | states |
|---|---|---|
| Schema.CreateTables | server/database/init.js:79-237 | every table and index named by `createTables` exists afterwards; rows and counters are untouched; on a store that already has them nothing changes (`IF NOT EXISTS`) |
| Schema.CreateTablesConsistent | server/database/init.js:79-237 | creating the schema on a store that satisfies every declared constraint keeps it satisfied |
| Schema.EmptyConsistent | server/database/init.js:39-46 | a new, empty database satisfies every declared constraint |
| Store.LoadedRoundTrip | server/database/init.js:34-37 | loading a file that `saveDatabase` wrote and re-running `createTables` gives back exactly the saved tables |
| Store.LoadFallback | server/database/init.js:39-46 | a missing or unreadable file gives an empty store, which is consistent once the schema is created |
| Store.CreateTablesConsistentEmpty | server/database/init.js:40 | the schema created on an empty store is consistent |
| Store.Database.constructor | server/database/init.js:20-22 | a process starts with no handle and `initialized` false |
| Store.Database.SaveDatabase | server/database/init.js:64-74 | with a handle, the file becomes the image of the tables when it can be written; without a handle nothing happens |
| Store.Database.InitDatabase | server/database/init.js:27-59 | a second call returns at once with nothing changed; a first call loads the file (or starts empty), creates the schema, turns foreign keys on and saves; a saved image that already has the schema loads back unchanged; consistency of the file carries over to the tables |
| Store.Database.Run | server/database/init.js:274-290 | without a handle it fails with nothing changed; a failing statement changes nothing and reports its error; a successful one installs the statement's new tables, records `last_insert_rowid()` and `changes()`, and saves |
| Store.Database.Query | server/database/init.js:249-269 | without a handle it fails; otherwise the result is exactly the rows of the read |
| Store.Database.Get | server/database/init.js:295-298 | the result is the read's first row, or null exactly when the read yields no row |
| Store.Database.All | server/database/init.js:303-305 | the result is every row of the read |
| Store.Collect | server/database/init.js:258-261 | the step loop collects the rows in the order the statement yields them |
| Store.After | server/database/init.js:277-289 | a statement that throws leaves the tables as they were |
| Store.AfterConsistent | server/database/init.js:274-290 | every statement `run` executes, whether it succeeds or throws, keeps every declared constraint |
| Engine.NewUser | server/database/init.js:81-97 | an inserted user gets the role given or the default 'employee', is active, has no last login and keeps its email |
| Engine.FirstViolation | server/database/init.js:81-97 | a row is accepted exactly when its CHECKs hold, it clashes with no UNIQUE key and its foreign keys resolve; a failed CHECK is reported before a UNIQUE clash |
| Integrity.AddUserConsistent | server/database/init.js:81-97 | an INSERT INTO users that succeeds keeps every constraint |
| Integrity.ReplaceUserConsistent | server/database/init.js:81-97 | an UPDATE of a user row that keeps its email and succeeds keeps every constraint |
| Integrity.RemoveUserConsistent | server/database/init.js:176-232 | a DELETE of a user that succeeds keeps every constraint once the cascades and SET NULLs have run |
| Integrity.AddIncidentConsistent | server/database/init.js:104-126 | an INSERT INTO incidents that succeeds keeps every constraint |
| Integrity.ReplaceIncidentConsistent | server/database/init.js:104-126 | an UPDATE of an incident that succeeds keeps every constraint |
| Integrity.RemoveIncidentConsistent | server/database/init.js:146 | deleting an incident always succeeds and keeps every constraint (its photos' incident_id is nulled) |
| Integrity.AddPhotoConsistent | server/database/init.js:133-149 | an INSERT INTO photos that succeeds keeps every constraint |
| Integrity.RemovePhotoConsistent | server/database/init.js:133-149 | deleting a photo always succeeds and keeps every constraint |
| Integrity.AddModuleConsistent | server/database/init.js:154-171 | an INSERT INTO training_modules that succeeds keeps every constraint |
| Integrity.RemoveModuleConsistent | server/database/init.js:188 | deleting a module always succeeds and keeps every constraint (its progress rows cascade) |
| Integrity.AddProgressConsistent | server/database/init.js:176-191 | an INSERT INTO training_progress that succeeds keeps every constraint, UNIQUE(user_id, module_id) included |
| Integrity.UpdatePairConsistent | server/database/init.js:176-191 | an UPDATE of the progress rows of one pair that keeps the pair and a valid status keeps every constraint |
| Integrity.AddDocumentConsistent | server/database/init.js:196-213 | an INSERT INTO documents that succeeds keeps every constraint |
| Integrity.ReplaceDocumentConsistent | server/database/init.js:196-213 | an UPDATE of a document that succeeds keeps every constraint |
| Integrity.RemoveDocumentConsistent | server/database/init.js:196-213 | deleting a document always succeeds and keeps every constraint |
| Integrity.AddAuditLogConsistent | server/database/init.js:218-232 | an INSERT INTO audit_logs that succeeds keeps every constraint |
| Integrity.ExecConsistent | server/database/init.js:79-237 | every statement the application issues that succeeds on a consistent store leaves it consistent |
| Integrity.PeopleAndIncidentsConsistent | server/database/init.js:81-126 | the same, for the user and incident statements |
| Integrity.RecordsConsistent | server/database/init.js:133-232 | the same, for the photo, training, document and audit statements |
| Integrity.InsertUserDefaults | server/database/init.js:88-92 | an INSERT INTO users that names neither role nor is_active stores 'employee' and 1 under a fresh id and changes one row |
| Integrity.DuplicateEmailRejected | server/database/init.js:84 | a second row with an email already stored is refused with a UNIQUE violation |
| Integrity.InsertIncidentChecks | server/database/init.js:109-111 | an incident whose type, severity or status is outside its set is refused by CHECK; a stored incident without a status gets 'reported' |
| Integrity.PairKeysAtMostOne | server/database/init.js:189 | a consistent store holds at most one progress row per (user, module) pair |
| Integrity.AtMostOne | server/database/init.js:189 | a set whose elements are all equal has at most one element |
| Integrity.DeleteIncidentSetsNull | server/database/init.js:146 | deleting an incident removes exactly that row, keeps every photo and nulls the incident_id of that incident's photos only |
| Integrity.DeleteUserActions | server/database/init.js:104-232 | deleting a user fails with a foreign-key violation exactly when an incident, photo, module or document refers to it; otherwise its progress rows cascade, its audit rows get user_id NULL, and nothing else is removed |
| Integrity.DeleteModuleCascades | server/database/init.js:188 | deleting a module removes it and exactly its progress rows, leaving the others unchanged |
| Integrity.ExecKeepsSchema | server/database/init.js:79-237 | no statement creates or drops a schema object |
| AuthMiddleware.Field | server/middleware/auth.js:25 | `split(' ')[1]` reads a prefix that holds no space and ends at the next space or at the end |
| AuthMiddleware.BearerToken | server/middleware/auth.js:18-25 | a token is read exactly when the header starts with "Bearer "; it holds no space and follows the prefix |
| AuthMiddleware.FieldOf | server/middleware/auth.js:25 | a space-free text followed by nothing or a space is read back whole |
| AuthMiddleware.BearerRoundTrip | server/middleware/auth.js:18-25 | the header "Bearer " + token (optionally followed by a space and more) yields exactly that token |
| AuthMiddleware.LookupActive | server/middleware/auth.js:30-33 | a principal is found exactly when the id names an active user; it carries that user's role |
| AuthMiddleware.Authenticate | server/middleware/auth.js:14-58 | every rejection is 401: "No token provided" without a Bearer header, "Token expired" or "Invalid token" for a bad token; a request passes exactly when the token verifies to the id of an active user, whose id and role are attached |
| AuthMiddleware.OptionalAuth | server/middleware/auth.js:63-86 | never rejects; attaches a user exactly when `authenticate` would have |
| AuthMiddleware.RequireRole | server/middleware/auth.js:91-109 | lets a request through exactly when a user is attached and its role is listed; 401 without a user, 403 for another role |
| AuthMiddleware.RoleGates | server/middleware/auth.js:114-119 | `requireAdmin` admits only admins, `requireManager` admins and managers, and whatever passes the first passes the second |
| Js.Or | server/routes/photos.js:147 | `v \|\| fallback` is the value when it is a non-empty text, else the fallback |
| Js.OrNull | server/routes/users.js:89 | `v \|\| null` is null exactly when the value is missing or empty, else the value |
| Js.NumOr | server/routes/training.js:81 | `n \|\| fallback` is the number unless it is missing or 0 |
| Js.NumOrNull | server/routes/training.js:216 | `n \|\| null` is null exactly when the number is missing or 0 |
| Js.FirstNonSpace | server/routes/users.js:66-67 | the first position at or after the start that is not whitespace; everything skipped is whitespace |
| Js.EndOfNonSpace | server/routes/users.js:66-67 | the end of the text once trailing whitespace is cut; everything cut is whitespace and the kept text does not end with whitespace |
| Js.Trim | server/routes/users.js:66-67 | the trimmed text is the slice of the input left once whitespace is cut from both ends: only whitespace lies before and after it, it neither starts nor ends with whitespace, and it is empty exactly when the input is all whitespace |
| Js.TrimIdempotent | server/routes/users.js:66-67 | trimming twice is the same as trimming once |
| AuthRoutes.RegisterEffect | server/routes/auth.js:51-54 | a registration with a fresh address adds one active user at the next id, with the trimmed names and the stored role 'employee' (the role the response reports), and changes nothing else |
| AuthRoutes.Register | server/routes/auth.js:20-81 | 400 when validation fails and 409 when the email is registered, both changing nothing; otherwise the INSERT runs, giving 201 with the new id and role 'employee', or 500 |
| AuthRoutes.FindByEmail | server/routes/auth.js:102 | a row is found exactly when some user has that email, and the row found has it |
| AuthRoutes.FindByEmailUnique | server/routes/auth.js:102 | under UNIQUE(email) the row found is the only one with that email |
| AuthRoutes.TouchLastLoginEffect | server/routes/auth.js:125 | the login's UPDATE sets that user's last_login to now and changes nothing else |
| AuthRoutes.Login | server/routes/auth.js:87-153 | the checks run in order: 400 on validation, 401 for an unknown email, 403 for a disabled account before the password is compared, 401 for a wrong password, all without writing; otherwise last_login is stamped and the user's id returned (or 500) |
| Users.ListedUsersSpec | server/routes/users.js:21-25 | the listing holds every user, active or not, once each, newest first, with each row's email, role, active flag, last login and creation time |
| Users.AccountRowsSpec | server/routes/users.js:21-25 | the account rows of a complete, ordered scan carry each user's columns in that order |
| Users.List | server/routes/users.js:19-33 | 403 unless the caller is an admin or a manager; otherwise 200 with the listing |
| Users.CreateEffect | server/routes/users.js:86-89 | creating a user with a fresh address and a listed role adds exactly one active user at the next id, with that role, the trimmed names and `department \|\| null` |
| Users.Create | server/routes/users.js:63-102 | 403 for a non-admin, 400 on failed validation, 409 for a taken email, none of them writing; otherwise the INSERT runs: 201 with the new id, or 500 |
| Users.UserUpdateEffect | server/routes/users.js:126-135 | the update succeeds exactly when the merged role is in the CHECK set; each given column replaces the stored one, the others (email, hash, active flag, last login) stay, updated_at becomes now |
| Users.SelfUpdateMayChangeRole | server/routes/users.js:114-135 | a non-admin updating their own row may set any role in the set, their own included: the guard checks only whose row it is |
| Users.Update | server/routes/users.js:108-143 | 403 for another user's row unless the caller is an admin, 404 for an unknown id, both changing nothing; otherwise the COALESCE update runs: 200 or 500 |
| Users.DeactivateEffect | server/routes/users.js:160 | deactivation keeps the row, sets is_active to 0 and updated_at to now, and changes nothing else |
| Users.Delete | server/routes/users.js:149-170 | 403 for a non-admin, 400 for the caller's own id, 404 for an unknown id, none of them writing; otherwise the user is deactivated: 200 or 500 |
| Ordering.StrLeTotal | server/routes/training.js:33 | any two titles are comparable under the BINARY text order of `title ASC` |
| Ordering.StrLeTransitive | server/routes/training.js:33 | the text order is transitive |
| Ordering.StrLeAntisymmetric | server/routes/training.js:33 | two titles each at most the other are equal |
| Ordering.Where | server/routes/incidents.js:22-36 | the filtered rows are exactly the rows satisfying the condition, never more than the input |
| Ordering.Insert | server/routes/incidents.js:38 | inserting one row into a sorted run adds exactly that row |
| Ordering.SortBy | server/routes/incidents.js:38 | ORDER BY returns a permutation of its input |
| Ordering.InsertSorted | server/routes/incidents.js:38 | inserting into a sorted run keeps it sorted when the key order is a total preorder |
| Ordering.SortBySorted | server/routes/incidents.js:38 | ORDER BY returns a sorted permutation of its input |
| Ordering.Window | server/routes/incidents.js:38-39 | `LIMIT ? OFFSET ?` returns a contiguous run starting at the clamped offset, `limit` rows long or up to the end; a negative limit means no limit |
| Ordering.Slice0 | server/routes/dashboard.js:158 | `slice(0, n)` returns a prefix of `n` elements (all when fewer), and for negative `n` drops that many from the end |
| Queries.MinExists | server/database/init.js:259-261 | a non-empty set of row ids has a least element |
| Queries.SortedKeys | server/database/init.js:259-261 | the row ids of a table, each once, strictly ascending: the order a rowid scan steps through |
| Queries.Least | server/database/init.js:259-261 | the smallest id of a non-empty table |
| Queries.All | server/database/init.js:249-269 | a full scan returns every row with its id exactly once, in ascending id order |
| Queries.ByRecordOrder | server/routes/incidents.js:38 | a total preorder on records is one on (id, record) pairs |
| Queries.WindowOfSorted | server/routes/incidents.js:38-39 | a LIMIT/OFFSET window of a sorted result is sorted and holds only its rows |
| Queries.ListingSpec | server/routes/incidents.js:22-41 | a listing returns only rows of the table that meet the WHERE clause, in ORDER BY order, at most `limit` of them, and with no limit and no offset every matching row |
| Queries.Matching | server/routes/auth.js:39 | a WHERE without ORDER BY returns exactly the matching rows, in id order, and nothing exactly when no row matches |
| Queries.ScanFilter | server/database/init.js:249-269 | filtering a full scan gives exactly the matching rows, ascending by id |
| Queries.WhereKeepsOrder | server/database/init.js:259-261 | WHERE keeps the scan's ascending id order |
| Queries.Lookup | server/routes/incidents.js:61 | `WHERE id = ?` returns at most one row, the row with that id, and a row exactly when the id exists |
| Queries.RequiredThenTitleOrder | server/routes/training.js:33 | `ORDER BY is_required DESC, title ASC` is a total preorder |
| Queries.NewestFirstOrders | server/routes/incidents.js:38 | `created_at DESC` on each table and `completed_at DESC` with NULLs last are total preorders |
| Queries.Distinct | server/routes/dashboard.js:36-38 | the distinct group keys: the same values as the input, none twice |
| Queries.KeyColumn | server/routes/dashboard.js:36-38 | the key column has one entry per row, that row's key |
| Queries.EvalListModules | server/routes/training.js:21-36 | the module list statement returns the active modules meeting the filters, required first then by title, at most `limit` |
| Queries.EvalModuleById | server/routes/training.js:124 | the module lookup returns that module when it exists |
| Queries.EvalProgressOf | server/routes/training.js:130-133 | the progress lookup returns that user's rows for that module, and none exactly when the pair has no row |
| Queries.PairLookup | server/routes/training.js:130-133 | the pair lookup finds a row exactly when the pair has one |
| Queries.EvalIncidentById | server/routes/incidents.js:61 | the incident lookup returns that incident when it exists |
| Queries.EvalListIncidents | server/routes/incidents.js:22-45 | the incident list returns the filtered incidents newest first, windowed; the total counts every incident |
| Queries.EvalPhotoById | server/routes/photos.js:87 | the photo lookup returns that photo when it exists |
| Queries.EvalListPhotos | server/routes/photos.js:56-70 | the photo list returns the filtered photos newest first, windowed |
| Queries.EvalDocumentById | server/routes/documents.js:73 | the document lookup returns that document when it exists |
| Queries.EvalListDocuments | server/routes/documents.js:46-56 | the document list returns the active documents of the category newest first, at most `limit` |
| Queries.EvalUserById | server/middleware/auth.js:30-33 | the user lookup returns that user when it exists |
| Queries.EvalUserByEmail | server/routes/auth.js:39 | the email lookup returns the users with that address, and none exactly when the address is free |
| Queries.EvalListUsers | server/routes/users.js:21-25 | the user list statement returns the listing of every user, newest first |
| Dashboard.GetCount | server/routes/dashboard.js:20 | `db.get(...)?.count \|\| 0` yields the count of the statement's answer |
| Dashboard.GetAll | server/routes/dashboard.js:21-23 | `db.all` yields the statement's answer |
| Dashboard.CountMonotone | server/routes/dashboard.js:26-29 | a count under a stronger WHERE clause is at most the count under a weaker one, and at most the table size |
| Dashboard.KeyOrder | server/routes/dashboard.js:36-38 | group keys, NULL first, are totally preordered |
| Dashboard.SortedDistinctMembers | server/routes/dashboard.js:36-38 | sorting the distinct keys keeps exactly the keys |
| Dashboard.KeyColumnMembers | server/routes/dashboard.js:36-38 | the key column holds exactly the keys of the matching rows |
| Dashboard.GroupKeysMembers | server/routes/dashboard.js:36-38 | the group keys are exactly the keys some matching row carries |
| Dashboard.GroupKeysSorted | server/routes/dashboard.js:36-38 | the group keys come in ascending order |
| Dashboard.GroupsSpec | server/routes/dashboard.js:36-41 | a GROUP BY answer has one row per key some matching row carries, each with that key's non-zero row count, in key order, and covers every matching row |
| Dashboard.Percent | server/routes/dashboard.js:53 | `Math.round(part / whole * 100)` is the integer nearest to 100·part/whole, halves rounding up |
| Dashboard.PercentAtMost100 | server/routes/dashboard.js:53 | a part of the whole is at most 100 percent |
| Dashboard.PercentOfWhole | server/routes/dashboard.js:53 | all of the whole is 100 percent |
| Dashboard.CompletionRate | server/routes/dashboard.js:50-54 | the rate is 0 when there are no active users or no active modules, and otherwise the percentage of completed rows among users × modules |
| Dashboard.GetStats | server/routes/dashboard.js:17-89 | /stats answers 200 with the integer statistics read from the tables |
| Dashboard.ReadActiveUsers | server/routes/dashboard.js:20 | the user total counts active users |
| Dashboard.ReadUsersByRole | server/routes/dashboard.js:21-23 | the by-role groups are those of the active users |
| Dashboard.ReadIncidentTotal | server/routes/dashboard.js:26 | the incident total is the number of incidents |
| Dashboard.ReadOpenIncidents | server/routes/dashboard.js:27-29 | the open count counts incidents reported or under investigation |
| Dashboard.ReadResolvedSince | server/routes/dashboard.js:30-34 | the monthly count counts resolved incidents resolved since the month start |
| Dashboard.ReadCriticalOpen | server/routes/dashboard.js:200-203 | the critical count counts open incidents of critical severity |
| Dashboard.ReadActiveModules | server/routes/dashboard.js:44 | the module total counts active modules |
| Dashboard.ReadCompletedProgress | server/routes/dashboard.js:45-47 | the completion total counts completed progress rows |
| Dashboard.ReadRequiredModules | server/routes/dashboard.js:173-175 | the required count counts modules both required and active |
| Dashboard.ReadPhotoCounts | server/routes/dashboard.js:57 | the photo total is the number of photos |
| Dashboard.StatsCounts | server/routes/dashboard.js:17-60 | each /stats total counts what its WHERE clause selects: active users and modules at most their tables, the open incidents at most all incidents, and a non-zero completion rate only with users and modules |
| Dashboard.StatsGroups | server/routes/dashboard.js:21-23 | the by-role groups cover every active user's role, each with its non-zero count, in role order |
| Dashboard.OverallScore | server/routes/dashboard.js:210 | the overall score is never negative, at most 100 for a compliance of at most 100, exactly 100 only with no critical incidents and full compliance, and 0 from ten critical incidents on |
| Dashboard.GetCompliance | server/routes/dashboard.js:170-211 | /compliance answers 200 with the integer metrics as the handler is written: the user count is the first group of the GROUP BY statement, so the answer is `Dashboard.ComplianceAsWritten` |
| Dashboard.AsWrittenBounds | server/routes/dashboard.js:177-210 | as written the compliance is still a percentage, the overall score lies between 0 and 100, the two counts are those of the WHERE clauses, and a positive compliance means some user, active or not, has at least `requiredModules` completed required rows |
| Dashboard.ReadCompliantGroups | server/routes/dashboard.js:177-184 | the grouped statement returns one row per qualifying user |
| Dashboard.ReadCompliantUsers | server/routes/dashboard.js:177-184 | the corrected statement counts the active users who qualify |
| Dashboard.CompliantGroupRowsSpec | server/routes/dashboard.js:177-184 | each group row carries the count 1, and there is a row exactly when some user qualifies |
| Dashboard.AsWrittenCountsOne | server/routes/dashboard.js:177-184 | as written the count of compliant users is at most 1, and 1 exactly when anyone qualifies |
| Dashboard.ComplianceBounds | server/routes/dashboard.js:186-210 | with the corrected count the compliance is a percentage, the overall score lies between 0 and 100 and is below 100 with any critical incident open, and the two counts are those of the WHERE clauses |
| Dashboard.CompliantAmongActive | server/routes/dashboard.js:177-186 | the corrected count never exceeds the active-user count |
| Dashboard.CountNarrower | server/routes/dashboard.js:177-186 | an extra condition only narrows a count |
| Dashboard.ComplianceCounterexample | server/routes/dashboard.js:177-190 | with two active users who both completed the one required module, the handler as written reports 50 percent compliance and the corrected one 100 |
| DashboardFeed.MapRows | server/routes/dashboard.js:109-117 | `forEach(push)` makes one entry per row, in row order |
| DashboardFeed.ActivityOrder | server/routes/dashboard.js:156 | the newest-first comparator is a total preorder |
| DashboardFeed.PushAll | server/routes/dashboard.js:109-117 | the push loop appends one entry per row to the feed |
| DashboardFeed.CollectEntries | server/routes/dashboard.js:99-153 | the entries are the incident, photo and completion entries, in that order |
| DashboardFeed.GetActivity | server/routes/dashboard.js:95-164 | /activity answers 200 with the sorted, cut feed |
| DashboardFeed.ReadRecentIncidents | server/routes/dashboard.js:103-108 | the incident read is the five newest incidents |
| DashboardFeed.ReadRecentPhotos | server/routes/dashboard.js:120-125 | the photo read is the five newest photos |
| DashboardFeed.ReadRecentCompletions | server/routes/dashboard.js:137-144 | the completion read is the five newest completed rows whose module exists |
| DashboardFeed.IncidentEntries | server/routes/dashboard.js:103-117 | at most five incident entries, each describing an incident in the store |
| DashboardFeed.PhotoEntries | server/routes/dashboard.js:120-134 | at most five photo entries, each describing a photo in the store |
| DashboardFeed.CompletionEntries | server/routes/dashboard.js:137-153 | at most five completion entries, each describing a completed row of an existing module |
| DashboardFeed.NewestFirstSpec | server/routes/dashboard.js:156-158 | sort and slice keep only input entries, newest first, at most `limit` of them, no entry cut off newer than one kept, and all of them when the limit covers the input |
| DashboardFeed.EntriesSpec | server/routes/dashboard.js:99-153 | at most fifteen entries, each describing a row of the store |
| DashboardFeed.FeedSpec | server/routes/dashboard.js:95-158 | the feed holds at most fifteen entries, at most `limit` (ten by default), newest first, each from the store, the newest of the collected entries (no entry cut off is newer than one kept), and every entry when the limit covers them |
| Incidents.IncidentListSpec | server/routes/incidents.js:20-41 | the list holds only incidents meeting each truthy status, severity and type filter, newest first, at most `limit`, and with no limit or offset every incident meeting the filters |
| Incidents.List | server/routes/incidents.js:18-53 | 200 with the filtered, paged incident rows (limit 50 and offset 0 by default) and the total number of incidents |
| Incidents.IncidentTitle | server/routes/incidents.js:96 | a truthy title is kept; otherwise the title is "<type> Incident - <location>", with "Unknown Location" for a falsy location |
| Incidents.ReportEffect | server/routes/incidents.js:96-101 | a valid report by an existing user adds exactly one incident at the next id: status 'reported', the caller as reporter, unassigned, unresolved, with the given type, severity and location and the derived title |
| Incidents.Create | server/routes/incidents.js:82-114 | 400 when the type or severity is outside its set, writing nothing; otherwise the INSERT runs: 201 with the new id, or 500 |
| Incidents.IncidentUpdateEffect | server/routes/incidents.js:129-141 | the update succeeds exactly when the merged severity and status are in their sets and the assignee exists; each given field replaces the stored one, the others are kept, resolved_at is set on 'resolved' and never cleared, and updated_at is now |
| Incidents.Update | server/routes/incidents.js:120-151 | 404 for an unknown id, writing nothing; otherwise the COALESCE update runs: 200 or 500 |
| Incidents.StatusUpdateEffect | server/routes/incidents.js:168-174 | the status update succeeds exactly when the value passes the CHECK (NULL passes); it stores that value, sets resolved_at on 'resolved', updated_at always, and nothing else |
| Incidents.UpdateStatus | server/routes/incidents.js:157-184 | 404 for an unknown id, writing nothing; otherwise the status update runs: 200 or 500 |
| Incidents.DeleteIncidentEffect | server/routes/incidents.js:201 | deleting removes exactly that incident; its photos stay, with incident_id set to NULL, and nothing else changes |
| Incidents.Delete | server/routes/incidents.js:190-211 | 403 unless admin or manager, then 404 for an unknown id, neither writing; otherwise the DELETE runs: 200 or 500 |
| Photos.FileFilter | server/routes/photos.js:33-40 | a file is accepted exactly when its type is JPEG, PNG, WebP or GIF |
| Photos.MulterCheck | server/routes/photos.js:42-46 | an upload is rejected exactly when a file is present whose type is not accepted or whose size exceeds 10 MB |
| Photos.PhotoListSpec | server/routes/photos.js:54-70 | the list holds only photos of the given phase and incident, newest first, at most `limit`, and with no limit or offset every photo meeting the filters |
| Photos.List | server/routes/photos.js:52-79 | 200 with the filtered, paged photo rows |
| Photos.UploadEffect | server/routes/photos.js:139-152 | an upload succeeds exactly when the phase (default 'pre') is in its set and the incident exists or is absent, failing on the CHECK first and the foreign key second; it adds exactly one photo at the next id with the file's columns and the caller as uploader |
| Photos.Create | server/routes/photos.js:131-166 | 400 when there is no file or multer rejects it, writing nothing; otherwise the INSERT runs: 201 with the new id, or 500 |
| Photos.DeletePhotoEffect | server/routes/photos.js:192 | deleting removes exactly that photo and changes nothing else |
| Photos.Delete | server/routes/photos.js:172-202 | 404 for an unknown id, then 403 unless uploader, admin or manager, neither writing; otherwise the DELETE runs: 200 or 500 |
| Training.RequiredFilter | server/routes/training.js:28-31 | no `is_required` means no filter; "true" selects required modules, anything else optional ones |
| Training.ModuleListSpec | server/routes/training.js:19-36 | the list holds only active modules meeting the filters, required first then by title, at most `limit`, and with no limit every matching module |
| Training.GetModules | server/routes/training.js:17-44 | 200 with the module list (limit 50 by default) |
| Training.CreateModuleEffect | server/routes/training.js:78-81 | creating a module succeeds exactly when the difficulty (default 'beginner') is in its set; it adds exactly one active module at the next id, with duration 60 when none or 0 is given and the caller as author |
| Training.CreateModule | server/routes/training.js:70-94 | 403 unless admin or manager, 400 without a title and a category, neither writing; otherwise the INSERT runs: 201 with the new id, or 500 |
| Training.TrainingWriteEffect | server/routes/training.js:143-221 | every progress write changes only progress rows of the caller, and keeps each row's status 'completed' exactly when its progress is at least 100 |
| Training.ProgressInsertEffect | server/routes/training.js:143-146 | the progress INSERTs touch only the caller's rows and keep the coupling |
| Training.ProgressUpdateWriteEffect | server/routes/training.js:179-216 | the progress UPDATEs touch only the caller's rows and keep the coupling |
| Training.StartInsertsOne | server/routes/training.js:143-146 | starting a module without a row adds exactly one row at the next id, 'in_progress' at 0 and started now, and it is then the pair's only row |
| Training.NewRowIsPairsOnly | server/routes/training.js:130-146 | a pair without rows that gains one row has exactly that row |
| Training.StartModule | server/routes/training.js:122-156 | 404 for an unknown module, 200 without writing when the pair has a row; otherwise the INSERT runs: 200 or 500 |
| Training.ProgressUpdateEffect | server/routes/training.js:179-185 | the progress update stores the value in every row of the pair, 'completed' exactly from 100 and completed_at then set to now, and leaves every other row and column as it was |
| Training.UpdateProgress | server/routes/training.js:162-193 | 400 for a missing or out-of-range value, 404 when the pair has no row, neither writing; otherwise the UPDATE runs: 200 or 500 |
| Training.AcceptedProgressIsTrainingWrite | server/routes/training.js:166-185 | every accepted progress value makes an UPDATE of the kind that keeps the coupling |
| Training.CompleteUpsert | server/routes/training.js:203-222 | completing a module leaves exactly one row for the pair, 'completed' at 100, completed now, with the score when truthy |
| Training.CompleteModule | server/routes/training.js:199-232 | the UPDATE runs when the pair has a row and the INSERT otherwise: 200 or 500 |
| Training.CompleteIsTrainingWrite | server/routes/training.js:208-222 | both statements of completion are progress writes that keep the coupling |
| Documents.DocumentListSpec | server/routes/documents.js:44-57 | the list holds only active documents of the given category, newest first, at most `limit`, and with no limit every active document of that category (every active document without a category) |
| Documents.List | server/routes/documents.js:42-65 | 200 with the document list (limit 50 by default) |
| Documents.Get | server/routes/documents.js:71-85 | 200 with the row exactly when the id exists, whether or not the document is active, and 404 otherwise |
| Documents.UploadEffect | server/routes/documents.js:137-150 | a validated upload by an existing user always succeeds: one active document at the next id, owned by the caller, version '1.0' unless given, nothing else changed |
| Documents.Create | server/routes/documents.js:117-163 | 403 unless admin or manager; 400 without a file, a title and a category, or for a category outside the set, none writing; otherwise the INSERT runs: 201 with the new id, or 500 |
| Documents.DocumentUpdateEffect | server/routes/documents.js:178-186 | the update succeeds exactly when the merged category is in the CHECK set; each given field replaces the stored one, the file columns, active flag, uploader and creation time are kept, updated_at is now |
| Documents.Update | server/routes/documents.js:169-194 | 403 unless admin or manager, 404 for an unknown id, neither writing; otherwise the COALESCE update runs: 200 or 500 |
| Documents.DeleteDocumentEffect | server/routes/documents.js:214 | deleting removes the row outright, not by clearing is_active, and changes nothing else |
| Documents.Delete | server/routes/documents.js:200-224 | 403 for a non-admin, 404 for an unknown id, neither writing; otherwise the DELETE runs: 200 or 500 |
| Seed.DemoClosed | server/database/seed.js:44-297 | every role, difficulty, type, severity, status and category in the demo lists is in its column's CHECK set |
| Seed.DemoRolesClosed | server/database/seed.js:44-77 | every demo user's role is one of the four roles |
| Seed.DemoDifficultiesClosed | server/database/seed.js:106-171 | every demo module's difficulty is in its set |
| Seed.DemoIncidentValuesClosed | server/database/seed.js:196-237 | every demo incident's type, severity and status are in their sets |
| Seed.DemoCategoriesClosed | server/database/seed.js:266-297 | every demo document's category is in its set |
| Seed.Reporter | server/database/seed.js:240-241 | the reporter is an employee, the one with the smallest id; with no id 0 in use, there is none exactly when no user is an employee |
| Seed.FirstMatch | server/database/seed.js:240 | a scan in id order finds nothing exactly when no row matches, and otherwise first the matching row with the smallest id |
| Seed.LookupUser | server/database/seed.js:81 | the e-mail lookup succeeds and finds a row exactly when the record is present |
| Seed.LookupModule | server/database/seed.js:175 | the title lookup finds a module exactly when the record is present |
| Seed.LookupIncident | server/database/seed.js:245 | the title lookup finds an incident exactly when the record is present |
| Seed.LookupDocument | server/database/seed.js:301 | the title lookup finds a document exactly when the record is present |
| Seed.LookupReporter | server/database/seed.js:240 | the reporter lookup yields the first employee in id order, or nothing when there is none |
| Seed.UserStep | server/database/seed.js:91-94 | inserting an absent demo user with a role in the set succeeds and adds exactly the made row at the next id |
| Seed.ModuleStep | server/database/seed.js:181-184 | inserting a demo module with a difficulty in the set succeeds and adds exactly the made row at the next id |
| Seed.IncidentStep | server/database/seed.js:251-254 | inserting a demo incident whose values pass the CHECKs and whose reporter exists or is null succeeds and adds exactly the made row at the next id |
| Seed.DocumentStep | server/database/seed.js:307-310 | inserting a demo document with a category in the set succeeds and adds exactly the made row at the next id |
| Seed.FindUser | server/database/seed.js:81-85 | the lookup reports a row exactly when the record's e-mail is present |
| Seed.InsertDemoUser | server/database/seed.js:88-94 | the insert puts the made user at the next id and changes nothing else |
| Seed.AddDemoUser | server/database/seed.js:80-96 | one iteration skips a present user and inserts an absent one at the next id |
| Seed.SeedUsers | server/database/seed.js:79-97 | the loop leaves the tables as the skip-or-insert walk over the records does |
| Seed.FindModule | server/database/seed.js:175-179 | the lookup reports a row exactly when the record's title is present |
| Seed.InsertDemoModule | server/database/seed.js:181-184 | the insert puts the made module at the next id and changes nothing else |
| Seed.AddDemoModule | server/database/seed.js:174-186 | one iteration skips a present module and inserts an absent one at the next id |
| Seed.SeedTrainingModules | server/database/seed.js:173-187 | the loop leaves the tables as the skip-or-insert walk over the records does |
| Seed.FindIncident | server/database/seed.js:245-249 | the lookup reports a row exactly when the record's title is present |
| Seed.InsertDemoIncident | server/database/seed.js:251-254 | the insert puts the made incident at the next id and changes nothing else |
| Seed.AddDemoIncident | server/database/seed.js:244-256 | one iteration skips a present incident and inserts an absent one at the next id |
| Seed.FindReporter | server/database/seed.js:240-241 | the reporter read is the first employee's id, or null |
| Seed.SeedIncidentRecords | server/database/seed.js:243-257 | the loop leaves the tables as the skip-or-insert walk over the records does, every row with the same reporter |
| Seed.SeedIncidents | server/database/seed.js:193-258 | the reporter is read once before the loop, then the loop runs |
| Seed.FindDocument | server/database/seed.js:301-305 | the lookup reports a row exactly when the record's title is present |
| Seed.InsertDemoDocument | server/database/seed.js:307-310 | the insert puts the made document at the next id and changes nothing else |
| Seed.AddDemoDocument | server/database/seed.js:300-312 | one iteration skips a present document and inserts an absent one at the next id |
| Seed.SeedDocuments | server/database/seed.js:299-313 | the loop leaves the tables as the skip-or-insert walk over the records does |
| Seed.SeedTables | server/database/seed.js:20-30 | the four loops run in order: users, modules, incidents, documents |
| Seed.SeedDatabase | server/database/seed.js:14-36 | after `initDatabase` the tables are those already open, or those created over the loaded file, and the four loops then leave them seeded |
| Seed.SeedDemoDatabase | server/database/seed.js:14-36 | the script's run over its own demo lists, which all pass the CHECKs |
| SeedLoop.FillOnceCases | server/database/seed.js:80-94 | one iteration leaves a table with the record present unchanged and otherwise adds the made row at counter + 1 |
| SeedLoop.FillKeeps | server/database/seed.js:79-97 | the loop only adds rows: existing rows keep their ids and values, new ids lie above the old counter, and the counter still bounds every id |
| SeedLoop.FillCovers | server/database/seed.js:79-97 | after the loop every record is present |
| SeedLoop.FillAddsOnlyItems | server/database/seed.js:79-97 | every row the loop adds is the row made from one of the records |
| SeedLoop.FillKeepsAny | server/database/seed.js:79-97 | a row whose id cannot be handed out again keeps its value through the loop |
| SeedLoop.FillIdle | server/database/seed.js:81-85 | when every record is present the loop changes nothing |
| SeedLoop.FillTwice | server/database/seed.js:79-97 | running the loop a second time over the same records inserts nothing |
| SeedFacts.UsersMatch | server/database/seed.js:81-94 | the user made from a record has the record's e-mail, the key it is looked up by |
| SeedFacts.ModulesMatch | server/database/seed.js:175-184 | the module made from a record has its title |
| SeedFacts.IncidentsMatch | server/database/seed.js:245-254 | the incident made from a record has its title |
| SeedFacts.DocumentsMatch | server/database/seed.js:301-310 | the document made from a record has its title |
| SeedFacts.SeededCovers | server/database/seed.js:14-36 | after a run every record of every list is present |
| SeedFacts.SeededKeeps | server/database/seed.js:14-36 | a run only adds rows, under fresh ids above the old counters, keeps the counter invariant, and leaves photos, progress, audit log and schema alone |
| SeedFacts.SeededRowsFromRecords | server/database/seed.js:14-36 | every row a run adds is the row made from one of the records, incidents reported by the first employee once users are seeded |
| SeedFacts.SeededIdempotent | server/database/seed.js:14-36 | a second run, with any hashes, dates and clock, changes nothing |

## Left out

- Floating point: the `/compliance` handler returns `avgResolutionDays` (server/routes/dashboard.js:192-196 and 208), an AVG over JULIANDAY differences rounded to tenths. The modelled answer, `Dashboard.Compliance`, leaves that field out. `Math.round` of a percentage is computed exactly on integers (`Dashboard.Percent`), and the overall score is a Dafny `real`.
- Dashboard.GetCompliance: models the handler as written, whose user count is at most 1 (see "## Findings"). The count the handler evidently means is `Dashboard.ComplianceOf`, with its bounds in `Dashboard.ComplianceBounds`; no handler in the model answers it.
- `GET /api/training/stats` (server/routes/training.js:238-263) is not modelled. Its completion rate divides by `totalUsers * totalModules`, which is zero when there are no active modules, and the result is a float.
- Routes without a write or an invariant are not modelled: `GET /api/training/progress` (a join ordered with NULLS LAST), `GET /api/incidents/:id` with its photos, `GET /api/training/modules/:id`, `GET /api/photos/:id`, `GET /api/users/:id`, and `/logout`, `/me` and `/refresh` in server/routes/auth.js. `GET /api/documents/:id` is modelled (`Documents.Get`).
- File handling: multer's disk storage, the uuid file names, the `/image` and `/download` streams, and the unlinking of files on delete or failed validation. An upload is the record multer hands the handler. The photo type filter and the 10 MB photo limit are modelled (`Photos.MulterCheck`). The 50 MB document limit is not: an oversized document never reaches the handler, which the model does not distinguish from any other multer error.
- bcrypt and JWT are parameters: the stored hash, the outcome of the password comparison, and the outcome of token verification (valid with a user id, expired, or invalid). Tokens are not produced.
- express-validator's `isEmail` and `normalizeEmail` are reduced to a given verdict (`emailOk`) and the address as given. Trimming removes space, tab, line feed and carriage return only; JavaScript's `trim` also removes the other Unicode white space.
- Incidents.IncidentUpdateEffect, Incidents.Update, Users.UserUpdateEffect, Users.Update, Documents.DocumentUpdateEffect, Documents.Update, Incidents.ReportEffect, Incidents.Create, Photos.UploadEffect, Photos.Create, Documents.UploadEffect, Documents.Create, Incidents.StatusUpdateEffect, Incidents.UpdateStatus, Training.CreateModuleEffect, Training.CreateModule: the model assumes that sql.js binds an absent body field (`undefined`) as NULL, like an explicit `null`. These handlers bind destructured fields directly: server/routes/incidents.js:94-101, 127-141 and 174, server/routes/users.js:124-135, server/routes/documents.js:143 and 176-186, server/routes/photos.js:148-149, server/routes/training.js:81. sql.js is not part of this model. If its binding rejects `undefined`, each of these would answer 500 where the model stores NULL or keeps the column:
  - a partial update of an incident, a user or a document, instead of keeping the column;
  - an incident report without its optional fields;
  - a photo upload without a description or a location;
  - a document upload without a description;
  - a status PATCH without a status, which the model stores as a NULL status;
  - a module created without a description or a content URL.
- Request values: an absent field and an explicit JSON `null` are both `None`, bound as NULL as the line above assumes. The one place the handler tells them apart, the `progress` check of server/routes/training.js:166, has its own three-way field (`Training.ProgressField`). Non-numeric `limit` and `offset` strings (`parseInt` giving NaN) are not modelled. Numbers are integers.
- The database file is an abstract copy of the tables. `db.export()`, the binary image and the `fs` calls are not modelled, and neither is a load error's message.
- Store.Database.Run, Store.Database.SaveDatabase, Store.Database.InitDatabase: the model assumes that `db.export()` leaves the sql.js connection as it was. Under that assumption, the `PRAGMA foreign_keys = ON` of server/database/init.js:49 stays in force after the `saveDatabase()` of line 55. The `last_insert_rowid()` and `changes()` read at lines 281-282, after the save at line 279, are those of the statement just run. sql.js is not part of this model. If its `export()` reopens the connection, the pragma reset and the counters read back as 0. Then every create would report id 0 and no foreign key would be enforced. The model does not capture that.
- A file in the `Unreadable` state stands for a file whose `readFileSync`, or whose `new SQL.Database(buffer)`, throws inside the try/catch of server/database/init.js:34-46, which falls back to an empty store. A corrupt image that sql.js accepts at construction and rejects only at the first statement would make `createTables()` (line 52, outside the try/catch) throw, and `initDatabase` would reject. That case is not modelled.
- `datetime('now')` is the parameter `now`, one value per call. The double-quoted `datetime("now")` at server/routes/users.js:160 and server/routes/auth.js:125 is read as the string literal SQLite takes it for, i.e. the same clock.
- The activity feed's `new Date(...)` parsing is replaced by comparing the stored timestamps, with a missing timestamp ordered last. The sort is on a sequence value, not in place on the JavaScript array.
- Seed.SeedDemoDatabase: the bcrypt hashes and the random incident dates are parameters (`hashes`, `dates`), and one `now` serves the whole run. Console output and the process exit code are not modelled.
- Seed.SeedDatabase: stated for any record lists whose values lie in the CHECK sets (`Seed.Closed`); the script's own lists are `Seed.Demo`.
- Queries.Eval, Users.List, Queries.ListingSpec: rows with equal sort keys (for example equal `created_at` under `ORDER BY created_at DESC`) come out in rowid order, because the model's sort is stable over a rowid scan. SQLite promises no order among equal keys, and `GET /api/users` (server/routes/users.js:20-24) has no LIMIT, so its rows go through SQLite's sorter. The tie order is the model's choice.
- Queries.ListingSpec: states that every matching row is returned only when there is no LIMIT and no OFFSET. With a window it states the bound, the order and that each row matches, and `Ordering.Window` states which run is taken.
- Incidents.IncidentListSpec, Photos.PhotoListSpec, Documents.DocumentListSpec, Training.ModuleListSpec: every row that meets the filters is stated to be returned only when there is no LIMIT (and, for incidents and photos, no OFFSET), as in `Queries.ListingSpec`. With a window they state the bound, the order and that each row meets the filters.
- Logging (winston) and the Express plumbing in server/index.js are not modelled.
- Concurrency is not modelled: Node runs the handlers one at a time and every database call is synchronous.

## Findings

| source | as written | input that shows it | evidently intended | confidence | as-written member | corrected member |
|---|---|---|---|---|---|---|
| server/routes/dashboard.js:177-184 | `COUNT(DISTINCT tp.user_id)` is computed inside `GROUP BY tp.user_id`, so every group counts 1, and `db.get` returns only the first group: the number of users with all required modules is 1 whenever anyone qualifies | two active users who both completed the one required, active module (`Dashboard.TwoCompliantUsers`): the handler reports 50 percent training compliance | the number of active users with at least `requiredModules` completed rows of required modules (`Dashboard.ComplianceOf`; a completed row of an inactive required module also counts, as in the WHERE clause as written), here 2, giving 100 percent | not executed | Dashboard.AsWrittenCountsOne | Dashboard.ComplianceBounds |
