/** What one run of server/database/seed.js does to the tables, for any record lists:
    every record ends up present, nothing that was there is lost or changed, the tables
    the seeder does not write stay as they were, every new row is the row made from a
    record, and running the seeder again changes nothing. */
module SeedFacts {
  import opened Wrappers
  import opened Schema
  import opened Engine
  import opened Seed
  import opened SeedLoop

  // ---------------------------------------------------------------------------------
  // Each row the loops make carries the key it is looked up by
  // ---------------------------------------------------------------------------------

  lemma UsersMatch(users: seq<SeedUser>, hashes: nat -> string, now: Time)
    ensures MakesMatching(users, UserKey(), UserMaker(hashes, now))
  {
    forall j | 0 <= j < |users|
      ensures UserKey()(users[j])(UserMaker(hashes, now)(users[j], j))
    {
      var x := users[j];
      var u := NewUser(x.email, hashes(j), x.firstName, x.lastName, Some(x.role), Some(x.department), now);
      assert UserMaker(hashes, now)(x, j) == u;
      assert u.email == x.email;
    }
  }

  lemma ModulesMatch(modules: seq<SeedModule>, now: Time)
    ensures MakesMatching(modules, ModuleKey(), ModuleMaker(now))
  {
  }

  lemma IncidentsMatch(incidents: seq<SeedIncident>, reporter: Option<int>, dates: nat -> string, now: Time)
    ensures MakesMatching(incidents, IncidentKey(), IncidentMaker(reporter, dates, now))
  {
    forall j | 0 <= j < |incidents|
      ensures IncidentKey()(incidents[j])(IncidentMaker(reporter, dates, now)(incidents[j], j))
    {
      var x := incidents[j];
      var i := NewIncident(x.title, Some(x.description), x.kind, x.severity, Some(x.status),
                           Some(x.location), None, Some(dates(j)), reporter, now);
      assert IncidentMaker(reporter, dates, now)(x, j) == i;
      assert i.title == x.title;
    }
  }

  lemma DocumentsMatch(documents: seq<SeedDocument>, now: Time)
    ensures MakesMatching(documents, DocumentKey(), DocumentMaker(now))
  {
  }

  lemma KeyedBelow<T>(m: map<int, T>, counter: nat)
    requires Keyed(m, counter)
    ensures Below(m, counter)
  {
  }

  // ---------------------------------------------------------------------------------
  // The tables as each loop leaves them
  // ---------------------------------------------------------------------------------

  /** After the users loop and the modules loop: the tables the incidents loop starts
      from, whose first employee is the reporter of every incident it inserts. */
  function BeforeIncidents(t: Tables, d: Records, hashes: nat -> string, now: Time): Tables {
    ModulesSeeded(UsersSeeded(t, d.users, hashes, now), d.modules, now)
  }

  /** Each table after a run is the one its own loop leaves. */
  lemma SeededTables(t: Tables, d: Records, hashes: nat -> string, dates: nat -> string, now: Time)
    ensures var s := Seeded(t, d, hashes, dates, now);
      var reporter := Reporter(BeforeIncidents(t, d, hashes, now));
      && s.users == Fill(t.users, t.userSeq, d.users, UserKey(), UserMaker(hashes, now), 0).0
      && s.modules == Fill(t.modules, t.moduleSeq, d.modules, ModuleKey(), ModuleMaker(now), 0).0
      && s.incidents == Fill(t.incidents, t.incidentSeq, d.incidents, IncidentKey(), IncidentMaker(reporter, dates, now), 0).0
      && s.documents == Fill(t.documents, t.documentSeq, d.documents, DocumentKey(), DocumentMaker(now), 0).0
  {
  }

  // ---------------------------------------------------------------------------------
  // One run
  // ---------------------------------------------------------------------------------

  /** Every record of every list is present after a run: its e-mail (users) or title
      (the others) is the key of some row. */
  lemma SeededCovers(t: Tables, d: Records, hashes: nat -> string, dates: nat -> string, now: Time)
    requires CountersOk(t)
    ensures var s := Seeded(t, d, hashes, dates, now);
      && (forall j :: 0 <= j < |d.users| ==> Present(s.users, UserKey()(d.users[j])))
      && (forall j :: 0 <= j < |d.modules| ==> Present(s.modules, ModuleKey()(d.modules[j])))
      && (forall j :: 0 <= j < |d.incidents| ==> Present(s.incidents, IncidentKey()(d.incidents[j])))
      && (forall j :: 0 <= j < |d.documents| ==> Present(s.documents, DocumentKey()(d.documents[j])))
  {
    var t2 := BeforeIncidents(t, d, hashes, now);
    SeededTables(t, d, hashes, dates, now);
    KeyedBelow(t.users, t.userSeq);
    KeyedBelow(t.modules, t.moduleSeq);
    KeyedBelow(t.incidents, t.incidentSeq);
    KeyedBelow(t.documents, t.documentSeq);
    UsersMatch(d.users, hashes, now);
    ModulesMatch(d.modules, now);
    IncidentsMatch(d.incidents, Reporter(t2), dates, now);
    DocumentsMatch(d.documents, now);
    FillCovers(t.users, t.userSeq, d.users, UserKey(), UserMaker(hashes, now), 0);
    FillCovers(t.modules, t.moduleSeq, d.modules, ModuleKey(), ModuleMaker(now), 0);
    FillCovers(t.incidents, t.incidentSeq, d.incidents, IncidentKey(), IncidentMaker(Reporter(t2), dates, now), 0);
    FillCovers(t.documents, t.documentSeq, d.documents, DocumentKey(), DocumentMaker(now), 0);
  }

  /** A run only adds rows, each under a fresh id above its table's old counter, keeps the
      AUTOINCREMENT invariant, and leaves the photos, the progress rows, the audit log
      and the schema as they were. */
  lemma SeededKeeps(t: Tables, d: Records, hashes: nat -> string, dates: nat -> string, now: Time)
    requires CountersOk(t)
    ensures var s := Seeded(t, d, hashes, dates, now);
      && CountersOk(s)
      && (forall k :: k in t.users ==> k in s.users && s.users[k] == t.users[k])
      && (forall k :: k in t.modules ==> k in s.modules && s.modules[k] == t.modules[k])
      && (forall k :: k in t.incidents ==> k in s.incidents && s.incidents[k] == t.incidents[k])
      && (forall k :: k in t.documents ==> k in s.documents && s.documents[k] == t.documents[k])
      && (forall k :: k in s.users && k !in t.users ==> t.userSeq < k)
      && (forall k :: k in s.modules && k !in t.modules ==> t.moduleSeq < k)
      && (forall k :: k in s.incidents && k !in t.incidents ==> t.incidentSeq < k)
      && (forall k :: k in s.documents && k !in t.documents ==> t.documentSeq < k)
      && s.schema == t.schema && s.photos == t.photos && s.photoSeq == t.photoSeq
      && s.progress == t.progress && s.progressSeq == t.progressSeq
      && s.auditLogs == t.auditLogs && s.auditSeq == t.auditSeq
  {
    var t2 := BeforeIncidents(t, d, hashes, now);
    KeyedBelow(t.users, t.userSeq);
    KeyedBelow(t.modules, t.moduleSeq);
    KeyedBelow(t.incidents, t.incidentSeq);
    KeyedBelow(t.documents, t.documentSeq);
    FillKeeps(t.users, t.userSeq, d.users, UserKey(), UserMaker(hashes, now), 0);
    FillKeeps(t.modules, t.moduleSeq, d.modules, ModuleKey(), ModuleMaker(now), 0);
    FillKeeps(t.incidents, t.incidentSeq, d.incidents, IncidentKey(), IncidentMaker(Reporter(t2), dates, now), 0);
    FillKeeps(t.documents, t.documentSeq, d.documents, DocumentKey(), DocumentMaker(now), 0);
  }

  /** Every row of `r` that is not in `m` is the row `make` made from one of the records. */
  predicate AddedFrom<X, T(==)>(r: map<int, T>, m: map<int, T>, items: seq<X>, make: (X, nat) -> T) {
    forall k :: k in r && k !in m ==> exists j :: 0 <= j < |items| && r[k] == make(items[j], j)
  }

  /** Every row a run adds is the row made from one of the records: a user with that
      record's address, names, role and department and the j-th hash, a module or a
      document with the record's values, an incident with the record's values, the j-th
      date and, as reporter, the first employee once users and modules are seeded. */
  lemma SeededRowsFromRecords(t: Tables, d: Records, hashes: nat -> string, dates: nat -> string, now: Time)
    ensures var s := Seeded(t, d, hashes, dates, now);
      var reporter := Reporter(BeforeIncidents(t, d, hashes, now));
      && AddedFrom(s.users, t.users, d.users, UserMaker(hashes, now))
      && AddedFrom(s.modules, t.modules, d.modules, ModuleMaker(now))
      && AddedFrom(s.incidents, t.incidents, d.incidents, IncidentMaker(reporter, dates, now))
      && AddedFrom(s.documents, t.documents, d.documents, DocumentMaker(now))
  {
    var t2 := BeforeIncidents(t, d, hashes, now);
    SeededTables(t, d, hashes, dates, now);
    FillAddsOnlyItems(t.users, t.userSeq, d.users, UserKey(), UserMaker(hashes, now), 0);
    FillAddsOnlyItems(t.modules, t.moduleSeq, d.modules, ModuleKey(), ModuleMaker(now), 0);
    FillAddsOnlyItems(t.incidents, t.incidentSeq, d.incidents, IncidentKey(), IncidentMaker(Reporter(t2), dates, now), 0);
    FillAddsOnlyItems(t.documents, t.documentSeq, d.documents, DocumentKey(), DocumentMaker(now), 0);
  }

  // ---------------------------------------------------------------------------------
  // A second run
  // ---------------------------------------------------------------------------------

  /** Running the seeder again, with any hashes, dates and clock, inserts nothing: every
      record is found by its key and skipped. */
  lemma SeededIdempotent(t: Tables, d: Records, hashes: nat -> string, dates: nat -> string, now: Time,
                         hashes': nat -> string, dates': nat -> string, now': Time)
    requires CountersOk(t)
    ensures var s := Seeded(t, d, hashes, dates, now);
      Seeded(s, d, hashes', dates', now') == s
  {
    var s := Seeded(t, d, hashes, dates, now);
    SeededCovers(t, d, hashes, dates, now);
    var s2 := BeforeIncidents(s, d, hashes', now');
    FillIdle(s.users, s.userSeq, d.users, UserKey(), UserMaker(hashes', now'), 0);
    FillIdle(s.modules, s.moduleSeq, d.modules, ModuleKey(), ModuleMaker(now'), 0);
    assert UsersSeeded(s, d.users, hashes', now') == s;
    assert s2 == s;
    FillIdle(s.incidents, s.incidentSeq, d.incidents, IncidentKey(), IncidentMaker(Reporter(s2), dates', now'), 0);
    FillIdle(s.documents, s.documentSeq, d.documents, DocumentKey(), DocumentMaker(now'), 0);
  }
}
