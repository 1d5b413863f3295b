/** The persistence facade of server/database/init.js: one module-level database handle
    per process, opened and given its schema by `initDatabase`, written back to the
    database file as a whole after every successful `run`, and read through `query`,
    `get` and `all`. */
module Store {
  import opened Wrappers
  import opened Schema
  import opened Engine
  import opened Queries
  import Integrity

  /** What the database file holds when a process starts. `Unreadable` is a file that
      exists but whose read, or the opening of its buffer, throws inside the load's
      try/catch. */
  datatype FileState = Missing | Image(contents: Tables) | Unreadable

  /** What `run` reports: `last_insert_rowid()` and `changes()` after the statement. */
  datatype RunInfo = RunInfo(lastInsertRowid: int, changes: nat)

  /** The store a process starts from: the file's contents when it can be read, an
      empty in-memory store otherwise (the load error is only logged). */
  function Loaded(f: FileState): Tables {
    match f
    case Image(t) => t
    case Missing => Empty
    case Unreadable => Empty
  }

  /** Starting from an image this facade wrote, a new process sees the same rows. */
  lemma LoadedRoundTrip(t: Tables)
    requires SchemaObjects <= t.schema
    ensures CreateTables(Loaded(Image(t))) == t
  {
  }

  /** A load failure falls back to a fresh store that satisfies every constraint. */
  lemma LoadFallback(f: FileState)
    requires !f.Image?
    ensures Loaded(f) == Empty && Consistent(CreateTables(Loaded(f)))
  {
    CreateTablesConsistentEmpty();
  }

  lemma CreateTablesConsistentEmpty()
    ensures Consistent(CreateTables(Empty))
  {
    EmptyConsistent();
    CreateTablesConsistent(Empty);
  }

  /** The module state of init.js. `open` is the `db` handle being set, `foreignKeys` the
      connection's `PRAGMA foreign_keys`, `tables` what the connection holds,
      `lastInsertRowid`/`lastChanges` what `last_insert_rowid()`/`changes()` return, and
      `file` the database file. `writable` says whether writing the file succeeds. */
  class Database {
    var open: bool
    var initialized: bool
    var foreignKeys: bool
    var tables: Tables
    var lastInsertRowid: int
    var lastChanges: nat
    var file: FileState
    const writable: bool

    /** Once initialised, the handle is open with foreign keys on and the whole schema
        created, and when the file can be written it holds a copy of the tables. */
    predicate Valid()
      reads this
    {
      && open == initialized
      && (initialized ==> foreignKeys && SchemaObjects <= tables.schema)
      && (initialized && writable ==> file == Image(tables))
    }

    /** A process starting next to `file`: nothing is open yet. */
    constructor (file: FileState, writable: bool)
      ensures Valid() && !open && !initialized
      ensures this.file == file && this.writable == writable
    {
      open := false;
      initialized := false;
      foreignKeys := false;
      tables := Empty;
      lastInsertRowid := 0;
      lastChanges := 0;
      this.file := file;
      this.writable := writable;
    }

    /** `saveDatabase`: with no handle it does nothing; a failed write is only logged. */
    method SaveDatabase()
      modifies this`file
      ensures file == (if open && writable then Image(tables) else old(file))
    {
      if !open {
        return;
      }
      if writable {
        file := Image(tables);
      }
    }

    /** `initDatabase`. A second call on an initialised handle returns at once. A first
        call opens the file (an empty store if it is missing or unreadable), switches
        foreign keys on, creates the missing schema objects, saves, and marks the handle
        initialised. */
    method InitDatabase()
      requires Valid()
      modifies this
      ensures Valid() && initialized
      ensures old(initialized) ==>
        && tables == old(tables) && file == old(file)
        && lastInsertRowid == old(lastInsertRowid) && lastChanges == old(lastChanges)
      ensures !old(initialized) ==>
        && tables == CreateTables(Loaded(old(file)))
        && lastInsertRowid == 0 && lastChanges == 0
        && file == (if writable then Image(tables) else old(file))
      ensures !old(initialized) && old(file).Image? && SchemaObjects <= old(file).contents.schema ==>
        tables == old(file).contents
      ensures !old(initialized) && (old(file).Image? ==> Consistent(old(file).contents)) ==>
        Consistent(tables)
    {
      if initialized && open {
        return;
      }
      tables := Loaded(file);
      if !file.Image? {
        LoadFallback(file);
      }
      open := true;
      lastInsertRowid := 0;
      lastChanges := 0;
      foreignKeys := true;
      if Consistent(tables) {
        CreateTablesConsistent(tables);
      }
      tables := CreateTables(tables);
      SaveDatabase();
      initialized := true;
    }

    /** `run`: executes one statement. A failing statement throws and changes nothing.
        A successful one changes the tables, saves them, and reports the id it inserted
        (or the previous `last_insert_rowid()` when it inserted nothing) and its row count. */
    method Run(s: Statement, now: Time) returns (r: Result<RunInfo, SqlError>)
      requires Valid()
      modifies this
      ensures Valid()
      ensures open == old(open) && initialized == old(initialized) && foreignKeys == old(foreignKeys)
      ensures !old(open) || Exec(old(tables), s, now).Err? ==>
        && r == (if old(open) then Err(Exec(old(tables), s, now).error) else Err(NotInitialized))
        && tables == old(tables) && file == old(file)
        && lastInsertRowid == old(lastInsertRowid) && lastChanges == old(lastChanges)
      ensures old(open) && Exec(old(tables), s, now).Ok? ==>
        var e := Exec(old(tables), s, now).value;
        && tables == e.tables
        && lastInsertRowid == (if e.inserted.Some? then e.inserted.value else old(lastInsertRowid))
        && lastChanges == e.changes
        && r == Ok(RunInfo(lastInsertRowid, e.changes))
        && file == (if writable then Image(tables) else old(file))
    {
      if !open {
        return Err(NotInitialized);
      }
      var result := Exec(tables, s, now);
      if result.Err? {
        return Err(result.error);
      }
      Integrity.ExecKeepsSchema(tables, s, now);
      tables := result.value.tables;
      SaveDatabase();
      if result.value.inserted.Some? {
        lastInsertRowid := result.value.inserted.value;
      }
      lastChanges := result.value.changes;
      r := Ok(RunInfo(lastInsertRowid, lastChanges));
    }

    /** `query`: steps the prepared statement, collecting every row it yields. Without a
        handle it throws. */
    method Query(q: Select) returns (r: Result<seq<Row>, SqlError>)
      ensures !open ==> r == Err(NotInitialized)
      ensures open ==> r == Eval(tables, q)
    {
      if !open {
        return Err(NotInitialized);
      }
      var prepared := Eval(tables, q);
      if prepared.Err? {
        return Err(prepared.error);
      }
      var results := Collect(prepared.value);
      return Ok(results);
    }

    /** `get`: the first row, or null when the query yields none. */
    method Get(q: Select) returns (r: Result<Option<Row>, SqlError>)
      ensures !open ==> r == Err(NotInitialized)
      ensures open ==> (r.Ok? <==> Eval(tables, q).Ok?)
      ensures open && r.Ok? ==>
        && (r.value.None? <==> Eval(tables, q).value == [])
        && (r.value.Some? ==> r.value.value == Eval(tables, q).value[0])
    {
      var rows := Query(q);
      if rows.Err? {
        return Err(rows.error);
      }
      r := Ok(if rows.value == [] then None else Some(rows.value[0]));
    }

    /** `all`: every row. */
    method All(q: Select) returns (r: Result<seq<Row>, SqlError>)
      ensures !open ==> r == Err(NotInitialized)
      ensures open ==> r == Eval(tables, q)
    {
      r := Query(q);
    }
  }

  /** The `while (stmt.step()) results.push(stmt.getAsObject())` loop of `query`: every
      row the statement yields, in order. */
  method Collect(rows: seq<Row>) returns (results: seq<Row>)
    ensures results == rows
  {
    results := [];
    var i := 0;
    while i < |rows|
      invariant 0 <= i <= |rows|
      invariant results == rows[..i]
    {
      results := results + [rows[i]];
      i := i + 1;
    }
    assert rows[..i] == rows;
  }

  /** The tables after running `s` on `t`: a failing statement leaves them as they were. */
  function After(t: Tables, s: Statement, now: Time): (r: Tables)
    ensures Exec(t, s, now).Err? ==> r == t
  {
    if Exec(t, s, now).Ok? then Exec(t, s, now).value.tables else t
  }

  /** Every statement keeps the store's constraints, whether it succeeds or fails. */
  lemma AfterConsistent(t: Tables, s: Statement, now: Time)
    requires Consistent(t)
    ensures Consistent(After(t, s, now))
  {
    if Exec(t, s, now).Ok? {
      Integrity.ExecConsistent(t, s, now);
    }
  }
}
