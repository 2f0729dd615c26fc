/**
 * The migration runner: a ledger of applied files, each new file tried whole in a transaction, and
 * statement by statement under savepoints when something in it exists already.
 */
module MigrationRunner {
  import opened Wrappers
  import SqlSplitter
  import opened SchemaSnapshots

  /** What the database makes of a text of SQL; an error leaves nothing of it. */
  datatype ExecResult<S> = Done(schema: S) | Duplicate | Failed

  /** The surroundings of a run: the SQL engine, the catalog queries, the manifest, and the migration files. */
  datatype Env<!S> = Env(
    exec: (S, string) -> ExecResult<S>,
    capture: S -> Snapshot,
    manifest: map<string, Snapshot>,
    files: map<string, string>,
    normalize: Normalizer)
  {
    /** The manifest entry of the file, if it has one, is satisfied. */
    predicate Verified(schema: S, filename: string) {
      filename in manifest ==> Satisfies(normalize, capture(schema), manifest[filename])
    }
  }

  datatype Db<S> = Db(schema: S, ledger: set<string>)

  datatype Outcome = Skipped | Applied | Completed | Bootstrapped
  datatype MigrationError = FileMissing | ExecutionFailed | Unsatisfied | CouldNotComplete | AlreadyRecorded
  datatype FileResult = FileResult(filename: string, outcome: Outcome)

  // ----- statement by statement

  /** The savepoint pass: the schema after it and whether anything was new, or nothing at another error. */
  function Pass<S>(env: Env<S>, schema: S, statements: seq<string>): Option<(S, bool)>
    decreases |statements|
  {
    if statements == [] then Some((schema, false))
    else
      match env.exec(schema, statements[0])
      case Failed => None
      case Duplicate => Pass(env, schema, statements[1..])
      case Done(next) =>
        match Pass(env, next, statements[1..])
        case None => None
        case Some(rest) => Some((rest.0, true))
  }

  function VerifyOrComplete<S>(env: Env<S>, db: Db<S>, filename: string, sql: string): (Db<S>, Option<Outcome>) {
    match Pass(env, db.schema, SqlSplitter.Split(sql))
    case None => (db, None)
    case Some(pass) =>
      if !env.Verified(pass.0, filename) then (db, None)
      else (Db(pass.0, db.ledger + {filename}), Some(if pass.1 then Completed else Bootstrapped))
  }

  // ----- one file, and all of them

  function Migrate<S>(env: Env<S>, applied: set<string>, db: Db<S>, filename: string): (Db<S>, Result<Outcome, MigrationError>) {
    if filename in applied then (db, Ok(Skipped))
    else if filename !in env.files then (db, Err(FileMissing))
    else
      match env.exec(db.schema, env.files[filename])
      case Failed => (db, Err(ExecutionFailed))
      case Duplicate =>
        (match VerifyOrComplete(env, db, filename, env.files[filename])
         case (_, None) => (db, Err(CouldNotComplete))
         case (after, Some(outcome)) => (after, Ok(outcome)))
      case Done(schema) =>
        if !env.Verified(schema, filename) then (db, Err(Unsatisfied))
        else if filename in db.ledger then (db, Err(AlreadyRecorded))
        else (Db(schema, db.ledger + {filename}), Ok(Applied))
  }

  datatype RunResult<S> = RunResult(db: Db<S>, results: seq<FileResult>, error: Option<MigrationError>)

  function RunFrom<S>(env: Env<S>, applied: set<string>, db: Db<S>, files: seq<string>): (r: RunResult<S>)
    ensures |r.results| <= |files|
    decreases |files|
  {
    if files == [] then RunResult(db, [], None)
    else
      match Migrate(env, applied, db, files[0])
      case (after, Err(error)) => RunResult(after, [], Some(error))
      case (after, Ok(outcome)) =>
        var rest := RunFrom(env, applied, after, files[1..]);
        rest.(results := [FileResult(files[0], outcome)] + rest.results)
  }

  /** `runMigrations`: the ledger is read once, before the first file. */
  function Run<S>(env: Env<S>, db: Db<S>, files: seq<string>): RunResult<S> {
    RunFrom(env, db.ledger, db, files)
  }

  /** The database that the runner works on. */
  class MigrationDatabase<S> {
    const env: Env<S>
    var schema: S
    var ledger: set<string>

    constructor (env: Env<S>, schema: S, ledger: set<string>)
      ensures this.env == env && View() == Db(schema, ledger)
    {
      this.env, this.schema, this.ledger := env, schema, ledger;
    }

    function View(): Db<S>
      reads this
    {
      Db(schema, ledger)
    }

    /** `verifyOrCompleteStatementByStatement`; nothing for "aborted". */
    method VerifyOrCompleteStatementByStatement(filename: string, sql: string) returns (outcome: Option<Outcome>)
      modifies this
      ensures (View(), outcome) == VerifyOrComplete(env, old(View()), filename, sql)
    {
      var statements := SqlSplitter.SplitSqlStatements(sql);
      var anyGenuinelyApplied := false;
      var current := schema;
      for i := 0 to |statements|
        invariant unchanged(this)
        invariant match Pass(env, current, statements[i..])
                  case None => Pass(env, schema, statements) == None
                  case Some(rest) => Pass(env, schema, statements) == Some((rest.0, rest.1 || anyGenuinelyApplied))
      {
        assert statements[i..][1..] == statements[i + 1..];
        match env.exec(current, statements[i])
        case Failed => return None;
        case Duplicate =>
        case Done(next) => current, anyGenuinelyApplied := next, true;
      }
      if filename in env.manifest {
        var complete, _ := SchemaSatisfies(env.normalize, env.capture(current), env.manifest[filename]);
        if !complete {
          return None;
        }
      }
      schema, ledger := current, ledger + {filename};
      return Some(if anyGenuinelyApplied then Completed else Bootstrapped);
    }

    /** The body of the loop over the files. */
    method MigrateFile(applied: set<string>, filename: string) returns (result: Result<Outcome, MigrationError>)
      modifies this
      ensures (View(), result) == Migrate(env, applied, old(View()), filename)
    {
      if filename in applied {
        return Ok(Skipped);
      }
      if filename !in env.files {
        return Err(FileMissing);
      }
      var sql := env.files[filename];
      match env.exec(schema, sql)
      case Failed => return Err(ExecutionFailed);
      case Duplicate =>
        var outcome := VerifyOrCompleteStatementByStatement(filename, sql);
        return if outcome.None? then Err(CouldNotComplete) else Ok(outcome.value);
      case Done(next) =>
        if filename in env.manifest {
          var complete, _ := SchemaSatisfies(env.normalize, env.capture(next), env.manifest[filename]);
          if !complete {
            return Err(Unsatisfied);
          }
        }
        if filename in ledger {
          return Err(AlreadyRecorded);
        }
        schema, ledger := next, ledger + {filename};
        return Ok(Applied);
    }

    /** `runMigrations`. */
    method RunMigrations(migrationFiles: seq<string>) returns (results: seq<FileResult>, error: Option<MigrationError>)
      modifies this
      ensures RunResult(View(), results, error) == Run(env, old(View()), migrationFiles)
    {
      var applied := ledger;
      results := [];
      for i := 0 to |migrationFiles|
        invariant var rest := RunFrom(env, applied, View(), migrationFiles[i..]);
                  Run(env, old(View()), migrationFiles) == rest.(results := results + rest.results)
      {
        assert migrationFiles[i..][1..] == migrationFiles[i + 1..];
        var result := MigrateFile(applied, migrationFiles[i]);
        if result.Err? {
          assert results + [] == results;
          return results, Some(result.error);
        }
        ghost var rest := RunFrom(env, applied, View(), migrationFiles[i + 1..]).results;
        var entry := FileResult(migrationFiles[i], result.value);
        assert results + ([entry] + rest) == results + [entry] + rest;
        results := results + [entry];
      }
      assert results + [] == results;
      error := None;
    }
  }
}
