/** A run over a database that has every migration already but whose ledger does not say so. */
module MigrationBootstraps {
  import opened Wrappers
  import opened SchemaSnapshots
  import opened MigrationRunner
  import opened MigrationRuns

  /** The file brings nothing new: whole or statement by statement, it collides or changes nothing. */
  predicate Present<S(==)>(env: Env<S>, schema: S, filename: string) {
    && filename in env.files
    && env.exec(schema, env.files[filename]) in {Duplicate, Done(schema)}
    && forall i | 0 <= i < |SqlSplitter.Split(env.files[filename])| ::
         Harmless(env, schema, SqlSplitter.Split(env.files[filename])[i])
  }

  predicate AllCollide<S(==)>(env: Env<S>, schema: S, statements: seq<string>) {
    forall i | 0 <= i < |statements| :: env.exec(schema, statements[i]) == Duplicate
  }

  function OutcomeOfPresent<S(==)>(env: Env<S>, schema: S, filename: string): Outcome
    requires filename in env.files
  {
    if env.exec(schema, env.files[filename]).Done? then Applied
    else if AllCollide(env, schema, SqlSplitter.Split(env.files[filename])) then Bootstrapped
    else Completed
  }

  function RefusalOfPresent<S(==)>(env: Env<S>, schema: S, filename: string): MigrationError
    requires filename in env.files
  {
    if env.exec(schema, env.files[filename]).Done? then Unsatisfied else CouldNotComplete
  }

  /** A pass over harmless statements ends where it began. */
  lemma PassOverHarmless<S>(env: Env<S>, schema: S, statements: seq<string>)
    requires forall i | 0 <= i < |statements| :: Harmless(env, schema, statements[i])
    ensures Pass(env, schema, statements) == Some((schema, !AllCollide(env, schema, statements)))
  {
    PassOverDone(env, schema, statements, []);
    assert statements + [] == statements;
    assert Pass(env, schema, []) == Some((schema, false));
  }

  /** A file that is present is recorded exactly when its manifest entry is satisfied; the schema stays. */
  lemma PresentFile<S>(env: Env<S>, applied: set<string>, db: Db<S>, filename: string)
    requires filename !in applied && filename !in db.ledger && Present(env, db.schema, filename)
    ensures Migrate(env, applied, db, filename) ==
            if env.Verified(db.schema, filename)
            then (Db(db.schema, db.ledger + {filename}), Ok(OutcomeOfPresent(env, db.schema, filename)))
            else (db, Err(RefusalOfPresent(env, db.schema, filename)))
  {
    PassOverHarmless(env, db.schema, SqlSplitter.Split(env.files[filename]));
    hide SqlSplitter.Split, Env.Verified, AllCollide, Harmless, Pass;
  }

  predicate Distinct(files: seq<string>) {
    forall i, j | 0 <= i < j < |files| :: files[i] != files[j]
  }

  /** Recorded before, or satisfied by the present schema. */
  predicate Accepted<S>(env: Env<S>, applied: set<string>, schema: S, filename: string) {
    filename in applied || env.Verified(schema, filename)
  }

  lemma RecordedFile<S>(env: Env<S>, applied: set<string>, db: Db<S>, filename: string)
    requires filename in applied
    ensures Migrate(env, applied, db, filename) == (db, Ok(Skipped))
  {
  }

  /**
   * A run over files that are all present leaves the schema alone. It gets through exactly the files
   * before the first one that is neither recorded nor satisfied, and says of each what it is.
   */
  lemma {:induction false} PresentFiles<S>(env: Env<S>, applied: set<string>, db: Db<S>, files: seq<string>)
    requires Distinct(files)
    requires forall i | 0 <= i < |files| && files[i] !in applied :: files[i] in env.files && files[i] !in db.ledger
    requires forall i | 0 <= i < |files| && files[i] !in applied :: Present(env, db.schema, files[i])
    ensures var r := RunFrom(env, applied, db, files);
            var k := |r.results|;
            && r.db.schema == db.schema
            && (forall i | 0 <= i < k :: Accepted(env, applied, db.schema, files[i]))
            && (forall i | 0 <= i < k :: r.results[i] ==
                  FileResult(files[i], if files[i] in applied then Skipped else OutcomeOfPresent(env, db.schema, files[i])))
            && (if k == |files| then r.error == None
                else !Accepted(env, applied, db.schema, files[k]) && r.error == Some(RefusalOfPresent(env, db.schema, files[k])))
    decreases |files|
  {
    hide Env.Verified, Harmless, SqlSplitter.Split, OutcomeOfPresent, RefusalOfPresent, Migrate;
    if files != [] {
      var f := files[0];
      if f in applied {
        RecordedFile(env, applied, db, f);
      } else {
        PresentFile(env, applied, db, f);
      }
      var (after, result) := Migrate(env, applied, db, f);
      if result.Ok? {
        assert forall i | 0 <= i < |files[1..]| :: files[1..][i] == files[i + 1] && files[i + 1] != f;
        PresentFiles(env, applied, after, files[1..]);
      }
    }
  }

  lemma AllRecorded<S>(env: Env<S>, db: Db<S>, files: seq<string>)
    requires db.ledger == {} && Run(env, db, files).error == None
    ensures Run(env, db, files).db.ledger == Elements(files)
  {
    hide RunFrom, Pending;
    LedgerIsPrefix(env, db, files);
    NothingApplied(files);
    assert files[..|files|] == files;
  }

  /**
   * A database that has every migration, with an empty ledger: when all that the files create collides
   * with what is there, a run reports every file as bootstrapped, and nothing else, exactly when the
   * present schema satisfies each file's manifest entry.
   */
  lemma BootstrapsAllIff<S>(env: Env<S>, db: Db<S>, files: seq<string>)
    requires Distinct(files) && db.ledger == {}
    requires forall i | 0 <= i < |files| :: Present(env, db.schema, files[i]) && OutcomeOfPresent(env, db.schema, files[i]) == Bootstrapped
    ensures var r := Run(env, db, files);
            && r.error == None && r.db == Db(db.schema, Elements(files)) && |r.results| == |files|
            && (forall i | 0 <= i < |files| :: r.results[i] == FileResult(files[i], Bootstrapped))
            <==> forall i | 0 <= i < |files| :: env.Verified(db.schema, files[i])
  {
    assert forall i | 0 <= i < |files| :: files[i] in env.files;
    hide RunFrom, Env.Verified, Present, OutcomeOfPresent, RefusalOfPresent, Elements;
    PresentFiles(env, db.ledger, db, files);
    if Run(env, db, files).error == None {
      AllRecorded(env, db, files);
    }
  }

  lemma {:induction false} NothingApplied(files: seq<string>)
    ensures Pending(files, {}) == files
  {
    if files != [] {
      NothingApplied(files[..|files| - 1]);
    }
  }

  // ----- what a later migration has changed

  /** The database went through these schemas, file by file, and the manifest holds what each file added. */
  ghost predicate BuiltBy<S>(env: Env<S>, states: seq<S>, files: seq<string>) {
    && |states| == |files| + 1
    && (forall i | 0 < i <= |files| :: WellFormed(env.capture(states[i])))
    && (forall i | 0 <= i < |files| && files[i] in env.manifest ::
          env.manifest[files[i]] == Diff(env.capture(states[i]), env.capture(states[i + 1])))
  }

  /** Migration `j` changed something that the file, an earlier one, had defined. */
  ghost predicate Changes<S>(env: Env<S>, states: seq<S>, j: nat, filename: string)
    requires j + 1 < |states|
  {
    env.Verified(states[j], filename) && !env.Verified(states[j + 1], filename)
  }

  lemma {:induction false} ChangedByLater<S>(env: Env<S>, states: seq<S>, filename: string, k: nat)
    requires k < |states| && env.Verified(states[k], filename) && !env.Verified(states[|states| - 1], filename)
    ensures exists j: nat | k <= j < |states| - 1 :: Changes(env, states, j, filename)
    decreases |states| - k
  {
    if env.Verified(states[k + 1], filename) {
      ChangedByLater(env, states, filename, k + 1);
    } else {
      assert Changes(env, states, k, filename);
    }
  }

  /**
   * On a database built by these very migrations, whatever its ledger has of them: a run stops, if it
   * does, at the first unrecorded file whose definitions a later migration has changed for good, and it
   * gets through all files exactly when there is none.
   */
  lemma StopsAtChangedFile<S>(env: Env<S>, ledger: set<string>, states: seq<S>, files: seq<string>)
    requires Distinct(files) && BuiltBy(env, states, files)
    requires forall i | 0 <= i < |files| && files[i] !in ledger :: Present(env, states[|files|], files[i])
    ensures var r := Run(env, Db(states[|files|], ledger), files);
            var k := |r.results|;
            && r.db.schema == states[|files|]
            && (forall i | 0 <= i < k :: Accepted(env, ledger, states[|files|], files[i]))
            && (r.error == None <==> forall i | 0 <= i < |files| :: Accepted(env, ledger, states[|files|], files[i]))
            && (r.error.Some? ==> k < |files| && !Accepted(env, ledger, states[|files|], files[k])
                                  && exists j: nat | k < j < |files| :: Changes(env, states, j, files[k]))
  {
    var schema := states[|files|];
    PresentFiles(env, ledger, Db(schema, ledger), files);
    var k := |Run(env, Db(schema, ledger), files).results|;
    hide RunFrom, Present, RefusalOfPresent, OutcomeOfPresent;
    if k < |files| {
      AfterSatisfiesDiff(env.normalize, env.capture(states[k]), env.capture(states[k + 1]));
      assert env.Verified(states[k + 1], files[k]);
      ChangedByLater(env, states, files[k], k + 1);
    }
    hide Env.Verified, Diff;
  }
}
