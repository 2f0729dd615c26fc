/** What any run of the migration runner leaves behind. */
module MigrationRuns {
  import opened Wrappers
  import opened MigrationRunner

  // ----- one file

  /** Nothing new was found exactly when every statement collides with what is there; the schema is then unchanged. */
  lemma {:induction false} NothingNewIff<S>(env: Env<S>, schema: S, statements: seq<string>)
    ensures var pass := Pass(env, schema, statements);
            && (pass.Some? && !pass.value.1 <==> forall i | 0 <= i < |statements| :: env.exec(schema, statements[i]) == Duplicate)
            && (pass.Some? && !pass.value.1 ==> pass.value.0 == schema)
    decreases |statements|
  {
    if statements != [] && env.exec(schema, statements[0]).Duplicate? {
      NothingNewIff(env, schema, statements[1..]);
      if forall i | 0 <= i < |statements[1..]| :: env.exec(schema, statements[1..][i]) == Duplicate {
        forall i | 0 <= i < |statements| ensures env.exec(schema, statements[i]) == Duplicate {
          assert i > 0 ==> statements[1..][i - 1] == statements[i];
        }
      } else {
        var i :| 0 <= i < |statements[1..]| && env.exec(schema, statements[1..][i]) != Duplicate;
        assert statements[i + 1] == statements[1..][i];
      }
    }
  }

  /** What the outcome of one file says about the database before and after it. */
  ghost predicate Keeps<S>(env: Env<S>, applied: set<string>, before: Db<S>, filename: string, outcome: Outcome, after: Db<S>) {
    && (outcome == Skipped <==> filename in applied)
    && (outcome == Skipped ==> after == before)
    && (outcome != Skipped ==> after.ledger == before.ledger + {filename} && env.Verified(after.schema, filename))
    && (outcome == Bootstrapped ==> after.schema == before.schema)
  }

  lemma OneFile<S>(env: Env<S>, applied: set<string>, db: Db<S>, filename: string)
    ensures var (after, result) := Migrate(env, applied, db, filename);
            if result.Err? then after == db else Keeps(env, applied, db, filename, result.value, after)
  {
    if filename !in applied && filename in env.files {
      NothingNewIff(env, db.schema, SqlSplitter.Split(env.files[filename]));
    }
    hide SqlSplitter.Split, Env.Verified;
  }

  /** The statements of the file can be gone through with nothing worse than collisions, and satisfy its manifest entry. */
  predicate Completes<S>(env: Env<S>, schema: S, filename: string)
    requires filename in env.files
  {
    var pass := Pass(env, schema, SqlSplitter.Split(env.files[filename]));
    pass.Some? && env.Verified(pass.value.0, filename)
  }

  /** What stops a run at a file, in the order in which it is looked at. */
  lemma StoppedIff<S>(env: Env<S>, applied: set<string>, db: Db<S>, filename: string)
    ensures var result := Migrate(env, applied, db, filename).1;
            var unseen := filename !in applied && filename in env.files;
            var done := if unseen then env.exec(db.schema, env.files[filename]) else Failed;
            && (result == Err(FileMissing) <==> filename !in applied && filename !in env.files)
            && (result == Err(ExecutionFailed) <==> unseen && done.Failed?)
            && (result == Err(CouldNotComplete) <==> unseen && done.Duplicate? && !Completes(env, db.schema, filename))
            && (result == Err(Unsatisfied) <==> unseen && done.Done? && !env.Verified(done.schema, filename))
            && (result == Err(AlreadyRecorded) <==> unseen && done.Done? && env.Verified(done.schema, filename) && filename in db.ledger)
            && (result.Ok? && result.value == Applied <==> unseen && done.Done? && env.Verified(done.schema, filename) && filename !in db.ledger)
  {
    hide SqlSplitter.Split, Env.Verified, Pass;
  }

  /** A file that is listed once is never found in the ledger after it was run. */
  lemma {:induction false} ListedOnce<S>(env: Env<S>, applied: set<string>, db: Db<S>, files: seq<string>)
    requires forall i | 0 <= i < |files| && files[i] in db.ledger :: files[i] in applied
    requires forall i, j | 0 <= i < j < |files| :: files[i] != files[j]
    ensures RunFrom(env, applied, db, files).error != Some(AlreadyRecorded)
    decreases |files|
  {
    if files != [] {
      var (after, result) := Migrate(env, applied, db, files[0]);
      OneFile(env, applied, db, files[0]);
      StoppedIff(env, applied, db, files[0]);
      hide Migrate;
      if result.Ok? {
        assert forall i | 0 <= i < |files[1..]| :: files[1..][i] == files[i + 1];
        ListedOnce(env, applied, after, files[1..]);
      }
    }
  }

  // ----- all files

  function Pending(files: seq<string>, applied: set<string>): seq<string> {
    if files == [] then []
    else Pending(files[..|files| - 1], applied) + if files[|files| - 1] in applied then [] else [files[|files| - 1]]
  }

  lemma {:induction false} PendingOfPrefix(files: seq<string>, applied: set<string>, k: nat)
    requires k <= |files|
    ensures Pending(files[..k], applied) <= Pending(files, applied)
  {
    if k < |files| {
      PendingOfPrefix(files[..|files| - 1], applied, k);
      assert files[..|files| - 1][..k] == files[..k];
    } else {
      assert files[..k] == files;
    }
  }

  function Elements(s: seq<string>): set<string> {
    set x | x in s
  }

  /** Running two lists one after the other. */
  lemma {:induction false} RunConcat<S>(env: Env<S>, applied: set<string>, db: Db<S>, a: seq<string>, b: seq<string>)
    ensures var first := RunFrom(env, applied, db, a);
            var second := RunFrom(env, applied, first.db, b);
            RunFrom(env, applied, db, a + b) ==
            if first.error.Some? then first else RunResult(second.db, first.results + second.results, second.error)
    decreases |a|
  {
    hide Migrate;
    if a == [] {
      assert a + b == b;
      assert [] + RunFrom(env, applied, db, b).results == RunFrom(env, applied, db, b).results;
    } else {
      assert (a + b)[0] == a[0] && (a + b)[1..] == a[1..] + b;
      var (after, result) := Migrate(env, applied, db, a[0]);
      if result.Ok? {
        RunConcat(env, applied, after, a[1..], b);
        var first, second := RunFrom(env, applied, after, a[1..]), RunFrom(env, applied, RunFrom(env, applied, after, a[1..]).db, b);
        var entry := FileResult(a[0], result.value);
        assert [entry] + (first.results + second.results) == [entry] + first.results + second.results;
      }
    }
  }

  /** The run over the first `k` files. */
  function Prefix<S>(env: Env<S>, applied: set<string>, db: Db<S>, files: seq<string>, k: nat): RunResult<S>
    requires k <= |files|
  {
    RunFrom(env, applied, db, files[..k])
  }

  lemma LastFile<S>(env: Env<S>, applied: set<string>, db: Db<S>, filename: string)
    ensures var (after, result) := Migrate(env, applied, db, filename);
            RunFrom(env, applied, db, [filename]) ==
            if result.Err? then RunResult(after, [], Some(result.error)) else RunResult(after, [FileResult(filename, result.value)], None)
  {}

  /** A run is its prefix and one more file. */
  lemma NextFile<S>(env: Env<S>, applied: set<string>, db: Db<S>, files: seq<string>, k: nat)
    requires k < |files| && Prefix(env, applied, db, files, k).error.None?
    ensures var before := Prefix(env, applied, db, files, k);
            var (after, result) := Migrate(env, applied, before.db, files[k]);
            Prefix(env, applied, db, files, k + 1) ==
            if result.Err? then RunResult(after, before.results, Some(result.error))
            else RunResult(after, before.results + [FileResult(files[k], result.value)], None)
  {
    hide Migrate;
    var before := Prefix(env, applied, db, files, k);
    assert files[..k + 1] == files[..k] + [files[k]];
    RunConcat(env, applied, db, files[..k], [files[k]]);
    LastFile(env, applied, before.db, files[k]);
    assert before.results + [] == before.results;
  }

  /** What every run keeps, up to the point where it ends or stops at an error. */
  ghost predicate Progress<S>(env: Env<S>, applied: set<string>, db: Db<S>, files: seq<string>, k: nat)
    requires k <= |files|
  {
    var r := Prefix(env, applied, db, files, k);
    && |r.results| <= k
    && (r.error.None? <==> |r.results| == k)
    && (forall i | 0 <= i < |r.results| :: r.results[i].filename == files[i])
    && r.db.ledger == db.ledger + Elements(Pending(files[..|r.results|], applied))
  }

  lemma ElementsSnoc(s: seq<string>, x: string)
    ensures Elements(s + [x]) == Elements(s) + {x} && Elements(s + []) == Elements(s)
  {}

  lemma PendingSnoc(files: seq<string>, k: nat, applied: set<string>)
    requires k < |files|
    ensures Pending(files[..k + 1], applied) == Pending(files[..k], applied) + if files[k] in applied then [] else [files[k]]
  {
    assert files[..k + 1][..k] == files[..k];
  }

  lemma {:induction false} RunProgresses<S>(env: Env<S>, applied: set<string>, db: Db<S>, files: seq<string>, k: nat)
    requires k <= |files|
    ensures Progress(env, applied, db, files, k)
  {
    if k == 0 {
      assert files[..0] == [];
    } else {
      RunProgresses(env, applied, db, files, k - 1);
      if Prefix(env, applied, db, files, k - 1).error.None? {
        OneMoreFile(env, applied, db, files, k - 1);
      } else {
        RunConcat(env, applied, db, files[..k - 1], [files[k - 1]]);
        assert files[..k] == files[..k - 1] + [files[k - 1]];
        hide Migrate, RunFrom, Pending, Elements, Env.Verified;
      }
    }
  }

  lemma OneMoreFile<S>(env: Env<S>, applied: set<string>, db: Db<S>, files: seq<string>, k: nat)
    requires k < |files| && Progress(env, applied, db, files, k) && Prefix(env, applied, db, files, k).error.None?
    ensures Progress(env, applied, db, files, k + 1)
  {
    hide Migrate, RunFrom, Pending, Elements, Env.Verified;
    NextFile(env, applied, db, files, k);
    OneFile(env, applied, Prefix(env, applied, db, files, k).db, files[k]);
    PendingSnoc(files, k, applied);
    ElementsSnoc(Pending(files[..k], applied), files[k]);
  }

  /**
   * After any run, also one that stops at an error, the ledger is the old one and a prefix of the
   * pending files, those before the error; without an error, all of them.
   */
  lemma LedgerIsPrefix<S>(env: Env<S>, db: Db<S>, files: seq<string>)
    ensures var r := Run(env, db, files);
            var k := |r.results|;
            && k <= |files|
            && (r.error.None? <==> k == |files|)
            && r.db.ledger == db.ledger + Elements(Pending(files[..k], db.ledger))
            && Pending(files[..k], db.ledger) <= Pending(files, db.ledger)
  {
    assert files[..|files|] == files;
    RunProgresses(env, db.ledger, db, files, |files|);
    PendingOfPrefix(files, db.ledger, |Run(env, db, files).results|);
    hide RunFrom, Pending, Elements;
  }

  /** The database before the file at place `i` of a run. */
  function Before<S>(env: Env<S>, db: Db<S>, files: seq<string>, i: nat): Db<S>
    requires i <= |files|
  {
    Prefix(env, db.ledger, db, files, i).db
  }

  lemma {:induction false} ErrorStays<S>(env: Env<S>, applied: set<string>, db: Db<S>, files: seq<string>, i: nat, k: nat)
    requires i <= k <= |files|
    ensures Prefix(env, applied, db, files, i).error.Some? ==> Prefix(env, applied, db, files, k) == Prefix(env, applied, db, files, i)
    ensures Prefix(env, applied, db, files, i).results <= Prefix(env, applied, db, files, k).results
  {
    assert files[..k] == files[..i] + files[i..k];
    RunConcat(env, applied, db, files[..i], files[i..k]);
    hide RunFrom;
  }

  /**
   * Every file that a run got through: a skipped one changed nothing; an added one was recorded
   * with its manifest entry satisfied by the schema it was committed with; a bootstrapped one left
   * the schema as it was.
   */
  lemma EveryFileKeeps<S>(env: Env<S>, db: Db<S>, files: seq<string>, i: nat)
    requires i < |Run(env, db, files).results|
    ensures i < |files| && Run(env, db, files).results[i].filename == files[i]
    ensures Keeps(env, db.ledger, Before(env, db, files, i), files[i], Run(env, db, files).results[i].outcome, Before(env, db, files, i + 1))
  {
    var applied := db.ledger;
    assert files[..|files|] == files;
    RunProgresses(env, applied, db, files, |files|);
    RunProgresses(env, applied, db, files, i);
    ErrorStays(env, applied, db, files, i, |files|);
    NextFile(env, applied, db, files, i);
    ErrorStays(env, applied, db, files, i + 1, |files|);
    OneFile(env, applied, Before(env, db, files, i), files[i]);
    hide Migrate, RunFrom, Keeps;
  }

  /** A file that stops the run leaves schema and ledger as the files before it left them. */
  lemma ErrorChangesNothing<S>(env: Env<S>, db: Db<S>, files: seq<string>)
    requires Run(env, db, files).error.Some?
    ensures var k := |Run(env, db, files).results|;
            k < |files| && Run(env, db, files).db == Before(env, db, files, k)
  {
    var applied := db.ledger;
    assert files[..|files|] == files;
    RunProgresses(env, applied, db, files, |files|);
    var k := |Run(env, db, files).results|;
    RunProgresses(env, applied, db, files, k);
    ErrorStays(env, applied, db, files, k, |files|);
    RunProgresses(env, applied, db, files, k + 1);
    ErrorStays(env, applied, db, files, k + 1, |files|);
    NextFile(env, applied, db, files, k);
    OneFile(env, applied, Before(env, db, files, k), files[k]);
    hide Migrate, RunFrom, Pending, Elements, Keeps;
  }

  // ----- running again

  lemma {:induction false} AllSkipped<S>(env: Env<S>, applied: set<string>, db: Db<S>, files: seq<string>)
    requires forall f | f in files :: f in applied
    ensures var r := RunFrom(env, applied, db, files);
            && r.db == db && r.error == None && |r.results| == |files|
            && forall i | 0 <= i < |files| :: r.results[i] == FileResult(files[i], Skipped)
    decreases |files|
  {
    if files != [] {
      assert files[0] in files && forall f | f in files[1..] :: f in files;
      AllSkipped(env, applied, db, files[1..]);
    }
  }

  lemma {:induction false} PendingOrApplied(files: seq<string>, applied: set<string>, f: string)
    requires f in files
    ensures f in applied || f in Pending(files, applied)
  {
    var last := files[|files| - 1];
    if f != last {
      assert files == files[..|files| - 1] + [last];
      PendingOrApplied(files[..|files| - 1], applied, f);
    }
  }

  /** The files before an error are done: they are in the ledger. */
  lemma DoneAreRecorded<S>(env: Env<S>, db: Db<S>, files: seq<string>, f: string)
    requires f in files[..|Run(env, db, files).results|]
    ensures f in Run(env, db, files).db.ledger
  {
    var k := |Run(env, db, files).results|;
    LedgerIsPrefix(env, db, files);
    PendingOrApplied(files[..k], db.ledger, f);
    hide RunFrom, Pending;
  }

  /**
   * A second run, whatever the files hold by then, passes over what the first one did and goes on
   * at the file where that one stopped. After a run without an error it changes nothing.
   */
  lemma RerunContinues<S>(env: Env<S>, later: Env<S>, db: Db<S>, files: seq<string>)
    ensures var first := Run(env, db, files);
            var again := Run(later, first.db, files);
            var rest := Run(later, first.db, files[|first.results|..]);
            && again.db == rest.db && again.error == rest.error
            && (first.error.None? ==> again.db == first.db && again.error == None)
            && (first.error.None? ==> forall i | 0 <= i < |again.results| :: again.results[i].outcome == Skipped)
  {
    var first := Run(env, db, files);
    var k := |first.results|;
    forall f | f in files[..k] ensures f in first.db.ledger {
      DoneAreRecorded(env, db, files, f);
    }
    AllSkipped(later, first.db.ledger, first.db, files[..k]);
    RunConcat(later, first.db.ledger, first.db, files[..k], files[k..]);
    assert files == files[..k] + files[k..];
    LedgerIsPrefix(env, db, files);
    if first.error.None? {
      assert files[k..] == [];
    }
    hide Migrate, Pending;
  }

  // ----- finishing a partially applied file

  /** The schemas that the statements lead through, one after the other. */
  ghost predicate Steps<S>(env: Env<S>, states: seq<S>, statements: seq<string>) {
    |states| == |statements| + 1 && forall i | 0 <= i < |statements| :: env.exec(states[i], statements[i]) == Done(states[i + 1])
  }

  /** A statement that ran before does not change the schema when it is run again. */
  predicate Harmless<S(==)>(env: Env<S>, schema: S, statement: string) {
    env.exec(schema, statement) == Duplicate || env.exec(schema, statement) == Done(schema)
  }

  lemma {:induction false} PassFromMiddle<S>(env: Env<S>, states: seq<S>, statements: seq<string>)
    requires Steps(env, states, statements)
    ensures Pass(env, states[0], statements) == Some((states[|statements|], |statements| > 0))
    decreases |statements|
  {
    if statements != [] {
      assert env.exec(states[0], statements[0]) == Done(states[1]);
      forall i | 0 <= i < |statements[1..]| ensures env.exec(states[1..][i], statements[1..][i]) == Done(states[1..][i + 1]) {
        assert statements[1..][i] == statements[i + 1] && states[1..][i] == states[i + 1];
      }
      PassFromMiddle(env, states[1..], statements[1..]);
    }
  }

  lemma {:induction false} PassOverDone<S>(env: Env<S>, schema: S, done: seq<string>, rest: seq<string>)
    requires forall i | 0 <= i < |done| :: Harmless(env, schema, done[i])
    ensures var pass := Pass(env, schema, rest);
            var known := forall i | 0 <= i < |done| :: env.exec(schema, done[i]) == Duplicate;
            Pass(env, schema, done + rest) == if pass.None? then None else Some((pass.value.0, pass.value.1 || !known))
    decreases |done|
  {
    if done == [] {
      assert done + rest == rest;
    } else {
      assert (done + rest)[1..] == done[1..] + rest && (done + rest)[0] == done[0];
      assert Harmless(env, schema, done[0]);
      forall i | 0 <= i < |done[1..]| ensures Harmless(env, schema, done[1..][i]) {
        assert done[1..][i] == done[i + 1];
      }
      PassOverDone(env, schema, done[1..], rest);
      KnownTail(env, schema, done);
    }
  }

  lemma KnownTail<S>(env: Env<S>, schema: S, done: seq<string>)
    requires done != []
    ensures (forall i | 0 <= i < |done| :: env.exec(schema, done[i]) == Duplicate) <==>
            env.exec(schema, done[0]) == Duplicate && forall i | 0 <= i < |done[1..]| :: env.exec(schema, done[1..][i]) == Duplicate
  {
    assert forall i | 0 <= i < |done[1..]| :: done[1..][i] == done[i + 1];
    assert forall i | 1 <= i < |done| :: done[i] == done[1..][i - 1];
  }

  /**
   * Where an earlier run got through the first `j` statements of a file and these are harmless to
   * repeat, the savepoint pass ends in the schema of the whole file. It counts as bootstrapped
   * exactly when that run had got through the whole file and every statement reports a duplicate.
   */
  lemma PartialFileIsCompleted<S>(env: Env<S>, ledger: set<string>, filename: string, sql: string, states: seq<S>, j: nat)
    requires Steps(env, states, SqlSplitter.Split(sql)) && j <= |SqlSplitter.Split(sql)|
    requires forall i | 0 <= i < j :: Harmless(env, states[j], SqlSplitter.Split(sql)[i])
    requires env.Verified(states[|states| - 1], filename)
    ensures var statements := SqlSplitter.Split(sql);
            var (db, outcome) := VerifyOrComplete(env, Db(states[j], ledger), filename, sql);
            && db == Db(states[|states| - 1], ledger + {filename})
            && outcome.Some?
            && (outcome.value == Bootstrapped <==>
                j == |statements| && forall i | 0 <= i < j :: env.exec(states[j], statements[i]) == Duplicate)
            && (outcome.value != Bootstrapped ==> outcome.value == Completed)
  {
    var statements := SqlSplitter.Split(sql);
    hide SqlSplitter.Split, Env.Verified;
    var done, rest := statements[..j], statements[j..];
    assert Steps(env, states[j..], rest) by {
      forall i | 0 <= i < |rest| ensures env.exec(states[j..][i], rest[i]) == Done(states[j..][i + 1]) {
        assert rest[i] == statements[j + i] && states[j..][i] == states[j + i] && states[j..][i + 1] == states[j + i + 1];
      }
    }
    PassFromMiddle(env, states[j..], rest);
    assert forall i | 0 <= i < j :: done[i] == statements[i];
    PassOverDone(env, states[j], done, rest);
    assert statements == done + rest;
  }
}
