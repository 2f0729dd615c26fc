/** Schema snapshots: what one database has, what another requires, and what a migration adds. */
module SchemaSnapshots {
  import opened Wrappers

  datatype Column = Column(name: string, dataType: string, nullable: bool, defaultExpression: Option<string>)

  type Definitions = map<string, string>

  datatype Kind = Constraint | Index | Routine | Trigger

  datatype Snapshot = Snapshot(
    tables: map<string, seq<Column>>,
    constraints: Definitions, indexes: Definitions, functions: Definitions, triggers: Definitions,
    extensions: set<string>)
  {
    function Of(kind: Kind): Definitions {
      match kind
      case Constraint => constraints
      case Index => indexes
      case Routine => functions
      case Trigger => triggers
    }
  }

  /** `normalizeDefinition`, whose rules do not matter here. */
  type Normalizer = string -> string

  /** The first column with this name. */
  function Find(columns: seq<Column>, name: string): (found: Option<Column>)
    ensures found.Some? ==> exists i | 0 <= i < |columns| :: columns[i] == found.value && forall j | 0 <= j < i :: columns[j].name != name
    ensures found.Some? ==> found.value in columns && found.value.name == name
    ensures found.None? ==> forall c | c in columns :: c.name != name
  {
    if columns == [] then None else if columns[0].name == name then Some(columns[0]) else Find(columns[1..], name)
  }

  // ----- what is missing

  datatype Difference = Type | Nullability | Default

  datatype Missing =
    | MissingTable(table: string)
    | MissingColumn(table: string, column: string)
    | WrongColumn(table: string, column: string, difference: Difference)
    | MissingDefinition(kind: Kind, name: string)
    | WrongDefinition(kind: Kind, name: string)
    | MissingExtension(extension: string)

  /** The first difference between two columns of the same name. */
  function FirstDifference(actual: Column, required: Column): Option<Difference> {
    if actual.dataType != required.dataType then Some(Type)
    else if actual.nullable != required.nullable then Some(Nullability)
    else if actual.defaultExpression != required.defaultExpression then Some(Default)
    else None
  }

  function ColumnReport(table: string, actual: seq<Column>, required: Column): Option<Missing> {
    match Find(actual, required.name)
    case None => Some(MissingColumn(table, required.name))
    case Some(column) =>
      match FirstDifference(column, required)
      case None => None
      case Some(difference) => Some(WrongColumn(table, required.name, difference))
  }

  function DefinitionReport(kind: Kind, normalize: Normalizer, actual: Definitions, required: Definitions, name: string): Option<Missing>
    requires name in required
  {
    if name !in actual then Some(MissingDefinition(kind, name))
    else if normalize(actual[name]) != normalize(required[name]) then Some(WrongDefinition(kind, name))
    else None
  }

  /** Everything of `required` that `actual` lacks. */
  predicate Lacks(normalize: Normalizer, actual: Snapshot, required: Snapshot, m: Missing) {
    || LacksTable(actual.tables, required.tables, m)
    || (exists kind: Kind :: LacksDefinition(kind, normalize, actual.Of(kind), required.Of(kind), m))
    || (m.MissingExtension? && m.extension in required.extensions && m.extension !in actual.extensions)
  }

  predicate LacksTable(actual: map<string, seq<Column>>, required: map<string, seq<Column>>, m: Missing) {
    exists t | t in required :: TableLacks(t, actual, required[t], m)
  }

  predicate TableLacks(t: string, actual: map<string, seq<Column>>, required: seq<Column>, m: Missing) {
    if t !in actual then m == MissingTable(t)
    else exists c | c in required :: ColumnReport(t, actual[t], c) == Some(m)
  }

  predicate LacksDefinition(kind: Kind, normalize: Normalizer, actual: Definitions, required: Definitions, m: Missing) {
    exists name | name in required :: DefinitionReport(kind, normalize, actual, required, name) == Some(m)
  }

  predicate Named(columns: seq<Column>, name: string) {
    exists c | c in columns :: c.name == name
  }

  /** The columns differ in this, and not in what is looked at before. */
  predicate Differs(a: Column, r: Column, difference: Difference) {
    match difference
    case Type => a.dataType != r.dataType
    case Nullability => a.dataType == r.dataType && a.nullable != r.nullable
    case Default => a.dataType == r.dataType && a.nullable == r.nullable && a.defaultExpression != r.defaultExpression
  }

  /** What each report means: which thing is not there, and what is different in one that is. */
  lemma WhatIsMissing(normalize: Normalizer, actual: Snapshot, required: Snapshot, m: Missing)
    ensures Lacks(normalize, actual, required, m) <==>
            match m
            case MissingTable(t) => t in required.tables && t !in actual.tables
            case MissingColumn(t, c) =>
              t in required.tables && t in actual.tables && Named(required.tables[t], c) && !Named(actual.tables[t], c)
            case WrongColumn(t, c, difference) =>
              && t in required.tables && t in actual.tables && Find(actual.tables[t], c).Some?
              && var a := Find(actual.tables[t], c).value;
                 exists r | r in required.tables[t] && r.name == c :: Differs(a, r, difference)
            case MissingDefinition(kind, name) => name in required.Of(kind) && name !in actual.Of(kind)
            case WrongDefinition(kind, name) =>
              name in required.Of(kind) && name in actual.Of(kind) && normalize(actual.Of(kind)[name]) != normalize(required.Of(kind)[name])
            case MissingExtension(e) => e in required.extensions && e !in actual.extensions
  {
    DefinitionReports(normalize, actual, required, m);
    hide LacksDefinition;
    match m
    case MissingTable(t) => TableReports(actual.tables, required.tables, m, t);
    case MissingColumn(t, _) => TableReports(actual.tables, required.tables, m, t);
    case WrongColumn(t, _, _) => TableReports(actual.tables, required.tables, m, t);
    case _ =>
  }

  lemma TableReports(actual: map<string, seq<Column>>, required: map<string, seq<Column>>, m: Missing, t: string)
    requires (m.MissingTable? || m.MissingColumn? || m.WrongColumn?) && m.table == t
    ensures LacksTable(actual, required, m) <==> t in required && TableLacks(t, actual, required[t], m)
  {}

  lemma DefinitionReports(normalize: Normalizer, actual: Snapshot, required: Snapshot, m: Missing)
    ensures (exists kind: Kind :: LacksDefinition(kind, normalize, actual.Of(kind), required.Of(kind), m)) <==>
            match m
            case MissingDefinition(kind, name) => name in required.Of(kind) && name !in actual.Of(kind)
            case WrongDefinition(kind, name) =>
              name in required.Of(kind) && name in actual.Of(kind) && normalize(actual.Of(kind)[name]) != normalize(required.Of(kind)[name])
            case _ => false
  {
    hide Snapshot.Of;
    if m.MissingDefinition? || m.WrongDefinition? {
      var kind, name := m.kind, m.name;
      if name in required.Of(kind) && DefinitionReport(kind, normalize, actual.Of(kind), required.Of(kind), name) == Some(m) {
        assert LacksDefinition(kind, normalize, actual.Of(kind), required.Of(kind), m);
      }
    }
  }

  // ----- containment with matching definitions

  /** The same column, found by its name, for each required one. */
  predicate HasColumns(actual: seq<Column>, required: seq<Column>) {
    forall c | c in required :: Find(actual, c.name) == Some(c)
  }

  predicate HasTables(actual: map<string, seq<Column>>, required: map<string, seq<Column>>) {
    forall t | t in required :: t in actual && HasColumns(actual[t], required[t])
  }

  predicate HasDefinitions(normalize: Normalizer, actual: Definitions, required: Definitions) {
    forall name | name in required :: name in actual && normalize(actual[name]) == normalize(required[name])
  }

  predicate Satisfies(normalize: Normalizer, actual: Snapshot, required: Snapshot) {
    && HasTables(actual.tables, required.tables)
    && (forall kind: Kind :: HasDefinitions(normalize, actual.Of(kind), required.Of(kind)))
    && required.extensions <= actual.extensions
  }

  // ----- the check, as loops

  method CheckTable(table: string, actual: seq<Column>, required: seq<Column>) returns (missing: seq<Missing>)
    ensures forall m :: m in missing <==> exists c | c in required :: ColumnReport(table, actual, c) == Some(m)
  {
    missing := [];
    for i := 0 to |required|
      invariant forall m :: m in missing <==> exists c | c in required[..i] :: ColumnReport(table, actual, c) == Some(m)
    {
      var report := ColumnReport(table, actual, required[i]);
      assert required[..i + 1] == required[..i] + [required[i]];
      if report.Some? {
        missing := missing + [report.value];
      }
    }
    assert required[..|required|] == required;
  }

  method CheckTables(actual: map<string, seq<Column>>, required: map<string, seq<Column>>) returns (missing: seq<Missing>)
    ensures forall m :: m in missing <==> LacksTable(actual, required, m)
  {
    missing := [];
    var left := required.Keys;
    while left != {}
      invariant left <= required.Keys
      invariant forall m :: m in missing <==> exists t | t in required.Keys - left :: TableLacks(t, actual, required[t], m)
      decreases |left|
    {
      var t :| t in left;
      var added;
      if t !in actual {
        added := [MissingTable(t)];
      } else {
        added := CheckTable(t, actual[t], required[t]);
      }
      assert forall m :: m in added <==> TableLacks(t, actual, required[t], m);
      hide TableLacks;
      assert required.Keys - (left - {t}) == (required.Keys - left) + {t};
      missing := missing + added;
      left := left - {t};
    }
    assert required.Keys - {} == required.Keys;
  }

  method CheckDefMap(kind: Kind, normalize: Normalizer, actual: Definitions, required: Definitions) returns (missing: seq<Missing>)
    ensures forall m :: m in missing <==> LacksDefinition(kind, normalize, actual, required, m)
  {
    missing := [];
    var left := required.Keys;
    while left != {}
      invariant left <= required.Keys
      invariant forall m :: m in missing <==>
        exists name | name in required.Keys - left :: DefinitionReport(kind, normalize, actual, required, name) == Some(m)
      decreases |left|
    {
      var name :| name in left;
      var report := DefinitionReport(kind, normalize, actual, required, name);
      assert required.Keys - (left - {name}) == (required.Keys - left) + {name};
      if report.Some? {
        missing := missing + [report.value];
      }
      left := left - {name};
    }
    assert required.Keys - {} == required.Keys;
  }

  method CheckExtensions(actual: set<string>, required: set<string>) returns (missing: seq<Missing>)
    ensures forall m :: m in missing <==> m.MissingExtension? && m.extension in required && m.extension !in actual
  {
    missing := [];
    var left := required;
    while left != {}
      invariant left <= required
      invariant forall m :: m in missing <==> m.MissingExtension? && m.extension in required - left && m.extension !in actual
      decreases |left|
    {
      var e :| e in left;
      if e !in actual {
        missing := missing + [MissingExtension(e)];
      }
      left := left - {e};
    }
  }

  /** `schemaSatisfies`: the reports are exactly what is missing, and there are none exactly when everything is there. */
  method SchemaSatisfies(normalize: Normalizer, actual: Snapshot, required: Snapshot) returns (complete: bool, missing: seq<Missing>)
    ensures forall m :: m in missing <==> Lacks(normalize, actual, required, m)
    ensures complete <==> missing == []
    ensures complete <==> Satisfies(normalize, actual, required)
  {
    var tables := CheckTables(actual.tables, required.tables);
    var constraints := CheckDefMap(Constraint, normalize, actual.constraints, required.constraints);
    var indexes := CheckDefMap(Index, normalize, actual.indexes, required.indexes);
    var functions := CheckDefMap(Routine, normalize, actual.functions, required.functions);
    var triggers := CheckDefMap(Trigger, normalize, actual.triggers, required.triggers);
    var extensions := CheckExtensions(actual.extensions, required.extensions);
    missing := tables + constraints + indexes + functions + triggers + extensions;
    complete := missing == [];
    ReportsAreLacks(normalize, actual, required, tables, constraints, indexes, functions, triggers, extensions);
    NothingLackedIff(normalize, actual, required);
    hide Lacks, Satisfies;
    if complete {
      forall m ensures !Lacks(normalize, actual, required, m) {
        assert m !in missing;
      }
    } else {
      assert missing[0] in missing;
    }
  }

  lemma ReportsAreLacks(normalize: Normalizer, actual: Snapshot, required: Snapshot, tables: seq<Missing>,
                        constraints: seq<Missing>, indexes: seq<Missing>, functions: seq<Missing>, triggers: seq<Missing>,
                        extensions: seq<Missing>)
    requires forall m :: m in tables <==> LacksTable(actual.tables, required.tables, m)
    requires forall m :: m in constraints <==> LacksDefinition(Constraint, normalize, actual.constraints, required.constraints, m)
    requires forall m :: m in indexes <==> LacksDefinition(Index, normalize, actual.indexes, required.indexes, m)
    requires forall m :: m in functions <==> LacksDefinition(Routine, normalize, actual.functions, required.functions, m)
    requires forall m :: m in triggers <==> LacksDefinition(Trigger, normalize, actual.triggers, required.triggers, m)
    requires forall m :: m in extensions <==> m.MissingExtension? && m.extension in required.extensions && m.extension !in actual.extensions
    ensures forall m :: m in tables + constraints + indexes + functions + triggers + extensions <==> Lacks(normalize, actual, required, m)
  {
    hide LacksTable, LacksDefinition;
    forall m ensures m in tables + constraints + indexes + functions + triggers + extensions <==> Lacks(normalize, actual, required, m) {
      DefinitionKinds(normalize, actual, required, m);
    }
  }

  lemma DefinitionKinds(normalize: Normalizer, actual: Snapshot, required: Snapshot, m: Missing)
    ensures (exists kind: Kind :: LacksDefinition(kind, normalize, actual.Of(kind), required.Of(kind), m)) <==>
            || LacksDefinition(Constraint, normalize, actual.constraints, required.constraints, m)
            || LacksDefinition(Index, normalize, actual.indexes, required.indexes, m)
            || LacksDefinition(Routine, normalize, actual.functions, required.functions, m)
            || LacksDefinition(Trigger, normalize, actual.triggers, required.triggers, m)
  {
    hide LacksDefinition;
    assert actual.Of(Constraint) == actual.constraints && required.Of(Constraint) == required.constraints;
    assert actual.Of(Index) == actual.indexes && required.Of(Index) == required.indexes;
    assert actual.Of(Routine) == actual.functions && required.Of(Routine) == required.functions;
    assert actual.Of(Trigger) == actual.triggers && required.Of(Trigger) == required.triggers;
    if kind: Kind :| LacksDefinition(kind, normalize, actual.Of(kind), required.Of(kind), m) {
      match kind
      case Constraint =>
      case Index =>
      case Routine =>
      case Trigger =>
    }
  }

  /** A column is reported unless the required column itself is found. */
  lemma ColumnReportIff(t: string, actual: seq<Column>, c: Column)
    ensures ColumnReport(t, actual, c).None? <==> Find(actual, c.name) == Some(c)
  {}

  lemma NoTableLackedIff(actual: map<string, seq<Column>>, required: map<string, seq<Column>>)
    ensures (forall m :: !LacksTable(actual, required, m)) <==> HasTables(actual, required)
  {
    forall t | t in required ensures (forall m :: !TableLacks(t, actual, required[t], m)) <==> t in actual && HasColumns(actual[t], required[t]) {
      if t !in actual {
        assert TableLacks(t, actual, required[t], MissingTable(t));
      } else {
        forall c | c in required[t] ensures ColumnReport(t, actual[t], c).None? <==> Find(actual[t], c.name) == Some(c) {
          ColumnReportIff(t, actual[t], c);
        }
        if !HasColumns(actual[t], required[t]) {
          var c :| c in required[t] && Find(actual[t], c.name) != Some(c);
          assert TableLacks(t, actual, required[t], ColumnReport(t, actual[t], c).value);
        }
      }
    }
    hide TableLacks, HasColumns;
    if !HasTables(actual, required) {
      var t :| t in required && !(t in actual && HasColumns(actual[t], required[t]));
      var m :| TableLacks(t, actual, required[t], m);
      assert LacksTable(actual, required, m);
    }
  }

  lemma NothingLackedIff(normalize: Normalizer, actual: Snapshot, required: Snapshot)
    ensures (forall m :: !Lacks(normalize, actual, required, m)) <==> Satisfies(normalize, actual, required)
  {
    NoTableLackedIff(actual.tables, required.tables);
    hide LacksTable, HasTables, LacksDefinition, HasDefinitions;
    if forall m :: !Lacks(normalize, actual, required, m) {
      forall m ensures !LacksTable(actual.tables, required.tables, m) {
        assert !Lacks(normalize, actual, required, m);
      }
      forall kind: Kind ensures HasDefinitions(normalize, actual.Of(kind), required.Of(kind)) {
        NoDefinitionLackedIff(kind, normalize, actual.Of(kind), required.Of(kind));
        forall m ensures !LacksDefinition(kind, normalize, actual.Of(kind), required.Of(kind), m) {
          assert !Lacks(normalize, actual, required, m);
        }
      }
      forall e | e in required.extensions ensures e in actual.extensions {
        assert !Lacks(normalize, actual, required, MissingExtension(e));
      }
    } else {
      var m :| Lacks(normalize, actual, required, m);
      if kind: Kind :| LacksDefinition(kind, normalize, actual.Of(kind), required.Of(kind), m) {
        NoDefinitionLackedIff(kind, normalize, actual.Of(kind), required.Of(kind));
      }
    }
  }

  lemma NoDefinitionLackedIff(kind: Kind, normalize: Normalizer, actual: Definitions, required: Definitions)
    ensures (forall m :: !LacksDefinition(kind, normalize, actual, required, m)) <==> HasDefinitions(normalize, actual, required)
  {
    if !HasDefinitions(normalize, actual, required) {
      var name :| name in required && !(name in actual && normalize(actual[name]) == normalize(required[name]));
      assert LacksDefinition(kind, normalize, actual, required, DefinitionReport(kind, normalize, actual, required, name).value);
    }
  }

  // ----- what one migration adds

  /** The columns that are new or not the same as before, in their order. */
  function ChangedColumns(before: seq<Column>, after: seq<Column>): (changed: seq<Column>)
    ensures forall c :: c in changed <==> c in after && Find(before, c.name) != Some(c)
  {
    if after == [] then []
    else (if Find(before, after[0].name) == Some(after[0]) then [] else [after[0]]) + ChangedColumns(before, after[1..])
  }

  predicate TableChanged(before: map<string, seq<Column>>, after: map<string, seq<Column>>, t: string)
    requires t in after
  {
    t !in before || ChangedColumns(before[t], after[t]) != []
  }

  function DiffTables(before: map<string, seq<Column>>, after: map<string, seq<Column>>): map<string, seq<Column>> {
    map t | t in after && TableChanged(before, after, t) ::
      if t in before then ChangedColumns(before[t], after[t]) else after[t]
  }

  function DiffDefinitions(before: Definitions, after: Definitions): Definitions {
    map name | name in after && !(name in before && before[name] == after[name]) :: after[name]
  }

  /** What `diffSchemaSnapshots` computes. */
  function Diff(before: Snapshot, after: Snapshot): Snapshot {
    Snapshot(
      DiffTables(before.tables, after.tables),
      DiffDefinitions(before.constraints, after.constraints), DiffDefinitions(before.indexes, after.indexes),
      DiffDefinitions(before.functions, after.functions), DiffDefinitions(before.triggers, after.triggers),
      after.extensions - before.extensions)
  }

  method DiffMap(before: Definitions, after: Definitions) returns (out: Definitions)
    ensures out == DiffDefinitions(before, after)
  {
    out := map[];
    var left := after.Keys;
    while left != {}
      invariant left <= after.Keys
      invariant forall name :: name in out <==> name in after.Keys - left && !(name in before && before[name] == after[name])
      invariant forall name | name in out :: name in after && out[name] == after[name]
      decreases |left|
    {
      var name :| name in left;
      if name !in before || before[name] != after[name] {
        out := out[name := after[name]];
      }
      left := left - {name};
    }
  }

  method DiffSchemaSnapshots(before: Snapshot, after: Snapshot) returns (diff: Snapshot)
    ensures diff == Diff(before, after)
  {
    var tables: map<string, seq<Column>> := map[];
    ghost var expected := DiffTables(before.tables, after.tables);
    var left := after.tables.Keys;
    while left != {}
      invariant left <= after.tables.Keys
      invariant forall t :: t in tables <==> t in expected && t !in left
      invariant forall t | t in tables :: tables[t] == expected[t]
      decreases |left|
    {
      var t :| t in left;
      if t !in before.tables {
        tables := tables[t := after.tables[t]];
      } else {
        var newOrChangedColumns := ChangedColumns(before.tables[t], after.tables[t]);
        if newOrChangedColumns != [] {
          tables := tables[t := newOrChangedColumns];
        }
      }
      left := left - {t};
    }
    assert tables == expected;
    var constraints := DiffMap(before.constraints, after.constraints);
    var indexes := DiffMap(before.indexes, after.indexes);
    var functions := DiffMap(before.functions, after.functions);
    var triggers := DiffMap(before.triggers, after.triggers);
    diff := Snapshot(tables, constraints, indexes, functions, triggers, after.extensions - before.extensions);
  }

  predicate DistinctNames(columns: seq<Column>) {
    forall i, j | 0 <= i < j < |columns| :: columns[i].name != columns[j].name
  }

  /** As a database has them: no table with two columns of one name. */
  predicate WellFormed(s: Snapshot) {
    forall t | t in s.tables :: DistinctNames(s.tables[t])
  }

  lemma {:induction false} FindOwn(columns: seq<Column>, c: Column)
    requires DistinctNames(columns) && c in columns
    ensures Find(columns, c.name) == Some(c)
  {}

  /** What stayed as it was. */
  predicate KeepsColumns(actual: seq<Column>, before: seq<Column>, after: seq<Column>) {
    forall c | c in after && Find(before, c.name) == Some(c) :: Find(actual, c.name) == Some(c)
  }

  predicate KeepsTables(actual: map<string, seq<Column>>, before: map<string, seq<Column>>, after: map<string, seq<Column>>) {
    forall t | t in after && t in before :: t in actual && KeepsColumns(actual[t], before[t], after[t])
  }

  predicate KeepsDefinitions(normalize: Normalizer, actual: Definitions, before: Definitions, after: Definitions) {
    forall name | name in after && name in before && before[name] == after[name] ::
      name in actual && normalize(actual[name]) == normalize(after[name])
  }

  /** `actual` still has everything that a migration from `before` to `after` left alone. */
  predicate Keeps(normalize: Normalizer, actual: Snapshot, before: Snapshot, after: Snapshot) {
    && KeepsTables(actual.tables, before.tables, after.tables)
    && (forall kind: Kind :: KeepsDefinitions(normalize, actual.Of(kind), before.Of(kind), after.Of(kind)))
    && after.extensions * before.extensions <= actual.extensions
  }

  lemma TablesSplit(actual: map<string, seq<Column>>, before: map<string, seq<Column>>, after: map<string, seq<Column>>)
    ensures HasTables(actual, after) <==> KeepsTables(actual, before, after) && HasTables(actual, DiffTables(before, after))
  {}

  lemma DefinitionsSplit(normalize: Normalizer, actual: Definitions, before: Definitions, after: Definitions)
    ensures HasDefinitions(normalize, actual, after) <==>
            KeepsDefinitions(normalize, actual, before, after) && HasDefinitions(normalize, actual, DiffDefinitions(before, after))
  {}

  lemma DiffOf(before: Snapshot, after: Snapshot, kind: Kind)
    ensures Diff(before, after).Of(kind) == DiffDefinitions(before.Of(kind), after.Of(kind))
  {}

  /**
   * The difference leaves nothing out: any database has all of `after` exactly when it has the
   * difference and still has what the migration left alone.
   */
  lemma DiffIsExact(normalize: Normalizer, actual: Snapshot, before: Snapshot, after: Snapshot)
    ensures Satisfies(normalize, actual, after) <==>
            Satisfies(normalize, actual, Diff(before, after)) && Keeps(normalize, actual, before, after)
  {
    TablesSplit(actual.tables, before.tables, after.tables);
    forall kind: Kind ensures
      && Diff(before, after).Of(kind) == DiffDefinitions(before.Of(kind), after.Of(kind))
      && (HasDefinitions(normalize, actual.Of(kind), after.Of(kind)) <==>
          KeepsDefinitions(normalize, actual.Of(kind), before.Of(kind), after.Of(kind)) &&
          HasDefinitions(normalize, actual.Of(kind), DiffDefinitions(before.Of(kind), after.Of(kind))))
    {
      DefinitionsSplit(normalize, actual.Of(kind), before.Of(kind), after.Of(kind));
      DiffOf(before, after, kind);
    }
    hide HasTables, KeepsTables, HasDefinitions, KeepsDefinitions, DiffDefinitions, DiffTables, Snapshot.Of;
    assert after.extensions == (after.extensions - before.extensions) + after.extensions * before.extensions;
  }

  /** A database satisfies itself, and what a migration to it has added. */
  lemma AfterSatisfiesDiff(normalize: Normalizer, before: Snapshot, after: Snapshot)
    requires WellFormed(after)
    ensures Satisfies(normalize, after, after) && Satisfies(normalize, after, Diff(before, after))
  {
    forall t, c | t in after.tables && c in after.tables[t] ensures Find(after.tables[t], c.name) == Some(c) {
      FindOwn(after.tables[t], c);
    }
    assert HasTables(after.tables, after.tables);
    assert Satisfies(normalize, after, after) by {
      hide HasTables;
    }
    DiffIsExact(normalize, after, before, after);
  }
}
