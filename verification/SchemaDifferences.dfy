/** What a schema difference leaves out: it has nothing that was there before, and no exact one has less. */
module SchemaDifferences {
  import opened Wrappers
  import opened SchemaSnapshots

  const NOTHING: Snapshot := Snapshot(map[], map[], map[], map[], map[], {})

  lemma {:induction false} NoneChanged(before: seq<Column>, after: seq<Column>)
    requires forall c | c in after :: Find(before, c.name) == Some(c)
    ensures ChangedColumns(before, after) == []
  {
    if after != [] {
      NoneChanged(before, after[1..]);
    }
  }

  /** Nothing was added between two equal snapshots. */
  lemma SameHasNoDifference(s: Snapshot)
    requires WellFormed(s)
    ensures Diff(s, s) == NOTHING
  {
    forall t | t in s.tables ensures ChangedColumns(s.tables[t], s.tables[t]) == [] {
      forall c | c in s.tables[t] ensures Find(s.tables[t], c.name) == Some(c) {
        FindOwn(s.tables[t], c);
      }
      NoneChanged(s.tables[t], s.tables[t]);
    }
    hide Find, ChangedColumns, WellFormed;
  }

  /** The definition is in the snapshot, word for word. */
  predicate Defined(s: Snapshot, kind: Kind, name: string, definition: string) {
    name in s.Of(kind) && s.Of(kind)[name] == definition
  }

  predicate HasColumn(s: Snapshot, t: string, c: Column) {
    t in s.tables && c in s.tables[t]
  }

  /**
   * The difference has exactly what is in the later snapshot and was not in the earlier one: tables,
   * columns, definitions of the four kinds, and extensions. A table that was there is in it exactly if
   * one of its columns is.
   */
  lemma DifferenceIsNew(before: Snapshot, after: Snapshot)
    ensures var diff := Diff(before, after);
            && (forall kind: Kind, name, d :: Defined(diff, kind, name, d) <==> Defined(after, kind, name, d) && !Defined(before, kind, name, d))
            && (forall t, c :: HasColumn(diff, t, c) <==>
                  HasColumn(after, t, c) && (t in before.tables ==> Find(before.tables[t], c.name) != Some(c)))
            && (forall t :: t in diff.tables <==> t in after.tables && (t in before.tables ==> exists c :: HasColumn(diff, t, c)))
            && (forall e :: e in diff.extensions <==> e in after.extensions && e !in before.extensions)
  {
    var diff := Diff(before, after);
    forall kind: Kind, name, d
      ensures Defined(diff, kind, name, d) <==> Defined(after, kind, name, d) && !Defined(before, kind, name, d)
    {
      DiffOf(before, after, kind);
    }
    forall t | t in after.tables && t in before.tables
      ensures t in diff.tables <==> exists c :: HasColumn(diff, t, c)
    {
      var changed := ChangedColumns(before.tables[t], after.tables[t]);
      if changed != [] {
        assert HasColumn(diff, t, changed[0]);
      }
    }
  }

  // ----- columns stay in their order

  predicate Increasing(places: seq<nat>) {
    forall i, j | 0 <= i < j < |places| :: places[i] < places[j]
  }

  function Shifted(places: seq<nat>): (shifted: seq<nat>)
    ensures |shifted| == |places|
    ensures forall i | 0 <= i < |places| :: shifted[i] == places[i] + 1
  {
    seq(|places|, i requires 0 <= i < |places| => places[i] + 1)
  }

  lemma ShiftedMembers(places: seq<nat>, p: nat)
    ensures p in Shifted(places) <==> p > 0 && p - 1 in places
  {
    if p > 0 && p - 1 in places {
      var i :| 0 <= i < |places| && places[i] == p - 1;
      assert Shifted(places)[i] == p;
    }
  }

  /** The places of the new and changed columns. */
  function Places(before: seq<Column>, after: seq<Column>): seq<nat> {
    if after == [] then []
    else (if Find(before, after[0].name) == Some(after[0]) then [] else [0]) + Shifted(Places(before, after[1..]))
  }

  lemma PlacesCons(before: seq<Column>, after: seq<Column>, p: nat)
    requires after != []
    ensures p in Places(before, after) <==>
            if p == 0 then Find(before, after[0].name) != Some(after[0]) else p - 1 in Places(before, after[1..])
  {
    var rest := Places(before, after[1..]);
    ShiftedMembers(rest, p);
    assert Places(before, after) == (if Find(before, after[0].name) == Some(after[0]) then [] else [0]) + Shifted(rest);
    hide Find, Places, Shifted;
  }

  lemma {:induction false} PlacesIff(before: seq<Column>, after: seq<Column>, p: nat)
    ensures p in Places(before, after) <==> p < |after| && Find(before, after[p].name) != Some(after[p])
  {
    if after != [] {
      hide Find, Places;
      PlacesCons(before, after, p);
      if p > 0 {
        PlacesIff(before, after[1..], p - 1);
      }
    }
  }

  /** These columns stand at these places of the table, in order. */
  predicate StandAt(columns: seq<Column>, places: seq<nat>, table: seq<Column>) {
    && Increasing(places) && |columns| == |places|
    && forall i | 0 <= i < |places| :: places[i] < |table| && columns[i] == table[places[i]]
  }

  lemma StandBehind(columns: seq<Column>, places: seq<nat>, first: Column, rest: seq<Column>)
    requires StandAt(columns, places, rest)
    ensures StandAt(columns, Shifted(places), [first] + rest)
    ensures StandAt([first] + columns, [0] + Shifted(places), [first] + rest)
  {}

  /** The difference has a table's new and changed columns in the order of the table. */
  lemma {:induction false} ChangedInOrder(before: seq<Column>, after: seq<Column>)
    ensures StandAt(ChangedColumns(before, after), Places(before, after), after)
  {
    hide Find, StandAt;
    if after == [] {
      assert StandAt([], [], []) by {
        NothingStands();
      }
    } else {
      ChangedInOrder(before, after[1..]);
      StandBehind(ChangedColumns(before, after[1..]), Places(before, after[1..]), after[0], after[1..]);
      assert after == [after[0]] + after[1..];
      assert [] + Shifted(Places(before, after[1..])) == Shifted(Places(before, after[1..]));
      assert [] + ChangedColumns(before, after[1..]) == ChangedColumns(before, after[1..]);
    }
  }

  lemma NothingStands()
    ensures StandAt([], [], [])
  {}

  // ----- the least exact difference

  /** Whoever has `d` and what the migration left alone has all of `after`, and the other way round. */
  ghost predicate ExactFor(normalize: Normalizer, d: Snapshot, before: Snapshot, after: Snapshot) {
    forall actual :: Satisfies(normalize, actual, after) <==> Satisfies(normalize, actual, d) && Keeps(normalize, actual, before, after)
  }

  /** Everything of the difference, definitions up to their formatting, is in `d`. */
  ghost predicate Includes(normalize: Normalizer, d: Snapshot, diff: Snapshot) {
    && (forall t | t in diff.tables :: t in d.tables && forall c | c in diff.tables[t] :: c in d.tables[t])
    && (forall kind: Kind :: forall name | name in diff.Of(kind) ::
          name in d.Of(kind) && normalize(d.Of(kind)[name]) == normalize(diff.Of(kind)[name]))
    && diff.extensions <= d.extensions
  }

  function WithoutDefinition(s: Snapshot, kind: Kind, name: string): Snapshot {
    match kind
    case Constraint => s.(constraints := s.constraints - {name})
    case Index => s.(indexes := s.indexes - {name})
    case Routine => s.(functions := s.functions - {name})
    case Trigger => s.(triggers := s.triggers - {name})
  }

  lemma OthersStay(s: Snapshot, kind: Kind, name: string)
    ensures var t := WithoutDefinition(s, kind, name);
            && t.tables == s.tables && t.extensions == s.extensions
            && forall other: Kind :: t.Of(other) == if other == kind then s.Of(kind) - {name} else s.Of(other)
  {
    var t := WithoutDefinition(s, kind, name);
    forall other: Kind ensures t.Of(other) == if other == kind then s.Of(kind) - {name} else s.Of(other) {
      match kind
      case Constraint =>
      case Index =>
      case Routine =>
      case Trigger =>
    }
  }

  /** What `d` does not ask for, it does not miss. */
  lemma NotMissed(normalize: Normalizer, d: Snapshot, after: Snapshot, kind: Kind, name: string)
    requires Satisfies(normalize, after, d)
    ensures name !in d.Of(kind) ==> Satisfies(normalize, WithoutDefinition(after, kind, name), d)
  {
    var less := WithoutDefinition(after, kind, name);
    OthersStay(after, kind, name);
    hide WithoutDefinition, Snapshot.Of, HasTables;
    if name !in d.Of(kind) {
      forall other: Kind ensures HasDefinitions(normalize, less.Of(other), d.Of(other)) {
        assert HasDefinitions(normalize, after.Of(other), d.Of(other));
      }
    }
  }

  lemma StillKept(normalize: Normalizer, before: Snapshot, after: Snapshot, kind: Kind, name: string)
    requires WellFormed(after) && name in Diff(before, after).Of(kind)
    ensures Keeps(normalize, WithoutDefinition(after, kind, name), before, after)
    ensures !Satisfies(normalize, WithoutDefinition(after, kind, name), after)
  {
    var less := WithoutDefinition(after, kind, name);
    KeepsOwn(normalize, before, after);
    OthersStay(after, kind, name);
    DiffOf(before, after, kind);
    hide WithoutDefinition, Snapshot.Of, KeepsTables, HasTables, WellFormed, Diff;
    forall other: Kind ensures KeepsDefinitions(normalize, less.Of(other), before.Of(other), after.Of(other)) {
      assert KeepsDefinitions(normalize, after.Of(other), before.Of(other), after.Of(other));
    }
    assert !HasDefinitions(normalize, less.Of(kind), after.Of(kind));
  }

  lemma DefinitionIncluded(normalize: Normalizer, d: Snapshot, before: Snapshot, after: Snapshot, kind: Kind, name: string)
    requires WellFormed(after) && ExactFor(normalize, d, before, after) && name in Diff(before, after).Of(kind)
    ensures name in d.Of(kind) && normalize(d.Of(kind)[name]) == normalize(Diff(before, after).Of(kind)[name])
  {
    AfterSatisfiesDiff(normalize, before, after);
    KeepsOwn(normalize, before, after);
    NotMissed(normalize, d, after, kind, name);
    StillKept(normalize, before, after, kind, name);
    DiffOf(before, after, kind);
    hide Diff, Keeps, HasTables, WithoutDefinition, Snapshot.Of;
    assert HasDefinitions(normalize, after.Of(kind), d.Of(kind));
  }

  lemma KeepsOwn(normalize: Normalizer, before: Snapshot, after: Snapshot)
    requires WellFormed(after)
    ensures Keeps(normalize, after, before, after)
  {
    AfterSatisfiesDiff(normalize, before, after);
    DiffIsExact(normalize, after, before, after);
  }

  // ----- tables and columns

  function WithoutColumn(s: Snapshot, t: string, c: Column): Snapshot
    requires t in s.tables
  {
    s.(tables := s.tables[t := Dropped(s.tables[t], c.name)])
  }

  function Dropped(columns: seq<Column>, name: string): seq<Column> {
    if columns == [] then []
    else if columns[0].name == name then Dropped(columns[1..], name)
    else [columns[0]] + Dropped(columns[1..], name)
  }

  lemma {:induction false} FindDropped(columns: seq<Column>, name: string, other: string)
    ensures Find(Dropped(columns, name), other) == if other == name then None else Find(columns, other)
  {
    if columns != [] {
      FindDropped(columns[1..], name, other);
    }
  }

  lemma ColumnNotMissed(normalize: Normalizer, d: Snapshot, after: Snapshot, t: string, c: Column)
    requires Satisfies(normalize, after, d) && t in after.tables && Find(after.tables[t], c.name) == Some(c)
    ensures !(t in d.tables && c in d.tables[t]) ==> Satisfies(normalize, WithoutColumn(after, t, c), d)
  {
    var less := WithoutColumn(after, t, c);
    hide Find, Dropped, HasDefinitions;
    if !(t in d.tables && c in d.tables[t]) {
      forall u | u in d.tables ensures u in less.tables && HasColumns(less.tables[u], d.tables[u]) {
        assert HasColumns(after.tables[u], d.tables[u]);
        if u == t {
          forall x | x in d.tables[t] ensures Find(less.tables[t], x.name) == Some(x) {
            FindDropped(after.tables[t], c.name, x.name);
          }
        }
      }
      assert forall kind: Kind :: less.Of(kind) == after.Of(kind);
    }
  }

  lemma WithoutIsNotAll(normalize: Normalizer, after: Snapshot, t: string, c: Column)
    requires t in after.tables && c in after.tables[t]
    ensures !Satisfies(normalize, WithoutColumn(after, t, c), after)
  {
    var less := WithoutColumn(after, t, c);
    FindDropped(after.tables[t], c.name, c.name);
    hide Find, Dropped, HasDefinitions;
    assert !HasColumns(less.tables[t], after.tables[t]);
  }

  lemma OthersStillKept(normalize: Normalizer, before: Snapshot, after: Snapshot, t: string, c: Column)
    requires t in after.tables && Keeps(normalize, after, before, after)
    requires t in before.tables ==> Find(before.tables[t], c.name) != Some(c)
    requires Find(after.tables[t], c.name) == Some(c) && DistinctNames(after.tables[t]) && c in after.tables[t]
    ensures Keeps(normalize, WithoutColumn(after, t, c), before, after)
  {
    var less := WithoutColumn(after, t, c);
    hide Find, Dropped, HasDefinitions, KeepsDefinitions;
    forall u | u in after.tables && u in before.tables ensures u in less.tables && KeepsColumns(less.tables[u], before.tables[u], after.tables[u]) {
      assert KeepsColumns(after.tables[u], before.tables[u], after.tables[u]);
      if u == t {
        forall x | x in after.tables[t] && Find(before.tables[t], x.name) == Some(x) ensures Find(less.tables[t], x.name) == Some(x) {
          FindDropped(after.tables[t], c.name, x.name);
        }
      }
    }
    assert forall kind: Kind :: less.Of(kind) == after.Of(kind);
  }

  lemma ColumnStillKept(normalize: Normalizer, before: Snapshot, after: Snapshot, t: string, c: Column)
    requires WellFormed(after) && HasColumn(Diff(before, after), t, c)
    ensures t in after.tables && Find(after.tables[t], c.name) == Some(c)
    ensures Keeps(normalize, WithoutColumn(after, t, c), before, after)
    ensures !Satisfies(normalize, WithoutColumn(after, t, c), after)
  {
    DifferenceIsNew(before, after);
    assert HasColumn(after, t, c);
    FindOwn(after.tables[t], c);
    KeepsOwn(normalize, before, after);
    hide Find, Diff, Keeps, Satisfies, WithoutColumn;
    OthersStillKept(normalize, before, after, t, c);
    WithoutIsNotAll(normalize, after, t, c);
  }

  lemma ColumnIncluded(normalize: Normalizer, d: Snapshot, before: Snapshot, after: Snapshot, t: string, c: Column)
    requires WellFormed(after) && ExactFor(normalize, d, before, after) && HasColumn(Diff(before, after), t, c)
    ensures HasColumn(d, t, c)
  {
    AfterSatisfiesDiff(normalize, before, after);
    KeepsOwn(normalize, before, after);
    ColumnStillKept(normalize, before, after, t, c);
    ColumnNotMissed(normalize, d, after, t, c);
    hide Diff, Keeps, WithoutColumn;
  }

  lemma TableIncluded(normalize: Normalizer, d: Snapshot, before: Snapshot, after: Snapshot, t: string)
    requires WellFormed(after) && ExactFor(normalize, d, before, after) && t in Diff(before, after).tables
    ensures t in d.tables
  {
    DifferenceIsNew(before, after);
    if t in before.tables {
      var c :| HasColumn(Diff(before, after), t, c);
      ColumnIncluded(normalize, d, before, after, t, c);
    } else {
      AfterSatisfiesDiff(normalize, before, after);
      KeepsOwn(normalize, before, after);
      var less := after.(tables := after.tables - {t});
      hide Diff, HasDefinitions, KeepsDefinitions, HasColumns, KeepsColumns, WellFormed;
      assert forall kind: Kind :: less.Of(kind) == after.Of(kind);
      assert !Satisfies(normalize, less, after) && Keeps(normalize, less, before, after);
      assert Satisfies(normalize, after, d) && !Satisfies(normalize, less, d);
    }
  }

  lemma ExtensionIncluded(normalize: Normalizer, d: Snapshot, before: Snapshot, after: Snapshot, e: string)
    requires WellFormed(after) && ExactFor(normalize, d, before, after) && e in Diff(before, after).extensions
    ensures e in d.extensions
  {
    AfterSatisfiesDiff(normalize, before, after);
    KeepsOwn(normalize, before, after);
    var less := after.(extensions := after.extensions - {e});
    hide HasTables, KeepsTables, HasDefinitions, KeepsDefinitions, WellFormed;
    assert forall kind: Kind :: less.Of(kind) == after.Of(kind);
    assert !Satisfies(normalize, less, after) && Keeps(normalize, less, before, after);
    assert Satisfies(normalize, after, d) && !Satisfies(normalize, less, d);
  }

  /**
   * No exact difference is smaller: whatever snapshot does for every database what the difference does,
   * has all of the difference.
   */
  lemma DifferenceIsLeast(normalize: Normalizer, d: Snapshot, before: Snapshot, after: Snapshot)
    requires WellFormed(after) && ExactFor(normalize, d, before, after)
    ensures ExactFor(normalize, Diff(before, after), before, after) && Includes(normalize, d, Diff(before, after))
  {
    forall actual ensures Satisfies(normalize, actual, after) <==>
        Satisfies(normalize, actual, Diff(before, after)) && Keeps(normalize, actual, before, after) {
      DiffIsExact(normalize, actual, before, after);
    }
    var diff := Diff(before, after);
    forall t | t in diff.tables ensures t in d.tables && forall c | c in diff.tables[t] :: c in d.tables[t] {
      TableIncluded(normalize, d, before, after, t);
      forall c | c in diff.tables[t] ensures c in d.tables[t] {
        ColumnIncluded(normalize, d, before, after, t, c);
      }
    }
    forall kind: Kind, name | name in diff.Of(kind)
      ensures name in d.Of(kind) && normalize(d.Of(kind)[name]) == normalize(diff.Of(kind)[name])
    {
      DefinitionIncluded(normalize, d, before, after, kind, name);
    }
    forall e | e in diff.extensions ensures e in d.extensions {
      ExtensionIncluded(normalize, d, before, after, e);
    }
    hide Satisfies, Keeps, Diff;
  }
}
