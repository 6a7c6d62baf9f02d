/** The loops of columnMap, indexMap, ambiguousColumns, diffTable, diffConstraints and
    compareExtendedSchemas: maps filled and steps appended one declaration at a time,
    proved to produce exactly the steps of SchemaDiff. */
module SchemaLoops {
  import opened Text
  import opened SchemaModel
  import opened SchemaDiff

  lemma TakeOne<T>(s: seq<T>, i: nat)
    requires i < |s|
    ensures s[..i + 1] != [] && s[..i + 1][|s[..i + 1]| - 1] == s[i] && s[..i + 1][..|s[..i + 1]| - 1] == s[..i]
  {
  }

  lemma TakeAll<T>(s: seq<T>)
    ensures s[..|s|] == s && s[..0] == []
  {
  }

  method ColumnMap(columns: seq<Column>) returns (out: map<string, Column>)
    ensures forall k :: k in out <==> FindColumn(columns, k).Some?
    ensures forall k :: k in out ==> out[k] == FindColumn(columns, k).value
  {
    hide NameKey;
    out := map[];
    TakeAll(columns);
    for i := 0 to |columns|
      invariant forall k :: k in out <==> FindColumn(columns[..i], k).Some?
      invariant forall k :: k in out ==> out[k] == FindColumn(columns[..i], k).value
    {
      TakeOne(columns, i);
      out := out[NameKey(columns[i].name) := columns[i]];
    }
  }

  method IndexMap(indexes: seq<Index>) returns (out: map<string, Index>)
    ensures forall k :: k in out <==> FindIndex(indexes, k).Some?
    ensures forall k :: k in out ==> out[k] == FindIndex(indexes, k).value
  {
    hide NameKey;
    out := map[];
    TakeAll(indexes);
    for i := 0 to |indexes|
      invariant forall k :: k in out <==> FindIndex(indexes[..i], k).Some?
      invariant forall k :: k in out ==> out[k] == FindIndex(indexes[..i], k).value
    {
      TakeOne(indexes, i);
      out := out[NameKey(indexes[i].name) := indexes[i]];
    }
  }

  /** The inner loop of ambiguousColumns over one table. */
  method CollectBad(columns: seq<Column>) returns (bad: set<string>)
    ensures bad == BadColumns(columns)
  {
    hide NameKey, SimpleName;
    bad := {};
    var seen: set<string> := {};
    TakeAll(columns);
    for i := 0 to |columns|
      invariant bad == BadColumns(columns[..i])
      invariant forall k :: k in seen <==> FindColumn(columns[..i], k).Some?
    {
      TakeOne(columns, i);
      var k := NameKey(columns[i].name);
      if !SimpleName(columns[i].name) || k in seen { bad := bad + {k}; }
      seen := seen + {k};
    }
  }

  /** diffTable: four loops over declarations, one step list. */
  method DiffTableLoop(current: Table, desired: Table) returns (steps: seq<Step>)
    ensures steps == DiffTable(current, desired)
  {
    hide DesiredColumnsUpTo, CurrentColumnsUpTo, DesiredIndexesUpTo, CurrentIndexesUpTo, BadColumns, FindColumn,
         FindIndex, NameKey;
    var currentColumns := ColumnMap(current.columns);
    var desiredColumns := ColumnMap(desired.columns);
    var a := CollectBad(current.columns);
    var b := CollectBad(desired.columns);
    var bad := a + b;
    var head: seq<Step> := if bad != {} then [UnknownStep(desired.name, "", "")] else [];
    var wanted := WantedColumns(current, desired, currentColumns, bad);
    var left := LeftColumns(current, desired, desiredColumns, bad);
    var currentIndexes := IndexMap(current.indexes);
    var desiredIndexes := IndexMap(desired.indexes);
    var wantedIndexes := WantedIndexes(current, desired, currentIndexes);
    var leftIndexes := LeftIndexes(current, desired, desiredIndexes);
    return head + wanted + left + wantedIndexes + leftIndexes;
  }

  method WantedColumns(current: Table, desired: Table, currentColumns: map<string, Column>, bad: set<string>)
      returns (steps: seq<Step>)
    requires bad == AmbiguousColumns(current, desired)
    requires forall k :: k in currentColumns <==> FindColumn(current.columns, k).Some?
    requires forall k :: k in currentColumns ==> currentColumns[k] == FindColumn(current.columns, k).value
    ensures steps == DesiredColumnsUpTo(current, desired, |desired.columns|)
  {
    hide AmbiguousColumns, FindColumn, NameKey, ColumnDefault, DefaultSteps, TypeSteps, NullSteps;
    steps := [];
    for i := 0 to |desired.columns|
      invariant steps == DesiredColumnsUpTo(current, desired, i)
    {
      var column := desired.columns[i];
      var key := NameKey(column.name);
      var more: seq<Step> := [];
      if key !in bad {
        if key !in currentColumns {
          if ColumnDefault(column).state == DefaultUnknown { more := [UnknownStep(desired.name, column.name, "")]; }
          more := more + [AddColumnStep(desired.name, column)];
        } else {
          var prior := currentColumns[key];
          more := DefaultSteps(desired.name, prior, column) + TypeSteps(desired.name, prior, column)
              + NullSteps(desired.name, prior, column);
        }
      }
      assert more == DesiredColumnSteps(current, desired, column);
      steps := steps + more;
    }
  }

  method LeftColumns(current: Table, desired: Table, desiredColumns: map<string, Column>, bad: set<string>)
      returns (steps: seq<Step>)
    requires bad == AmbiguousColumns(current, desired)
    requires forall k :: k in desiredColumns <==> FindColumn(desired.columns, k).Some?
    ensures steps == CurrentColumnsUpTo(current, desired, |current.columns|)
  {
    hide AmbiguousColumns, FindColumn, NameKey, ColumnDefault;
    steps := [];
    for i := 0 to |current.columns|
      invariant steps == CurrentColumnsUpTo(current, desired, i)
    {
      var column := current.columns[i];
      var key := NameKey(column.name);
      var more: seq<Step> := [];
      if key !in bad && key !in desiredColumns {
        if ColumnDefault(column).state == DefaultUnknown { more := [UnknownStep(desired.name, column.name, "")]; }
        more := more + [Plain(DropColumn, desired.name).(column := column.name)];
      }
      assert more == CurrentColumnSteps(current, desired, column);
      steps := steps + more;
    }
  }

  method WantedIndexes(current: Table, desired: Table, currentIndexes: map<string, Index>) returns (steps: seq<Step>)
    requires forall k :: k in currentIndexes <==> FindIndex(current.indexes, k).Some?
    requires forall k :: k in currentIndexes ==> currentIndexes[k] == FindIndex(current.indexes, k).value
    ensures steps == DesiredIndexesUpTo(current, desired, |desired.indexes|)
  {
    hide FindIndex, NameKey, ValidIndex, EqualIndex, RawDiffers, UniqueIndexName;
    steps := [];
    for i := 0 to |desired.indexes|
      invariant steps == DesiredIndexesUpTo(current, desired, i)
    {
      var index := desired.indexes[i];
      var key := NameKey(index.name);
      var prior := if key in currentIndexes then Some(currentIndexes[key]) else None;
      assert prior == FindIndex(current.indexes, key);
      var more: seq<Step> := [];
      if !ValidIndex(index, desired) || (prior.Some? && !ValidIndex(prior.value, current)) {
        more := [UnknownStep(desired.name, "", index.name).(desiredIndex := Some(index), currentIndex := prior)];
        if prior.None? && UniqueIndexName(index, desired) { more := more + [AddIndexStep(desired.name, index)]; }
      } else if prior.None? {
        more := [AddIndexStep(desired.name, index)];
      } else if !EqualIndex(prior.value, index) {
        more := [Plain(AlterIndex, desired.name).(index := index.name, currentIndex := prior,
            desiredIndex := Some(index))];
      } else if RawDiffers(prior.value, index) {
        more := [UnknownStep(desired.name, "", index.name).(currentIndex := prior, desiredIndex := Some(index))];
      }
      assert more == DesiredIndexSteps(current, desired, index);
      steps := steps + more;
    }
  }

  method LeftIndexes(current: Table, desired: Table, desiredIndexes: map<string, Index>) returns (steps: seq<Step>)
    requires forall k :: k in desiredIndexes <==> FindIndex(desired.indexes, k).Some?
    ensures steps == CurrentIndexesUpTo(current, desired, |current.indexes|)
  {
    hide FindIndex, NameKey, ValidIndex, UniqueIndexName;
    steps := [];
    for i := 0 to |current.indexes|
      invariant steps == CurrentIndexesUpTo(current, desired, i)
    {
      var index := current.indexes[i];
      var more: seq<Step> := [];
      if NameKey(index.name) !in desiredIndexes {
        if ValidIndex(index, current) {
          more := [DropIndexStep(desired.name, index)];
        } else {
          more := [UnknownStep(desired.name, "", index.name).(currentIndex := Some(index))];
          if UniqueIndexName(index, current) { more := more + [DropIndexStep(desired.name, index)]; }
        }
      }
      assert more == CurrentIndexSteps(current, desired, index);
      steps := steps + more;
    }
  }

  // ----------------------------------------------------------------- constraints

  ghost predicate GroupsNames(m: map<string, seq<Item>>, items: seq<Item>) {
    forall name :: Named(items, name) == if name in m then m[name] else []
  }

  function Entry(m: map<string, seq<Item>>, name: string): seq<Item> { if name in m then m[name] else [] }

  method GroupByName(items: seq<Item>) returns (m: map<string, seq<Item>>)
    ensures GroupsNames(m, items)
  {
    m := map[];
    TakeAll(items);
    for i := 0 to |items|
      invariant GroupsNames(m, items[..i])
    {
      TakeOne(items, i);
      ghost var before := m;
      var name := items[i].name;
      m := m[name := Entry(m, name) + [items[i]]];
      GroupOneMore(before, items, i);
    }
  }

  lemma GroupOneMore(m: map<string, seq<Item>>, items: seq<Item>, i: nat)
    requires i < |items| && GroupsNames(m, items[..i])
    ensures GroupsNames(m[items[i].name := Entry(m, items[i].name) + [items[i]]], items[..i + 1])
  {
    TakeOne(items, i);
    var after := items[..i + 1];
    var m' := m[items[i].name := Entry(m, items[i].name) + [items[i]]];
    forall name ensures Named(after, name) == if name in m' then m'[name] else [] {
      assert Named(after, name) == Named(items[..i], name) + if items[i].name == name then [items[i]] else [];
    }
  }

  /** The closure compare of diffConstraints. */
  method Compare(p: Pair, f: Family, prevKnown: bool, nextKnown: bool, prior: seq<Item>, next: seq<Item>)
      returns (out: seq<Step>)
    ensures out == CompareItems(p, f, prevKnown, nextKnown, prior, next)
  {
    hide NameSteps, Named;
    var am := GroupByName(prior);
    var bm := GroupByName(next);
    var all := next + prior;
    var seen: set<string> := {};
    out := [];
    NothingSeen(all);
    for i := 0 to |all|
      invariant out == CompareUpTo(p, f, prevKnown, nextKnown, prior, next, i)
      invariant Seen(seen, all[..i])
    {
      var name := all[i].name;
      if name !in seen {
        NamedNonEmpty(prior, next, i);
        out := out + NameSteps(p, f, prevKnown, nextKnown, Entry(am, name), Entry(bm, name), name);
      }
      SeenOneMore(seen, all, i);
      seen := seen + {name};
    }
  }

  ghost predicate Seen(seen: set<string>, items: seq<Item>) {
    forall name :: name in seen <==> Named(items, name) != []
  }

  lemma NothingSeen(items: seq<Item>)
    ensures Seen({}, items[..0])
  {
    TakeAll(items);
  }

  lemma SeenOneMore(seen: set<string>, items: seq<Item>, i: nat)
    requires i < |items| && Seen(seen, items[..i])
    ensures Seen(seen + {items[i].name}, items[..i + 1])
    ensures items[i].name in seen <==> Named(items[..i], items[i].name) != []
  {
    TakeOne(items, i);
    var after := items[..i + 1];
    forall name ensures name in seen + {items[i].name} <==> Named(after, name) != [] {
      assert Named(after, name) == Named(items[..i], name) + if items[i].name == name then [items[i]] else [];
    }
  }

  /** diffConstraints: unknown definitions first, then the two families. */
  method DiffConstraintsLoop(p: Pair) returns (out: seq<Step>)
    ensures out == DiffConstraints(p)
  {
    hide CompareUpTo, UnknownItems, FkItems, CheckItems;
    var pf, nf := FkItems(p.prev, p.prev.foreignKeys), FkItems(p.next, p.next.foreignKeys);
    var pc, nc := CheckItems(p.prev.checks), CheckItems(p.next.checks);
    var a := UnknownLoop(p, pf);
    var b := UnknownLoop(p, pc);
    var c := UnknownLoop(p, nf);
    var d := UnknownLoop(p, nc);
    var e := Compare(p, FOREIGN_KEYS, p.prevCoverage.foreignKeys == Complete, p.nextCoverage.foreignKeys == Complete,
        pf, nf);
    var g := Compare(p, CHECKS, p.prevCoverage.checks == Complete, p.nextCoverage.checks == Complete, pc, nc);
    return a + b + c + d + e + g;
  }

  method UnknownLoop(p: Pair, items: seq<Item>) returns (out: seq<Step>)
    ensures out == UnknownItems(p, items)
  {
    hide ItemKnown;
    out := [];
    TakeAll(items);
    for i := 0 to |items|
      invariant out == UnknownItems(p, items[..i])
    {
      TakeOne(items, i);
      if !ItemKnown(items[i]) { out := out + [TableUnknown(Some(p.prev), Some(p.next))]; }
    }
  }

  // ---------------------------------------------------------------- whole schemas

  ghost predicate GroupsTables(m: map<ObjectKey, seq<Table>>, tables: seq<Table>) {
    forall k :: WithKey(tables, k) == if k in m then m[k] else []
  }

  function Partners(m: map<ObjectKey, seq<Table>>, k: ObjectKey): seq<Table> { if k in m then m[k] else [] }

  method GroupByKey(tables: seq<Table>) returns (m: map<ObjectKey, seq<Table>>)
    ensures GroupsTables(m, tables)
  {
    hide TableKey;
    m := map[];
    TakeAll(tables);
    for i := 0 to |tables|
      invariant GroupsTables(m, tables[..i])
    {
      TablesOneMore(m, tables, i);
      var k := TableKey(tables[i]);
      m := m[k := Partners(m, k) + [tables[i]]];
    }
  }

  lemma TablesOneMore(m: map<ObjectKey, seq<Table>>, tables: seq<Table>, i: nat)
    requires i < |tables| && GroupsTables(m, tables[..i])
    ensures GroupsTables(m[TableKey(tables[i]) := Partners(m, TableKey(tables[i])) + [tables[i]]], tables[..i + 1])
  {
    hide TableKey;
    TakeOne(tables, i);
    var after := tables[..i + 1];
    var m' := m[TableKey(tables[i]) := Partners(m, TableKey(tables[i])) + [tables[i]]];
    forall k ensures WithKey(after, k) == if k in m' then m'[k] else [] {
      assert WithKey(after, k) == WithKey(tables[..i], k) + if TableKey(tables[i]) == k then [tables[i]] else [];
    }
  }

  ghost predicate Handled(handled: set<ObjectKey>, tables: seq<Table>) {
    forall k :: k in handled <==> WithKey(tables, k) != []
  }

  lemma HandledOneMore(handled: set<ObjectKey>, tables: seq<Table>, i: nat)
    requires i < |tables| && Handled(handled, tables[..i])
    ensures Handled(handled + {TableKey(tables[i])}, tables[..i + 1])
    ensures TableKey(tables[i]) in handled <==> WithKey(tables[..i], TableKey(tables[i])) != []
  {
    hide TableKey;
    TakeOne(tables, i);
    var after := tables[..i + 1];
    forall k ensures k in handled + {TableKey(tables[i])} <==> WithKey(after, k) != [] {
      assert WithKey(after, k) == WithKey(tables[..i], k) + if TableKey(tables[i]) == k then [tables[i]] else [];
    }
  }

  /** The body of the first loop for two matched tables. */
  method MatchedLoop(current: Schema, desired: Schema, prev: Table, next: Table, scope: bool) returns (steps: seq<Step>)
    requires scope == SameScope(current.context, desired.context)
    ensures steps == MatchedSteps(current, desired, prev, next)
  {
    hide SameScope, InScope, CoverageKnown, AmbiguousConstraints, EffectiveCoverage, DiffTable, DiffConstraints,
         AttachAll, IncompleteIndexes;
    var known := InScope(prev, current.context) && InScope(next, desired.context);
    var legacy := prev.identity == NO_IDENTITY && next.identity == NO_IDENTITY;
    var both := TableUnknown(Some(prev), Some(next));
    if !known && !legacy { return [both]; }
    var head: seq<Step> := if !known || !scope || !CoverageKnown(prev.coverage) || !CoverageKnown(next.coverage)
        then [both] else [];
    var x := IncompleteLoop(Some(prev), Some(next), prev.indexes);
    var y := IncompleteLoop(Some(prev), Some(next), next.indexes);
    var p := Pair(prev, next, scope, EffectiveCoverage(prev.coverage, current.context),
        EffectiveCoverage(next.coverage, desired.context));
    var ambiguous: seq<Step> := if AmbiguousConstraints(prev) || AmbiguousConstraints(next) then [both] else [];
    var local := DiffTableLoop(prev, next);
    var attached := AttachLoop(p, local);
    var constraints := DiffConstraintsLoop(p);
    return head + x + y + ambiguous + attached + constraints;
  }

  method IncompleteLoop(a: Option<Table>, b: Option<Table>, indexes: seq<Index>) returns (out: seq<Step>)
    ensures out == IncompleteIndexes(a, b, indexes)
  {
    out := [];
    TakeAll(indexes);
    for i := 0 to |indexes|
      invariant out == IncompleteIndexes(a, b, indexes[..i])
    {
      TakeOne(indexes, i);
      if indexes[i].attributes != Complete { out := out + [TableUnknown(a, b)]; }
    }
  }

  method AttachLoop(p: Pair, local: seq<Step>) returns (out: seq<Step>)
    ensures out == AttachAll(p, local)
  {
    out := [];
    TakeAll(local);
    for i := 0 to |local|
      invariant out == AttachAll(p, local[..i])
    {
      TakeOne(local, i);
      var s := local[i].(currentTable := Some(p.prev), desiredTable := Some(p.next));
      if Absent(p, s.kind) || (!p.scope && Collected(s.kind)) { s := s.(unknown := true, kind := UnsupportedStep); }
      out := out + [s];
    }
  }

  /** compareExtendedSchemas: header, desired tables, then tables left over. */
  method CompareExtendedSchemas(current: Schema, desired: Schema) returns (steps: seq<Step>)
    ensures steps == DiffSteps(current, desired)
  {
    hide DesiredTablesUpTo, CurrentTablesUpTo, HeaderSteps, GroupsTables;
    var a := GroupByKey(current.tables);
    var b := GroupByKey(desired.tables);
    var wanted := DesiredTablesLoop(current, desired, a, b);
    var left := CurrentTablesLoop(current, desired, a, b);
    return HeaderSteps(current, desired) + wanted + left;
  }

  method DesiredTablesLoop(current: Schema, desired: Schema, a: map<ObjectKey, seq<Table>>, b: map<ObjectKey,
      seq<Table>>) returns (steps: seq<Step>)
    requires GroupsTables(a, current.tables) && GroupsTables(b, desired.tables)
    ensures steps == DesiredTablesUpTo(current, desired, |desired.tables|)
  {
    hide TableKey, WithKey, MatchedSteps, WholeTable, SimpleName, Inventories, InScope, SameScope;
    steps := [];
    var handled: set<ObjectKey> := {};
    NothingHandled(desired.tables);
    var scope := SameScope(current.context, desired.context);
    for i := 0 to |desired.tables|
      invariant steps == DesiredTablesUpTo(current, desired, i)
      invariant Handled(handled, desired.tables[..i])
    {
      var next := desired.tables[i];
      var k := TableKey(next);
      HandledOneMore(handled, desired.tables, i);
      var more: seq<Step> := [];
      if k !in handled {
        var partners := Partners(a, k);
        if |Partners(b, k)| != 1 || |partners| > 1 || !SimpleName(next.name) {
          more := [TableUnknown(None, Some(next))];
        } else if |partners| == 1 {
          more := MatchedLoop(current, desired, partners[0], next, scope);
        } else {
          more := WholeTable(AddTable, Inventories(current, desired) && InScope(next, desired.context), next);
        }
      }
      handled := handled + {k};
      assert more == DesiredTableSteps(current, desired, i);
      steps := steps + more;
    }
  }

  lemma NothingHandled(tables: seq<Table>)
    ensures Handled({}, tables[..0])
  {
    TakeAll(tables);
  }

  method CurrentTablesLoop(current: Schema, desired: Schema, a: map<ObjectKey, seq<Table>>, b: map<ObjectKey,
      seq<Table>>) returns (steps: seq<Step>)
    requires GroupsTables(a, current.tables) && GroupsTables(b, desired.tables)
    ensures steps == CurrentTablesUpTo(current, desired, |current.tables|)
  {
    hide TableKey, WithKey, WholeTable, Inventories, InScope;
    steps := [];
    var handled: set<ObjectKey> := {};
    NothingHandled(current.tables);
    for i := 0 to |current.tables|
      invariant steps == CurrentTablesUpTo(current, desired, i)
      invariant Handled(handled, current.tables[..i])
    {
      var prev := current.tables[i];
      var k := TableKey(prev);
      HandledOneMore(handled, current.tables, i);
      var more: seq<Step> := [];
      if Partners(b, k) == [] && k !in handled {
        more := WholeTable(DropTable, |Partners(a, k)| == 1 && Inventories(current, desired)
            && InScope(prev, current.context), prev);
      }
      handled := handled + {k};
      assert more == CurrentTableSteps(current, desired, i);
      steps := steps + more;
    }
  }

  datatype Report = Report(steps: seq<Step>, incomplete: bool, drifted: bool)

  /** CompareSchemaDrift: the flags are computed by a loop over the steps. */
  method CompareSchemaDrift(desired: Schema, current: Schema) returns (report: Report)
    ensures report == Report(DiffSteps(current, desired), Incomplete(DiffSteps(current, desired)),
            Drifted(DiffSteps(current, desired)))
  {
    hide DiffSteps;
    var steps := CompareExtendedSchemas(current, desired);
    var incomplete, drifted := false, false;
    for i := 0 to |steps|
      invariant incomplete <==> exists k :: 0 <= k < i && steps[k].unknown
      invariant drifted <==> exists k :: 0 <= k < i && !steps[k].unknown
    {
      if steps[i].unknown { incomplete := true; } else { drifted := true; }
    }
    return Report(steps, incomplete, drifted);
  }
}
