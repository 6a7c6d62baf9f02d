/** What every plan says, incomplete and legacy ones included: which definite steps a
    uniquely matched pair of tables has, read off its declarations. */
module SchemaPartial {
  import opened Text
  import opened SchemaModel
  import opened SchemaDiff
  import opened SchemaMeaning
  import opened SchemaConstraints
  import opened SchemaTables
  import opened SchemaTheorems
  import SchemaAbsence

  // ---------------------------------------------------------------- matched tables

  predicate Identified(t: Table) {
    t.identity.state == Complete && SimpleName(t.identity.catalog) && SimpleName(t.identity.schema)
    && SimpleName(t.identity.name)
  }

  /** One name, in one known namespace or in none. */
  predicate SameObject(a: Table, b: Table) {
    && a.name == b.name && (Identified(a) <==> Identified(b))
    && (Identified(a) ==> a.identity.catalog == b.identity.catalog && a.identity.schema == b.identity.schema)
  }

  /** The context covers the table: its namespace as a whole, or by name. */
  predicate Placed(t: Table, context: Option<Context>) {
    context.Some? && var c := context.value;
    && c.coverage.identity == Complete && SimpleName(c.catalog) && SimpleName(c.schema)
    && (c.dialect == "mysql" || c.dialect == "postgres")
    && ((c.scope == "namespace" && c.tables == [])
        || (c.scope == "tables" && t.name in c.tables && SimpleAndDistinct(c.tables)))
    && Identified(t) && t.identity.name == t.name && t.identity.catalog == c.catalog && t.identity.schema == c.schema
  }

  predicate Legacy(t: Table) { t.identity == Identity("", "", "", Unset) }

  /** Tables i and j are each other's only partner, and may be compared. */
  predicate Met(current: Schema, desired: Schema, i: nat, j: nat) {
    && i < |current.tables| && j < |desired.tables| && SimpleName(desired.tables[j].name)
    && SameObject(current.tables[i], desired.tables[j])
    && (forall k :: 0 <= k < |current.tables| && SameObject(current.tables[k], desired.tables[j]) ==> k == i)
    && (forall k :: 0 <= k < |desired.tables| && SameObject(desired.tables[k], desired.tables[j]) ==> k == j)
    && ((Placed(current.tables[i], current.context) && Placed(desired.tables[j], desired.context))
        || (Legacy(current.tables[i]) && Legacy(desired.tables[j])))
  }

  lemma SameObjectIsSameKey(a: Table, b: Table)
    ensures SameObject(a, b) <==> TableKey(a) == TableKey(b)
  {
  }

  lemma PlacedIsInScope(t: Table, c: Option<Context>)
    ensures Placed(t, c) <==> InScope(t, c)
  {
    hide SimpleAndDistinct, SimpleName;
    if c.Some? && c.value.scope == "tables" && t.name in c.value.tables && SimpleAndDistinct(c.value.tables) {
      ListedIsSimple(c.value.tables, t.name);
    }
  }

  lemma ListedIsSimple(names: seq<string>, name: string)
    requires SimpleAndDistinct(names) && name in names
    ensures SimpleName(name)
  {
    hide SimpleName;
  }

  // ------------------------------------------------------------- where steps come from

  lemma {:induction false} DesiredColumnsIn(a: Table, b: Table, n: nat, s: Step)
    requires n <= |b.columns|
    ensures s in DesiredColumnsUpTo(a, b, n) <==> exists q :: 0 <= q < n && s in DesiredColumnSteps(a, b, b.columns[q])
  {
    hide DesiredColumnSteps;
    if n > 0 { DesiredColumnsIn(a, b, n - 1, s); }
  }

  lemma {:induction false} CurrentColumnsIn(a: Table, b: Table, n: nat, s: Step)
    requires n <= |a.columns|
    ensures s in CurrentColumnsUpTo(a, b, n) <==> exists q :: 0 <= q < n && s in CurrentColumnSteps(a, b, a.columns[q])
  {
    hide CurrentColumnSteps;
    if n > 0 { CurrentColumnsIn(a, b, n - 1, s); }
  }

  lemma {:induction false} DesiredIndexesIn(a: Table, b: Table, n: nat, s: Step)
    requires n <= |b.indexes|
    ensures s in DesiredIndexesUpTo(a, b, n) <==> exists q :: 0 <= q < n && s in DesiredIndexSteps(a, b, b.indexes[q])
  {
    hide DesiredIndexSteps;
    if n > 0 { DesiredIndexesIn(a, b, n - 1, s); }
  }

  lemma {:induction false} CurrentIndexesIn(a: Table, b: Table, n: nat, s: Step)
    requires n <= |a.indexes|
    ensures s in CurrentIndexesUpTo(a, b, n) <==> exists q :: 0 <= q < n && s in CurrentIndexSteps(a, b, a.indexes[q])
  {
    hide CurrentIndexSteps;
    if n > 0 { CurrentIndexesIn(a, b, n - 1, s); }
  }

  lemma {:induction false} AttachedIn(p: Pair, steps: seq<Step>, t: Step)
    ensures t in AttachAll(p, steps) <==> exists s :: s in steps && t == Attach(p, s)
  {
    hide Attach;
    if steps != [] {
      var n := |steps| - 1;
      AttachedIn(p, steps[..n], t);
      assert steps == steps[..n] + [steps[n]];
    }
  }

  lemma {:induction false} DesiredTablesIn(current: Schema, desired: Schema, n: nat, s: Step)
    requires n <= |desired.tables|
    ensures s in DesiredTablesUpTo(current, desired, n) <==>
            exists k :: 0 <= k < n && s in DesiredTableSteps(current, desired, k)
  {
    hide DesiredTableSteps;
    if n > 0 { DesiredTablesIn(current, desired, n - 1, s); }
  }

  lemma {:induction false} CurrentTablesIn(current: Schema, desired: Schema, n: nat, s: Step)
    requires n <= |current.tables|
    ensures s in CurrentTablesUpTo(current, desired, n) <==>
            exists k :: 0 <= k < n && s in CurrentTableSteps(current, desired, k)
  {
    hide CurrentTableSteps;
    if n > 0 { CurrentTablesIn(current, desired, n - 1, s); }
  }

  /** A definite step names its two tables by the definitions it carries. */
  predicate Definite(s: Step, a: Table, b: Table) {
    !s.unknown && s.currentTable == Some(a) && s.desiredTable == Some(b)
  }

  lemma {:induction false} OnlyPartner(tables: seq<Table>, i: nat, k: ObjectKey)
    requires i < |tables| && TableKey(tables[i]) == k
    requires forall j :: 0 <= j < |tables| && TableKey(tables[j]) == k ==> j == i
    ensures WithKey(tables, k) == [tables[i]] && WithKey(tables[..i], k) == []
  {
    hide TableKey;
    var n := |tables| - 1;
    if i == n {
      NoPartner(tables[..n], k);
    } else {
      OnlyPartner(tables[..n], i, k);
      assert tables[..n][..i] == tables[..i];
    }
  }

  lemma {:induction false} NoPartner(tables: seq<Table>, k: ObjectKey)
    requires forall j :: 0 <= j < |tables| ==> TableKey(tables[j]) != k
    ensures WithKey(tables, k) == []
  {
    hide TableKey;
    if tables != [] { NoPartner(tables[..|tables| - 1], k); }
  }

  lemma MetPartners(current: Schema, desired: Schema, i: nat, j: nat)
    requires Met(current, desired, i, j)
    ensures var k := TableKey(desired.tables[j]);
            && WithKey(current.tables, k) == [current.tables[i]] && WithKey(desired.tables, k) == [desired.tables[j]]
            && WithKey(desired.tables[..j], k) == []
  {
    hide TableKey, SameObject, Placed, SimpleName;
    var b := desired.tables[j];
    SameObjectIsSameKey(current.tables[i], b);
    forall m | 0 <= m < |current.tables| && TableKey(current.tables[m]) == TableKey(b) ensures m == i {
      SameObjectIsSameKey(current.tables[m], b);
    }
    forall m | 0 <= m < |desired.tables| && TableKey(desired.tables[m]) == TableKey(b) ensures m == j {
      SameObjectIsSameKey(desired.tables[m], b);
    }
    OnlyPartner(current.tables, i, TableKey(b));
    OnlyPartner(desired.tables, j, TableKey(b));
  }

  /** Definite steps of a matched pair: its local ones. */
  lemma MatchedIn(current: Schema, desired: Schema, a: Table, b: Table, s: Step)
    requires (InScope(a, current.context) && InScope(b, desired.context)) || (Legacy(a) && Legacy(b))
    requires !s.unknown
    ensures var p := PairOf(current, desired, a, b);
            s in MatchedSteps(current, desired, a, b) <==>
            s in AttachAll(p, DiffTable(a, b)) || s in DiffConstraints(p)
  {
    hide InScope, SameScope, CoverageKnown, AmbiguousConstraints, IncompleteIndexes, DiffTable, DiffConstraints,
         EffectiveCoverage, AttachAll;
    SchemaAbsence.IndexMarkers(Some(a), Some(b), a.indexes);
    SchemaAbsence.IndexMarkers(Some(a), Some(b), b.indexes);
  }

  lemma MatchedCarries(current: Schema, desired: Schema, a: Table, b: Table, s: Step)
    requires a in current.tables && b in desired.tables && TableKey(a) == TableKey(b)
    requires !s.unknown && s in MatchedSteps(current, desired, a, b)
    ensures s.currentTable == Some(a) && s.desiredTable == Some(b)
  {
    hide MatchedSteps, TableKey, DiffConstraints, InScope, SameScope, EffectiveCoverage;
    var p := PairOf(current, desired, a, b);
    MatchedAllGrounded(current, desired, a, b);
  }

  lemma MatchedAllGrounded(current: Schema, desired: Schema, a: Table, b: Table)
    ensures SchemaAbsence.AllGrounded(PairOf(current, desired, a, b), MatchedSteps(current, desired, a, b))
  {
    hide InScope, SameScope, CoverageKnown, AmbiguousConstraints, IncompleteIndexes, DiffTable, DiffConstraints,
         EffectiveCoverage, AttachAll, SchemaAbsence.PairGrounded;
    var p := PairOf(current, desired, a, b);
    SchemaAbsence.TableMissing(a, b);
    SchemaAbsence.AttachGrounds(p, DiffTable(a, b));
    SchemaAbsence.ConstraintsGrounded(p);
    SchemaAbsence.IndexMarkers(Some(a), Some(b), a.indexes);
    SchemaAbsence.IndexMarkers(Some(a), Some(b), b.indexes);
  }

  lemma OtherTables(current: Schema, desired: Schema, i: nat, j: nat, k: nat, s: Step)
    requires Met(current, desired, i, j) && k < |desired.tables| && s in DesiredTableSteps(current, desired, k)
    requires Definite(s, current.tables[i], desired.tables[j])
    ensures k == j
  {
    hide TableKey, SameObject, Placed, SimpleName, MatchedSteps, TableDiagnostics, Inventories, InScope;
    var next := desired.tables[k];
    var partners := WithKey(current.tables, TableKey(next));
    WithKeyMeans(current.tables, TableKey(next));
    DiagnosticsAreMarkers(next);
    if |partners| == 1 && s in MatchedSteps(current, desired, partners[0], next) {
      MatchedCarries(current, desired, partners[0], next, s);
      assert next == desired.tables[j];
      SameObjectIsSameKey(next, desired.tables[j]);
    }
  }

  lemma NotFromCurrent(current: Schema, desired: Schema, k: nat, s: Step)
    requires k < |current.tables| && s in CurrentTableSteps(current, desired, k)
    ensures s.unknown || s.desiredTable.None?
  {
    hide TableKey, TableDiagnostics, Inventories, InScope, WithKey;
    DiagnosticsAreMarkers(current.tables[k]);
  }

  /** A definite step of these two tables is in the plan exactly when it is one of the
      pair's local steps. */
  lemma PlanHas(current: Schema, desired: Schema, i: nat, j: nat, s: Step)
    requires Met(current, desired, i, j) && Definite(s, current.tables[i], desired.tables[j])
    ensures var p := PairOf(current, desired, current.tables[i], desired.tables[j]);
            s in DiffSteps(current, desired) <==>
            s in AttachAll(p, DiffTable(p.prev, p.next)) || s in DiffConstraints(p)
  {
    hide Met, SameObject, Placed, MatchedSteps, DesiredTablesUpTo, CurrentTablesUpTo, DesiredTableSteps,
         CurrentTableSteps, DiffTable, DiffConstraints, AttachAll, Inventories, ContextKnown, ContextCoverageKnown;
    MetSteps(current, desired, i, j);
    var a, b := current.tables[i], desired.tables[j];
    DesiredTablesIn(current, desired, |desired.tables|, s);
    CurrentTablesIn(current, desired, |current.tables|, s);
    forall k | 0 <= k < |current.tables| ensures s !in CurrentTableSteps(current, desired, k) {
      if s in CurrentTableSteps(current, desired, k) { NotFromCurrent(current, desired, k, s); }
    }
    forall k | 0 <= k < |desired.tables| && s in DesiredTableSteps(current, desired, k) ensures k == j {
      OtherTables(current, desired, i, j, k, s);
    }
    MatchedIn(current, desired, a, b, s);
  }

  lemma MetSteps(current: Schema, desired: Schema, i: nat, j: nat)
    requires Met(current, desired, i, j)
    ensures i < |current.tables| && j < |desired.tables|
    ensures var a, b := current.tables[i], desired.tables[j];
            && DesiredTableSteps(current, desired, j) == MatchedSteps(current, desired, a, b)
            && ((InScope(a, current.context) && InScope(b, desired.context)) || (Legacy(a) && Legacy(b)))
  {
    hide SameObject, Placed, MatchedSteps, TableKey, SimpleName, InScope;
    MetPartners(current, desired, i, j);
    PlacedIsInScope(current.tables[i], current.context);
    PlacedIsInScope(desired.tables[j], desired.context);
  }

  lemma MetBounds(current: Schema, desired: Schema, i: nat, j: nat)
    requires Met(current, desired, i, j)
    ensures i < |current.tables| && j < |desired.tables|
  {
    hide SameObject, Placed, Legacy, SimpleName;
  }

  // ------------------------------------------------------------------------- columns

  /** The only column of that key, under that simple name. */
  predicate Sole(cs: seq<Column>, p: nat, name: string) {
    && p < |cs| && cs[p].name == name && SimpleName(name)
    && forall k :: 0 <= k < |cs| && NameKey(cs[k].name) == name ==> k == p
  }

  predicate NoColumn(cs: seq<Column>, name: string) { forall k :: 0 <= k < |cs| ==> NameKey(cs[k].name) != name }

  lemma {:induction false} NoColumnFound(cs: seq<Column>, name: string)
    requires NoColumn(cs, name)
    ensures FindColumn(cs, name).None? && name !in BadColumns(cs)
  {
    hide NameKey, SimpleName;
    if cs != [] { NoColumnFound(cs[..|cs| - 1], name); }
  }

  lemma {:induction false} SoleFound(cs: seq<Column>, p: nat, name: string)
    requires Sole(cs, p, name)
    ensures FindColumn(cs, name) == Some(cs[p]) && name !in BadColumns(cs)
  {
    hide NameKey, SimpleName;
    SimpleNameIsItsKey(name);
    var n := |cs| - 1;
    if p == n {
      NoColumnFound(cs[..n], name);
    } else {
      SoleFound(cs[..n], p, name);
    }
  }

  /** The column or index a step is about. */
  predicate Labelled(s: Step, name: string) {
    if PartOf(s.kind) == IndexPart then s.index == name else s.column == name
  }

  predicate HasStep(steps: seq<Step>, kind: StepKind, a: Table, b: Table, name: string) {
    exists k :: 0 <= k < |steps| && Definite(steps[k], a, b) && steps[k].kind == kind && Labelled(steps[k], name)
  }

  predicate ColumnKind(k: StepKind) { PartOf(k) == ColumnPart }

  predicate LocalKind(k: StepKind) { PartOf(k) == ColumnPart || PartOf(k) == IndexPart }

  /** A definite column step of the local comparison, before tables are attached. */
  predicate Emits(steps: seq<Step>, kind: StepKind, name: string) {
    exists s :: s in steps && !s.unknown && s.kind == kind && Labelled(s, name)
  }

  predicate Downgraded(p: Pair, kind: StepKind) { Absent(p, kind) || (!p.scope && Collected(kind)) }

  lemma NoColumnConstraints(p: Pair, s: Step)
    requires s in DiffConstraints(p) && !s.unknown
    ensures !ColumnKind(s.kind) && PartOf(s.kind) != IndexPart
  {
    hide FkItems, CheckItems, CompareUpTo, UnknownItems;
    var pf, nf := FkItems(p.prev, p.prev.foreignKeys), FkItems(p.next, p.next.foreignKeys);
    var pc, nc := CheckItems(p.prev.checks), CheckItems(p.next.checks);
    MarkersOnly(p, pf);
    MarkersOnly(p, nf);
    MarkersOnly(p, pc);
    MarkersOnly(p, nc);
    ConstraintKinds(p, FOREIGN_KEYS, p.prevCoverage.foreignKeys == Complete, p.nextCoverage.foreignKeys == Complete,
        pf, nf, |nf + pf|);
    ConstraintKinds(p, CHECKS, p.prevCoverage.checks == Complete, p.nextCoverage.checks == Complete, pc, nc, |nc + pc|);
  }

  lemma {:induction false} MarkersOnly(p: Pair, items: seq<Item>)
    ensures AllUnknown(UnknownItems(p, items))
  {
    hide ItemKnown;
    if items != [] { MarkersOnly(p, items[..|items| - 1]); }
  }

  lemma PlanEmits(current: Schema, desired: Schema, i: nat, j: nat, kind: StepKind, name: string)
    requires Met(current, desired, i, j) && LocalKind(kind)
    ensures i < |current.tables| && j < |desired.tables|
    ensures var a, b := current.tables[i], desired.tables[j];
            HasStep(DiffSteps(current, desired), kind, a, b, name) <==>
            Emits(DiffTable(a, b), kind, name) && !Downgraded(PairOf(current, desired, a, b), kind)
  {
    hide Met, DiffSteps, DiffTable, PairOf, HasStep, Emits, Downgraded;
    MetBounds(current, desired, i, j);
    var a, b := current.tables[i], desired.tables[j];
    PairIsOfTables(current, desired, a, b);
    if Emits(DiffTable(a, b), kind, name) && !Downgraded(PairOf(current, desired, a, b), kind) {
      EmittedIsPlanned(current, desired, i, j, kind, name);
    }
    if HasStep(DiffSteps(current, desired), kind, a, b, name) {
      PlannedIsEmitted(current, desired, i, j, kind, name);
    }
  }

  lemma PairIsOfTables(current: Schema, desired: Schema, a: Table, b: Table)
    ensures PairOf(current, desired, a, b).prev == a && PairOf(current, desired, a, b).next == b
  {
  }

  lemma EmittedIsPlanned(current: Schema, desired: Schema, i: nat, j: nat, kind: StepKind, name: string)
    requires Met(current, desired, i, j) && i < |current.tables| && j < |desired.tables|
    requires Emits(DiffTable(current.tables[i], desired.tables[j]), kind, name)
    requires !Downgraded(PairOf(current, desired, current.tables[i], desired.tables[j]), kind)
    ensures HasStep(DiffSteps(current, desired), kind, current.tables[i], desired.tables[j], name)
  {
    hide Met, DiffSteps, DiffTable, DiffConstraints, AttachAll, PairOf;
    var a, b := current.tables[i], desired.tables[j];
    var p := PairOf(current, desired, a, b);
    PairIsOfTables(current, desired, a, b);
    var s :| s in DiffTable(a, b) && !s.unknown && s.kind == kind && Labelled(s, name);
    var t := Attach(p, s);
    AttachedIn(p, DiffTable(a, b), t);
    PlanHas(current, desired, i, j, t);
    var k :| 0 <= k < |DiffSteps(current, desired)| && DiffSteps(current, desired)[k] == t;
  }

  lemma PlannedIsEmitted(current: Schema, desired: Schema, i: nat, j: nat, kind: StepKind, name: string)
    requires Met(current, desired, i, j) && i < |current.tables| && j < |desired.tables| && LocalKind(kind)
    requires HasStep(DiffSteps(current, desired), kind, current.tables[i], desired.tables[j], name)
    ensures Emits(DiffTable(current.tables[i], desired.tables[j]), kind, name)
    ensures !Downgraded(PairOf(current, desired, current.tables[i], desired.tables[j]), kind)
  {
    hide Met, DiffSteps, DiffTable, DiffConstraints, AttachAll, PairOf;
    var a, b, steps := current.tables[i], desired.tables[j], DiffSteps(current, desired);
    var p := PairOf(current, desired, a, b);
    PairIsOfTables(current, desired, a, b);
    var k :| 0 <= k < |steps| && Definite(steps[k], a, b) && steps[k].kind == kind && Labelled(steps[k], name);
    PlanHas(current, desired, i, j, steps[k]);
    if steps[k] in DiffConstraints(p) { NoColumnConstraints(p, steps[k]); }
    AttachedIn(p, DiffTable(a, b), steps[k]);
    var s :| s in DiffTable(a, b) && steps[k] == Attach(p, s);
    assert !s.unknown && s.kind == kind && Labelled(s, name);
  }

  /** Column steps come from the columns, never from the indexes. */
  lemma ColumnStepsIn(a: Table, b: Table, s: Step)
    requires !s.unknown && ColumnKind(s.kind)
    ensures s in DiffTable(a, b) <==>
            s in DesiredColumnsUpTo(a, b, |b.columns|) || s in CurrentColumnsUpTo(a, b, |a.columns|)
  {
    hide DesiredColumnsUpTo, CurrentColumnsUpTo, DesiredIndexesUpTo, CurrentIndexesUpTo, AmbiguousColumns;
    IndexKinds(a, b, |b.indexes|, |a.indexes|);
  }

  lemma DesiredColumnNames(a: Table, b: Table, c: Column, s: Step)
    requires s in DesiredColumnSteps(a, b, c)
    ensures s.column == c.name && s.kind != DropColumn
  {
    hide NameKey, NormalizeType, ColumnDefault, AmbiguousColumns, FindColumn;
  }

  lemma CurrentColumnNames(a: Table, b: Table, c: Column, s: Step)
    requires s in CurrentColumnSteps(a, b, c)
    ensures s.column == c.name && (s.unknown || s.kind == DropColumn)
  {
    hide NameKey, ColumnDefault, AmbiguousColumns, FindColumn;
  }

  /** The steps of one desired column are those under its name. */
  lemma DesiredColumnEmits(a: Table, b: Table, q: nat, name: string, kind: StepKind)
    requires Sole(b.columns, q, name) && ColumnKind(kind) && kind != DropColumn
    ensures Emits(DiffTable(a, b), kind, name) <==> Emits(DesiredColumnSteps(a, b, b.columns[q]), kind, name)
  {
    hide DiffTable, DesiredColumnSteps, CurrentColumnSteps, SimpleName, NameKey, DesiredColumnsUpTo, CurrentColumnsUpTo;
    SimpleNameIsItsKey(name);
    forall s: Step | !s.unknown && s.kind == kind && s.column == name
      ensures s in DiffTable(a, b) <==> s in DesiredColumnSteps(a, b, b.columns[q])
    {
      ColumnStepsIn(a, b, s);
      DesiredColumnsIn(a, b, |b.columns|, s);
      CurrentColumnsIn(a, b, |a.columns|, s);
      forall k | 0 <= k < |b.columns| && s in DesiredColumnSteps(a, b, b.columns[k]) ensures k == q {
        DesiredColumnNames(a, b, b.columns[k], s);
      }
      forall k | 0 <= k < |a.columns| ensures s !in CurrentColumnSteps(a, b, a.columns[k]) {
        if s in CurrentColumnSteps(a, b, a.columns[k]) { CurrentColumnNames(a, b, a.columns[k], s); }
      }
    }
  }

  lemma CurrentColumnEmits(a: Table, b: Table, q: nat, name: string)
    requires Sole(a.columns, q, name)
    ensures Emits(DiffTable(a, b), DropColumn, name)
            <==> Emits(CurrentColumnSteps(a, b, a.columns[q]), DropColumn, name)
  {
    hide DiffTable, DesiredColumnSteps, CurrentColumnSteps, SimpleName, NameKey, DesiredColumnsUpTo, CurrentColumnsUpTo;
    SimpleNameIsItsKey(name);
    forall s: Step | !s.unknown && s.kind == DropColumn && s.column == name
      ensures s in DiffTable(a, b) <==> s in CurrentColumnSteps(a, b, a.columns[q])
    {
      ColumnStepsIn(a, b, s);
      DesiredColumnsIn(a, b, |b.columns|, s);
      CurrentColumnsIn(a, b, |a.columns|, s);
      forall k | 0 <= k < |b.columns| ensures s !in DesiredColumnSteps(a, b, b.columns[k]) {
        if s in DesiredColumnSteps(a, b, b.columns[k]) { DesiredColumnNames(a, b, b.columns[k], s); }
      }
      forall k | 0 <= k < |a.columns| && s in CurrentColumnSteps(a, b, a.columns[k]) ensures k == q {
        CurrentColumnNames(a, b, a.columns[k], s);
      }
    }
  }

  predicate DeclaresNoDefault(c: Column) { c.defaultState == DefaultNone && !c.hasDefault && c.defaultExpression == "" }

  predicate DeclaresDefault(c: Column) {
    (c.defaultState == DefaultUnset || c.defaultState == DefaultExpression) && c.hasDefault && c.defaultExpression != ""
  }

  /** Both defaults are known, and they differ. */
  predicate DefaultsDiffer(c: Column, d: Column) {
    || (DeclaresNoDefault(c) && DeclaresDefault(d)) || (DeclaresDefault(c) && DeclaresNoDefault(d))
    || (DeclaresDefault(c) && DeclaresDefault(d) && c.defaultExpression != d.defaultExpression)
  }

  lemma SharedSteps(a: Table, b: Table, p: nat, q: nat, name: string)
    requires Sole(a.columns, p, name) && Sole(b.columns, q, name)
    ensures DesiredColumnSteps(a, b, b.columns[q])
            == DefaultSteps(b.name, a.columns[p], b.columns[q]) + TypeSteps(b.name, a.columns[p], b.columns[q])
               + NullSteps(b.name, a.columns[p], b.columns[q])
  {
    hide NameKey, SimpleName, BadColumns, FindColumn, DefaultSteps, TypeSteps, NullSteps;
    SoleFound(a.columns, p, name);
    SoleFound(b.columns, q, name);
    SimpleNameIsItsKey(name);
  }

  lemma DefaultEmits(table: string, c: Column, d: Column, s: Step)
    requires s in DefaultSteps(table, c, d)
    ensures s.unknown || (s.kind == AlterColumnDefault && DefaultsDiffer(c, d))
  {
  }

  lemma DefaultIsEmitted(table: string, c: Column, d: Column)
    requires DefaultsDiffer(c, d)
    ensures Emits(DefaultSteps(table, c, d), AlterColumnDefault, d.name)
  {
    assert DefaultSteps(table, c, d)[0] in DefaultSteps(table, c, d);
  }

  lemma SharedColumnEmits(a: Table, b: Table, p: nat, q: nat, name: string)
    requires Sole(a.columns, p, name) && Sole(b.columns, q, name)
    ensures var c, d, steps := a.columns[p], b.columns[q], DesiredColumnSteps(a, b, b.columns[q]);
            && (Emits(steps, AlterColumnType, name) <==> NormalizeType(c.typ) != NormalizeType(d.typ))
            && (Emits(steps, AlterNullability, name) <==> c.nullable != d.nullable)
            && (Emits(steps, AlterColumnDefault, name) <==> DefaultsDiffer(c, d))
            && !Emits(steps, AddColumn, name)
  {
    hide NormalizeType, NameKey, SimpleName, DesiredColumnSteps, DefaultSteps, DefaultsDiffer;
    var c, d := a.columns[p], b.columns[q];
    SharedSteps(a, b, p, q, name);
    var x, y, z := DefaultSteps(b.name, c, d), TypeSteps(b.name, c, d), NullSteps(b.name, c, d);
    forall s | s in x ensures s.unknown || (s.kind == AlterColumnDefault && DefaultsDiffer(c, d)) {
      DefaultEmits(b.name, c, d, s);
    }
    if NormalizeType(c.typ) != NormalizeType(d.typ) { assert y[0] in x + y + z; }
    if c.nullable != d.nullable { assert z[0] in x + y + z; }
    if DefaultsDiffer(c, d) { DefaultIsEmitted(b.name, c, d); }
  }

  /** For every pair of schemas, partial and legacy ones included: a uniquely matched
      pair of tables has a definite type, nullability or default step for an unambiguous
      column of both exactly when the normalized types differ, the nullability differs,
      or both defaults are known and differ. */
  lemma SharedColumnExactly(current: Schema, desired: Schema, i: nat, j: nat, p: nat, q: nat, name: string)
    requires Met(current, desired, i, j)
    requires Sole(current.tables[i].columns, p, name) && Sole(desired.tables[j].columns, q, name)
    ensures var a, b, steps := current.tables[i], desired.tables[j], DiffSteps(current, desired);
            var c, d := a.columns[p], b.columns[q];
            && (HasStep(steps, AlterColumnType, a, b, name) <==> NormalizeType(c.typ) != NormalizeType(d.typ))
            && (HasStep(steps, AlterNullability, a, b, name) <==> c.nullable != d.nullable)
            && (HasStep(steps, AlterColumnDefault, a, b, name) <==> DefaultsDiffer(c, d))
            && !HasStep(steps, AddColumn, a, b, name) && !HasStep(steps, DropColumn, a, b, name)
  {
    hide Met, DiffSteps, DiffTable, DesiredColumnSteps, CurrentColumnSteps, NormalizeType, Sole, HasStep, Emits,
         PairOf, DefaultsDiffer, Downgraded;
    MetBounds(current, desired, i, j);
    var a, b := current.tables[i], desired.tables[j];
    AlterationsStay(PairOf(current, desired, a, b));
    SharedKind(current, desired, i, j, q, name, AlterColumnType);
    SharedKind(current, desired, i, j, q, name, AlterNullability);
    SharedKind(current, desired, i, j, q, name, AlterColumnDefault);
    SharedKind(current, desired, i, j, q, name, AddColumn);
    PlanEmits(current, desired, i, j, DropColumn, name);
    CurrentColumnEmits(a, b, p, name);
    SharedColumnEmits(a, b, p, q, name);
    SharedNotDropped(a, b, p, q, name);
  }

  lemma AlterationsStay(p: Pair)
    ensures !Downgraded(p, AlterColumnType) && !Downgraded(p, AlterNullability) && !Downgraded(p, AlterColumnDefault)
  {
  }

  lemma SharedKind(current: Schema, desired: Schema, i: nat, j: nat, q: nat, name: string, kind: StepKind)
    requires Met(current, desired, i, j) && i < |current.tables| && j < |desired.tables|
    requires Sole(desired.tables[j].columns, q, name) && ColumnKind(kind) && kind != DropColumn
    ensures var a, b := current.tables[i], desired.tables[j];
            HasStep(DiffSteps(current, desired), kind, a, b, name) <==>
            Emits(DesiredColumnSteps(a, b, b.columns[q]), kind, name)
            && !Downgraded(PairOf(current, desired, a, b), kind)
  {
    hide Met, DiffSteps, DiffTable, DesiredColumnSteps, Sole, HasStep, Emits, PairOf, Downgraded;
    PlanEmits(current, desired, i, j, kind, name);
    DesiredColumnEmits(current.tables[i], desired.tables[j], q, name, kind);
  }

  lemma SharedNotDropped(a: Table, b: Table, p: nat, q: nat, name: string)
    requires Sole(a.columns, p, name) && Sole(b.columns, q, name)
    ensures !Emits(CurrentColumnSteps(a, b, a.columns[p]), DropColumn, name)
  {
    hide NameKey, SimpleName, BadColumns, FindColumn;
    SoleFound(b.columns, q, name);
    SimpleNameIsItsKey(name);
  }

  /** Columns of this side are vouched for by the table and by its context. */
  predicate ColumnsVouched(t: Table, context: Option<Context>) {
    context.Some? && t.coverage.columns == Complete && context.value.coverage.columns == Complete
  }

  /** A definite new column appears exactly when the scopes are equal and the current
      side vouches for all its columns. */
  lemma NewColumnExactly(current: Schema, desired: Schema, i: nat, j: nat, q: nat, name: string)
    requires Met(current, desired, i, j)
    requires NoColumn(current.tables[i].columns, name) && Sole(desired.tables[j].columns, q, name)
    ensures HasStep(DiffSteps(current, desired), AddColumn, current.tables[i], desired.tables[j], name) <==>
            SameScope(current.context, desired.context) && ColumnsVouched(current.tables[i], current.context)
  {
    hide Met, DiffSteps, DiffTable, DesiredColumnSteps, Sole, NoColumn, HasStep, Emits, SameScope;
    MetBounds(current, desired, i, j);
    var a, b := current.tables[i], desired.tables[j];
    PlanEmits(current, desired, i, j, AddColumn, name);
    DesiredColumnEmits(a, b, q, name, AddColumn);
    NewColumnEmits(a, b, q, name);
  }

  lemma NewColumnEmits(a: Table, b: Table, q: nat, name: string)
    requires NoColumn(a.columns, name) && Sole(b.columns, q, name)
    ensures Emits(DesiredColumnSteps(a, b, b.columns[q]), AddColumn, name)
  {
    hide NameKey, SimpleName, BadColumns, FindColumn, ColumnDefault;
    NoColumnFound(a.columns, name);
    SoleFound(b.columns, q, name);
    SimpleNameIsItsKey(name);
    assert AddColumnStep(b.name, b.columns[q]) in DesiredColumnSteps(a, b, b.columns[q]);
  }

  /** And a definite dropped one exactly when the desired side does. */
  lemma GoneColumnExactly(current: Schema, desired: Schema, i: nat, j: nat, p: nat, name: string)
    requires Met(current, desired, i, j)
    requires Sole(current.tables[i].columns, p, name) && NoColumn(desired.tables[j].columns, name)
    ensures HasStep(DiffSteps(current, desired), DropColumn, current.tables[i], desired.tables[j], name) <==>
            SameScope(current.context, desired.context) && ColumnsVouched(desired.tables[j], desired.context)
  {
    hide Met, DiffSteps, DiffTable, CurrentColumnSteps, Sole, NoColumn, HasStep, Emits, SameScope;
    MetBounds(current, desired, i, j);
    var a, b := current.tables[i], desired.tables[j];
    PlanEmits(current, desired, i, j, DropColumn, name);
    CurrentColumnEmits(a, b, p, name);
    GoneColumnEmits(a, b, p, name);
  }

  lemma GoneColumnEmits(a: Table, b: Table, p: nat, name: string)
    requires Sole(a.columns, p, name) && NoColumn(b.columns, name)
    ensures Emits(CurrentColumnSteps(a, b, a.columns[p]), DropColumn, name)
  {
    hide NameKey, SimpleName, BadColumns, FindColumn, ColumnDefault;
    SoleFound(a.columns, p, name);
    NoColumnFound(b.columns, name);
    SimpleNameIsItsKey(name);
    assert Plain(DropColumn, b.name).(column := name) in CurrentColumnSteps(a, b, a.columns[p]);
  }
}
