/** Complete definitions leave nothing unknown but contradictory raw texts; then the
    plan is empty exactly when the schemas agree, which is what Drifted reports. */
module SchemaComplete {
  import opened Text
  import opened SchemaModel
  import opened SchemaDiff
  import opened SchemaMeaning
  import opened SchemaColumns
  import opened SchemaIndexes
  import opened SchemaConstraints
  import opened SchemaTables
  import opened SchemaTheorems

  predicate ItemsUsable(items: seq<Item>) { forall i :: 0 <= i < |items| ==> items[i].valid && ItemKnown(items[i]) }

  predicate TableComplete(t: Table, c: Option<Context>) {
    && InScope(t, c) && CoverageKnown(t.coverage) && BadColumns(t.columns) == {} && !AmbiguousConstraints(t)
    && DefaultsKnown(t.columns) && IndexesValid(t)
    && ItemsUsable(FkItems(t, t.foreignKeys)) && ItemsUsable(CheckItems(t.checks))
  }

  /** schemaDefinitionComplete. */
  predicate DefinitionComplete(s: Schema) {
    && InventoryComplete(s.context) && ContextCoverageKnown(s.context)
    && (forall i :: 0 <= i < |s.tables| ==> TableComplete(s.tables[i], s.context))
    && (forall i, j :: 0 <= i < j < |s.tables| ==> TableKey(s.tables[i]) != TableKey(s.tables[j]))
  }

  // ---------------------------------------------------------- one complete table

  lemma UsableMeans(t: Table)
    requires ItemsUsable(FkItems(t, t.foreignKeys)) && ItemsUsable(CheckItems(t.checks))
    ensures AllValid(FkItems(t, t.foreignKeys)) && AllValid(CheckItems(t.checks)) && FamiliesKnown(t)
  {
    hide ItemKnown;
    var f, c := FkItems(t, t.foreignKeys), CheckItems(t.checks);
    forall i | 0 <= i < |f| ensures f[i].valid && SimpleName(f[i].name) {
      FkItemsPlain(t, t.foreignKeys, i);
      ValidNames(t, t.foreignKeys[i]);
    }
    forall i | 0 <= i < |c| ensures c[i].valid && SimpleName(c[i].name) {
      CheckItemsPlain(t.checks, i);
      ValidCheckName(t.checks[i]);
    }
  }

  lemma ValidNames(t: Table, f: ForeignKey)
    ensures FkItem(t, f).valid ==> SimpleName(f.name)
  {
    hide SimpleName, KnownColumns, IdentityKnown, SimpleAndDistinct;
  }

  lemma ValidCheckName(c: Check)
    ensures CheckItem(c).valid ==> SimpleName(c.name)
  {
    hide SimpleName;
  }

  predicate FullCoverage(c: SchemaCoverage) {
    c.columns == Complete && c.indexes == Complete && c.foreignKeys == Complete && c.checks == Complete
  }

  lemma {:induction false} AttachKnown(p: Pair, steps: seq<Step>)
    requires p.scope && FullCoverage(p.prevCoverage) && FullCoverage(p.nextCoverage)
    ensures NoUnknown(AttachAll(p, steps)) <==> NoUnknown(steps)
  {
    if steps != [] {
      var init, s := steps[..|steps| - 1], steps[|steps| - 1];
      AttachKnown(p, init);
      assert Attach(p, s).unknown == s.unknown;
      NoUnknownAppend(AttachAll(p, init), [Attach(p, s)]);
      MarkerKnown(true, Attach(p, s));
      MarkerKnown(true, s);
      NoUnknownAppend(init, [s]);
      assert init + [s] == steps;
    }
  }

  lemma DiffTableKnown(a: Table, b: Table)
    requires BadColumns(a.columns) == {} && BadColumns(b.columns) == {} && DefaultsKnown(a.columns)
             && DefaultsKnown(b.columns)
    requires IndexesValid(a) && IndexesValid(b)
    ensures NoUnknown(DiffTable(a, b)) <==> RawConsistent(a, b)
  {
    hide BadColumns, DefaultsKnown, IndexesValid, RawConsistent, IndexSteps, DesiredColumnsUpTo, CurrentColumnsUpTo,
         DiffTable;
    DiffTableParts(a, b);
    KnownColumnsUpTo(a, b, |b.columns|, |a.columns|);
    NoUnknownAppend(DesiredColumnsUpTo(a, b, |b.columns|), CurrentColumnsUpTo(a, b, |a.columns|));
    KnownIffRawConsistent(a, b);
    assert AmbiguityMark(a, b) == [];
    NoUnknownAppend(AmbiguityMark(a, b) + ColumnSteps(a, b), IndexSteps(a, b));
    NoUnknownAppend(AmbiguityMark(a, b), ColumnSteps(a, b));
  }

  lemma DiffConstraintsKnown(p: Pair)
    requires p.scope && FullCoverage(p.prevCoverage) && FullCoverage(p.nextCoverage)
    requires !AmbiguousConstraints(p.prev) && !AmbiguousConstraints(p.next)
    requires ItemsUsable(FkItems(p.prev, p.prev.foreignKeys)) && ItemsUsable(CheckItems(p.prev.checks))
    requires ItemsUsable(FkItems(p.next, p.next.foreignKeys)) && ItemsUsable(CheckItems(p.next.checks))
    ensures NoUnknown(DiffConstraints(p))
  {
    hide ItemsUsable, AmbiguousConstraints, FkItems, CheckItems, AllKnown, AllValid, CompareUpTo, DiffConstraints;
    UsableMeans(p.prev);
    UsableMeans(p.next);
    DiffConstraintsParts(p);
    var pf, nf := FamilyItems(FOREIGN_KEYS, p.prev), FamilyItems(FOREIGN_KEYS, p.next);
    var pc, nc := FamilyItems(CHECKS, p.prev), FamilyItems(CHECKS, p.next);
    KnownUpTo(p, FOREIGN_KEYS, pf, nf, |nf + pf|);
    KnownUpTo(p, CHECKS, pc, nc, |nc + pc|);
    NoUnknownAppend(FamilySteps(p, FOREIGN_KEYS), FamilySteps(p, CHECKS));
  }

  lemma CompletePairKnown(current: Schema, desired: Schema, prev: Table, next: Table)
    requires SameScope(current.context, desired.context) && ContextCoverageKnown(current.context)
             && ContextCoverageKnown(desired.context)
    requires TableComplete(prev, current.context) && TableComplete(next, desired.context)
    ensures NoUnknown(MatchedSteps(current, desired, prev, next)) <==> RawConsistent(prev, next)
  {
    hide SameScope, InScope, RawConsistent, AmbiguousConstraints, ItemsUsable, DefaultsKnown, BadColumns,
         IndexesValid, FkItems, CheckItems, MatchedSteps, DiffTable, DiffConstraints;
    var p := PairOf(current, desired, prev, next);
    ValidAttributes(prev);
    ValidAttributes(next);
    MatchedMeans(current, desired, prev, next);
    AttachKnown(p, DiffTable(prev, next));
    DiffTableKnown(prev, next);
    DiffConstraintsKnown(p);
    NoUnknownAppend(AttachAll(p, DiffTable(prev, next)), DiffConstraints(p));
  }

  lemma ValidAttributes(t: Table)
    requires IndexesValid(t)
    ensures AttributesComplete(t.indexes)
  {
    hide ValidIndex;
  }

  lemma {:induction false} NoUnknownDefaults(t: Table, cs: seq<Column>)
    requires DefaultsKnown(cs)
    ensures UnknownDefaults(t, cs) == []
  {
    hide ColumnDefault;
    if cs != [] { NoUnknownDefaults(t, cs[..|cs| - 1]); }
  }

  lemma {:induction false} NoInvalidIndexes(t: Table, xs: seq<Index>)
    requires forall i :: 0 <= i < |xs| ==> ValidIndex(xs[i], t)
    ensures InvalidIndexes(t, xs) == []
  {
    hide ValidIndex;
    if xs != [] { NoInvalidIndexes(t, xs[..|xs| - 1]); }
  }

  lemma {:induction false} NoInvalidItems(t: Table, items: seq<Item>)
    requires ItemsUsable(items)
    ensures InvalidItems(t, items) == []
  {
    hide ItemKnown;
    if items != [] { NoInvalidItems(t, items[..|items| - 1]); }
  }

  lemma NoDiagnostics(t: Table, c: Option<Context>)
    requires TableComplete(t, c)
    ensures TableDiagnostics(t) == [] && SimpleName(t.name)
  {
    hide CoverageKnown, BadColumns, AmbiguousConstraints, DefaultsKnown, ItemsUsable, FkItems, CheckItems, ValidIndex,
         IdentityKnown, SimpleName, ContextKnown,
         UnknownDefaults, InvalidIndexes, InvalidItems, IncompleteIndexes;
    assert BadColumns([]) == {} by { NoBadColumns(); }
    NoUnknownDefaults(t, t.columns);
    NoInvalidIndexes(t, t.indexes);
    IncompleteIndexesMeans(None, Some(t), t.indexes);
    NoInvalidItems(t, FkItems(t, t.foreignKeys));
    NoInvalidItems(t, CheckItems(t.checks));
  }

  lemma NoBadColumns()
    ensures BadColumns([]) == {}
  {
  }

  // --------------------------------------------------------------- whole schemas

  lemma {:induction false} UniqueKey(tables: seq<Table>, k: ObjectKey)
    requires forall i, j :: 0 <= i < j < |tables| ==> TableKey(tables[i]) != TableKey(tables[j])
    ensures |WithKey(tables, k)| <= 1
  {
    hide TableKey;
    if tables != [] {
      var init := tables[..|tables| - 1];
      UniqueKey(init, k);
      if WithKey(init, k) != [] { var m := FirstWithKey(init, k); }
    }
  }

  /** Partners never contradict each other's raw index texts. */
  predicate RawTextsAgree(current: Schema, desired: Schema) {
    forall i, j :: 0 <= i < |current.tables| && 0 <= j < |desired.tables|
        && TableKey(current.tables[i]) == TableKey(desired.tables[j])
      ==> RawConsistent(current.tables[i], desired.tables[j])
  }

  predicate RawTextsAgreeAt(current: Schema, desired: Schema, n: nat)
    requires n < |desired.tables|
  {
    forall i :: 0 <= i < |current.tables| && TableKey(current.tables[i]) == TableKey(desired.tables[n])
        ==> RawConsistent(current.tables[i], desired.tables[n])
  }

  predicate Comparable(current: Schema, desired: Schema) {
    DefinitionComplete(current) && DefinitionComplete(desired) && SameScope(current.context, desired.context)
  }

  lemma KnownDesiredTable(current: Schema, desired: Schema, n: nat)
    requires Comparable(current, desired) && n < |desired.tables|
    ensures NoUnknown(DesiredTableSteps(current, desired, n)) <==> RawTextsAgreeAt(current, desired, n)
  {
    hide TableKey, WithKey, MatchedSteps, WholeTable, SimpleName, RawConsistent, TableComplete, InventoryComplete,
         ContextCoverageKnown, SameScope;
    var next := desired.tables[n];
    var k := TableKey(next);
    UniqueKey(desired.tables, k);
    WithKeyIn(desired.tables, n);
    OnlyWithKey(desired.tables, n);
    UniqueKey(current.tables, k);
    WithKeyMeans(current.tables, k);
    NoDiagnostics(next, desired.context);
    var partners := WithKey(current.tables, k);
    forall i | 0 <= i < |current.tables| && TableKey(current.tables[i]) == k ensures partners == [current.tables[i]] {
      WithKeyIn(current.tables, i);
      OnlyWithKey(current.tables, i);
    }
    if partners == [] {
      InScopeOf(next, desired.context);
      WholeTableMeans(AddTable, Inventories(current, desired) && InScope(next, desired.context), next);
    } else {
      CompletePairKnown(current, desired, partners[0], next);
    }
  }

  lemma InScopeOf(t: Table, c: Option<Context>)
    requires TableComplete(t, c)
    ensures InScope(t, c)
  {
  }

  lemma KnownCurrentTable(current: Schema, desired: Schema, n: nat)
    requires Comparable(current, desired) && n < |current.tables|
    ensures NoUnknown(CurrentTableSteps(current, desired, n))
  {
    hide TableKey, WithKey, WholeTable, TableComplete, InventoryComplete, ContextCoverageKnown, SameScope, InScope;
    var prev := current.tables[n];
    UniqueKey(current.tables, TableKey(prev));
    WithKeyIn(current.tables, n);
    NoDiagnostics(prev, current.context);
    InScopeOf(prev, current.context);
    WholeTableMeans(DropTable, |WithKey(current.tables, TableKey(prev))| == 1 && Inventories(current, desired)
        && InScope(prev, current.context), prev);
  }

  lemma {:induction false} KnownDesiredTables(current: Schema, desired: Schema, n: nat)
    requires Comparable(current, desired) && n <= |desired.tables|
    ensures NoUnknown(DesiredTablesUpTo(current, desired, n))
            <==> forall k :: 0 <= k < n ==> RawTextsAgreeAt(current, desired, k)
  {
    hide DesiredTableSteps, Comparable, RawTextsAgreeAt;
    if n > 0 {
      KnownDesiredTables(current, desired, n - 1);
      KnownDesiredTable(current, desired, n - 1);
      NoUnknownAppend(DesiredTablesUpTo(current, desired, n - 1), DesiredTableSteps(current, desired, n - 1));
    }
  }

  lemma {:induction false} KnownCurrentTables(current: Schema, desired: Schema, n: nat)
    requires Comparable(current, desired) && n <= |current.tables|
    ensures NoUnknown(CurrentTablesUpTo(current, desired, n))
  {
    hide CurrentTableSteps, Comparable;
    if n > 0 {
      KnownCurrentTables(current, desired, n - 1);
      KnownCurrentTable(current, desired, n - 1);
      NoUnknownAppend(CurrentTablesUpTo(current, desired, n - 1), CurrentTableSteps(current, desired, n - 1));
    }
  }

  /** Complete definitions in one scope: the plan has no marker exactly when partners'
      equal indexes carry the same raw text. */
  lemma CompleteDefinitionsCompare(current: Schema, desired: Schema)
    requires Comparable(current, desired)
    ensures !Incomplete(DiffSteps(current, desired)) <==> RawTextsAgree(current, desired)
  {
    hide DesiredTablesUpTo, CurrentTablesUpTo, RawTextsAgree, RawTextsAgreeAt;
    NoHeader(current, desired);
    KnownDesiredTables(current, desired, |desired.tables|);
    KnownCurrentTables(current, desired, |current.tables|);
    RawTextsEverywhere(current, desired);
    assert DiffSteps(current, desired) == DesiredTablesUpTo(current, desired, |desired.tables|)
           + CurrentTablesUpTo(current, desired, |current.tables|);
    NoUnknownAppend(DesiredTablesUpTo(current, desired, |desired.tables|),
        CurrentTablesUpTo(current, desired, |current.tables|));
  }

  lemma RawTextsEverywhere(current: Schema, desired: Schema)
    ensures RawTextsAgree(current, desired)
            <==> forall k :: 0 <= k < |desired.tables| ==> RawTextsAgreeAt(current, desired, k)
  {
    hide TableKey, RawConsistent;
    if forall k :: 0 <= k < |desired.tables| ==> RawTextsAgreeAt(current, desired, k) {
      forall i, j | 0 <= i < |current.tables| && 0 <= j < |desired.tables|
          && TableKey(current.tables[i]) == TableKey(desired.tables[j])
        ensures RawConsistent(current.tables[i], desired.tables[j]) { assert RawTextsAgreeAt(current, desired, j); }
    }
  }

  lemma NoHeader(current: Schema, desired: Schema)
    requires Comparable(current, desired)
    ensures HeaderSteps(current, desired) == []
  {
    hide TableComplete, TableKey, ContextKnown;
  }

  lemma DistinctWhenComplete(current: Schema, desired: Schema)
    requires DefinitionComplete(current)
    ensures MatchedKeysDistinct(current, desired)
  {
    hide TableKey, DistinctIndexKeys, InventoryComplete;
    forall i | 0 <= i < |current.tables| ensures DistinctIndexKeys(current.tables[i]) {
      assert TableComplete(current.tables[i], current.context);
      ValidTableHasDistinctKeys(current.tables[i]);
    }
  }

  // --------------------------------------------------------------- the empty plan

  lemma QuietDesiredTable(current: Schema, desired: Schema, n: nat)
    requires NoUnknown(DesiredTablesUpTo(current, desired, |desired.tables|)) && n < |desired.tables|
    requires Meaning(current) == Meaning(desired) && MatchedKeysDistinct(current, desired)
    ensures DesiredTableSteps(current, desired, n) == []
  {
    hide TableKey, TableMean, TablesMean, WithKey, MatchedSteps, WholeTable, SimpleName, DesiredTablesUpTo,
         LocalSteps, LocalComplete, DistinctIndexKeys;
    var next := desired.tables[n];
    var k := TableKey(next);
    CompleteDesired(current, desired, n);
    MeantAt(current, desired, n);
    WithKeyMeans(current.tables, k);
    DesiredAt(current, desired, |desired.tables|, n);
    var prev := WithKey(current.tables, k)[0];
    CompletePair(current, desired, prev, next);
    LocalQuiet(PairOf(current, desired, prev, next));
  }

  lemma {:induction false} QuietTables(current: Schema, desired: Schema, n: nat, m: nat)
    requires NoUnknown(DesiredTablesUpTo(current, desired, |desired.tables|)) && n <= |desired.tables|
             && m <= |current.tables|
    requires Meaning(current) == Meaning(desired) && MatchedKeysDistinct(current, desired)
    ensures DesiredTablesUpTo(current, desired, n) == [] && CurrentTablesUpTo(current, desired, m) == []
  {
    hide DesiredTableSteps, CurrentTableSteps, TablesMean, MatchedKeysDistinct;
    if n > 0 {
      QuietTables(current, desired, n - 1, m);
      QuietDesiredTable(current, desired, n - 1);
    } else if m > 0 {
      QuietTables(current, desired, 0, m - 1);
      QuietCurrentTable(current, desired, m - 1);
    }
  }

  lemma QuietCurrentTable(current: Schema, desired: Schema, n: nat)
    requires Meaning(current) == Meaning(desired) && n < |current.tables|
    ensures CurrentTableSteps(current, desired, n) == []
  {
    hide TableKey, TableMean, TablesMean, WithKey, WholeTable;
    WithKeyMeans(desired.tables, TableKey(current.tables[n]));
    WithKeyMeans(current.tables, TableKey(current.tables[n]));
    WithKeyIn(current.tables, n);
  }

  /** A complete plan is empty exactly when the schemas mean the same, provided no
      matched current table has two indexes of one key. */
  lemma EmptyPlanMeansEqual(current: Schema, desired: Schema)
    requires !Incomplete(DiffSteps(current, desired)) && MatchedKeysDistinct(current, desired)
    ensures DiffSteps(current, desired) == [] <==> Meaning(current) == Meaning(desired)
    ensures Drifted(DiffSteps(current, desired)) <==> Meaning(current) != Meaning(desired)
  {
    hide DesiredTablesUpTo, CurrentTablesUpTo, HeaderSteps, TablesMean, MatchedKeysDistinct, Inventories;
    DiffSound(current, desired);
    CompleteParts(current, desired);
    if Meaning(current) == Meaning(desired) {
      QuietTables(current, desired, |desired.tables|, |current.tables|);
    } else if DiffSteps(current, desired) != [] {
      assert !DiffSteps(current, desired)[0].unknown;
    }
  }

  /** Diff completeness: for two complete definitions in one scope whose equal indexes
      carry the same raw text, no marker; no step exactly when the schemas mean the
      same; and drift is reported exactly when they do not. */
  lemma DiffComplete(current: Schema, desired: Schema)
    requires Comparable(current, desired) && RawTextsAgree(current, desired)
    ensures !Incomplete(DiffSteps(current, desired))
    ensures DiffSteps(current, desired) == [] <==> Meaning(current) == Meaning(desired)
    ensures Drifted(DiffSteps(current, desired)) <==> Meaning(current) != Meaning(desired)
    ensures Apply(DiffSteps(current, desired), Meaning(current)) == Meaning(desired)
  {
    hide RawTextsAgree, TablesMean, DiffSteps, MatchedKeysDistinct, DefinitionComplete, Fold;
    CompleteDefinitionsCompare(current, desired);
    DistinctWhenComplete(current, desired);
    EmptyPlanMeansEqual(current, desired);
    DiffSound(current, desired);
  }
}
