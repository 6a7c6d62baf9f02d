/** Whole schemas: what a complete plan does, when a plan is complete, and when it is
    empty. The promise that the steps turn current into desired holds exactly when
    no matched current table has two indexes of one lower-case key. */
module SchemaTheorems {
  import opened Text
  import opened SchemaModel
  import opened SchemaDiff
  import opened SchemaMeaning
  import opened SchemaColumns
  import opened SchemaIndexes
  import opened SchemaConstraints
  import opened SchemaTables

  // -------------------------------------------------------------- tables by key

  lemma {:induction false} WithKeyMeans(tables: seq<Table>, k: ObjectKey)
    ensures k in TablesMean(tables) <==> WithKey(tables, k) != []
    ensures |WithKey(tables, k)| == 1 ==> TablesMean(tables)[k] == TableMean(WithKey(tables, k)[0])
    ensures forall i :: 0 <= i < |WithKey(tables, k)|
             ==> WithKey(tables, k)[i] in tables && TableKey(WithKey(tables, k)[i]) == k
  {
    hide TableMean, TableKey;
    if tables != [] { WithKeyMeans(tables[..|tables| - 1], k); }
  }

  lemma WithKeyOneMore(tables: seq<Table>, n: nat, k: ObjectKey)
    requires n < |tables|
    ensures WithKey(tables[..n + 1], k) == WithKey(tables[..n], k) + if TableKey(tables[n]) == k then [tables[n]]
            else []
    ensures TablesMean(tables[..n + 1]) == TablesMean(tables[..n])[TableKey(tables[n]) := TableMean(tables[n])]
  {
    hide TableMean, TableKey;
    assert tables[..n + 1][..n] == tables[..n];
  }

  lemma {:induction false} WithKeyAt(tables: seq<Table>, n: nat)
    requires n < |tables|
    ensures |WithKey(tables, TableKey(tables[n]))| >= |WithKey(tables[..n], TableKey(tables[n]))| + 1
    decreases |tables|
  {
    hide TableKey;
    if n < |tables| - 1 {
      WithKeyAt(tables[..|tables| - 1], n);
      assert tables[..|tables| - 1][..n] == tables[..n];
    }
  }

  lemma OnlyWithKey(tables: seq<Table>, n: nat)
    requires n < |tables| && |WithKey(tables, TableKey(tables[n]))| == 1
    ensures WithKey(tables, TableKey(tables[n])) == [tables[n]]
    ensures WithKey(tables[..n], TableKey(tables[n])) == []
  {
    hide TableKey;
    WithKeyAt(tables, n);
    WithKeyIn(tables, n);
  }

  lemma {:induction false} WithKeyIn(tables: seq<Table>, n: nat)
    requires n < |tables|
    ensures tables[n] in WithKey(tables, TableKey(tables[n]))
  {
    hide TableKey;
    if n < |tables| - 1 { WithKeyIn(tables[..|tables| - 1], n); }
  }

  lemma {:induction false} FirstWithKey(tables: seq<Table>, k: ObjectKey) returns (m: nat)
    requires WithKey(tables, k) != []
    ensures m < |tables| && TableKey(tables[m]) == k && WithKey(tables[..m], k) == []
  {
    hide TableKey;
    var n := |tables| - 1;
    if WithKey(tables[..n], k) == [] {
      m := n;
    } else {
      m := FirstWithKey(tables[..n], k);
      assert tables[..n][..m] == tables[..m];
    }
  }

  // --------------------------------------------------------------- complete plans

  lemma {:induction false} DesiredAt(current: Schema, desired: Schema, n: nat, k: nat)
    requires k < n <= |desired.tables| && NoUnknown(DesiredTablesUpTo(current, desired, n))
    ensures NoUnknown(DesiredTableSteps(current, desired, k))
  {
    hide DesiredTableSteps;
    NoUnknownAppend(DesiredTablesUpTo(current, desired, n - 1), DesiredTableSteps(current, desired, n - 1));
    if k < n - 1 { DesiredAt(current, desired, n - 1, k); }
  }

  lemma CompleteParts(current: Schema, desired: Schema)
    requires NoUnknown(DiffSteps(current, desired))
    ensures HeaderSteps(current, desired) == [] && Inventories(current, desired)
    ensures NoUnknown(DesiredTablesUpTo(current, desired, |desired.tables|))
            && NoUnknown(CurrentTablesUpTo(current, desired, |current.tables|))
  {
    hide DesiredTablesUpTo, CurrentTablesUpTo, InventoryComplete, ContextCoverageKnown, ContextKnown;
    var h := HeaderSteps(current, desired);
    NoUnknownAppend(h + DesiredTablesUpTo(current, desired, |desired.tables|),
        CurrentTablesUpTo(current, desired, |current.tables|));
    NoUnknownAppend(h, DesiredTablesUpTo(current, desired, |desired.tables|));
    var quiet := !(!Inventories(current, desired) || !ContextCoverageKnown(current.context)
        || !ContextCoverageKnown(desired.context));
    MarkerKnown(!quiet, UnknownStep("", "", ""));
    NoUnknownAppend(Marker(!quiet, UnknownStep("", "", "")), h[|Marker(!quiet, UnknownStep("", "", ""))|..]);
    assert h == Marker(!quiet, UnknownStep("", "", "")) + h[|Marker(!quiet, UnknownStep("", "", ""))|..];
  }

  /** Desired keys are unique, and a desired table has at most one current partner. */
  lemma CompleteDesired(current: Schema, desired: Schema, n: nat)
    requires NoUnknown(DesiredTablesUpTo(current, desired, |desired.tables|)) && n < |desired.tables|
    ensures var k := TableKey(desired.tables[n]);
            && WithKey(desired.tables, k) == [desired.tables[n]] && WithKey(desired.tables[..n], k) == []
            && |WithKey(current.tables, k)| <= 1 && SimpleName(desired.tables[n].name)
  {
    hide TableKey, WithKey, MatchedSteps, WholeTable, SimpleName, DesiredTablesUpTo;
    var k := TableKey(desired.tables[n]);
    WithKeyIn(desired.tables, n);
    var m := FirstWithKey(desired.tables, k);
    DesiredAt(current, desired, |desired.tables|, m);
    MarkerKnown(true, TableUnknown(None, Some(desired.tables[m])));
    OnlyWithKey(desired.tables, m);
    OnlyWithKey(desired.tables, n);
  }

  function PairOf(current: Schema, desired: Schema, prev: Table, next: Table): Pair {
    Pair(prev, next, SameScope(current.context, desired.context),
         EffectiveCoverage(prev.coverage, current.context), EffectiveCoverage(next.coverage, desired.context))
  }

  lemma {:induction false} IncompleteIndexesMeans(a: Option<Table>, b: Option<Table>, xs: seq<Index>)
    ensures NoUnknown(IncompleteIndexes(a, b, xs)) <==> AttributesComplete(xs)
    ensures AttributesComplete(xs) ==> IncompleteIndexes(a, b, xs) == []
  {
    if xs != [] {
      var n := |xs| - 1;
      IncompleteIndexesMeans(a, b, xs[..n]);
      MarkerKnown(xs[n].attributes != Complete, TableUnknown(a, b));
      NoUnknownAppend(IncompleteIndexes(a, b, xs[..n]), Marker(xs[n].attributes != Complete, TableUnknown(a, b)));
    }
  }

  /** Everything asked of a matched pair before its differences are listed. */
  predicate PairKnown(current: Schema, desired: Schema, prev: Table, next: Table) {
    && InScope(prev, current.context) && InScope(next, desired.context) && SameScope(current.context, desired.context)
    && CoverageKnown(prev.coverage) && CoverageKnown(next.coverage)
    && AttributesComplete(prev.indexes) && AttributesComplete(next.indexes)
    && !AmbiguousConstraints(prev) && !AmbiguousConstraints(next)
  }

  /** Between known partners the matched steps are the local steps; otherwise a marker appears. */
  lemma MatchedMeans(current: Schema, desired: Schema, prev: Table, next: Table)
    ensures PairKnown(current, desired, prev, next)
            ==> MatchedSteps(current, desired, prev, next) == LocalSteps(PairOf(current, desired, prev, next))
    ensures NoUnknown(MatchedSteps(current, desired, prev, next)) ==> PairKnown(current, desired, prev, next)
  {
    hide InScope, SameScope, CoverageKnown, AttributesComplete, AmbiguousConstraints, IncompleteIndexes, DiffTable,
         DiffConstraints, EffectiveCoverage, AttachAll;
    var both := TableUnknown(Some(prev), Some(next));
    var p := PairOf(current, desired, prev, next);
    MarkerKnown(true, both);
    IncompleteIndexesMeans(Some(prev), Some(next), prev.indexes);
    IncompleteIndexesMeans(Some(prev), Some(next), next.indexes);
    var known := InScope(prev, current.context) && InScope(next, desired.context);
    var m1 := Marker(!known || !p.scope || !CoverageKnown(prev.coverage) || !CoverageKnown(next.coverage), both);
    var i1, i2 := IncompleteIndexes(Some(prev), Some(next), prev.indexes),
        IncompleteIndexes(Some(prev), Some(next), next.indexes);
    var m2 := Marker(AmbiguousConstraints(prev) || AmbiguousConstraints(next), both);
    var d, k := AttachAll(p, DiffTable(prev, next)), DiffConstraints(p);
    if known || (prev.identity == NO_IDENTITY && next.identity == NO_IDENTITY) {
      assert MatchedSteps(current, desired, prev, next) == m1 + i1 + i2 + m2 + d + k;
      FivePrefixes(m1, i1, i2, m2, d, k);
      MarkerKnown(!known || !p.scope || !CoverageKnown(prev.coverage) || !CoverageKnown(next.coverage), both);
      MarkerKnown(AmbiguousConstraints(prev) || AmbiguousConstraints(next), both);
      if PairKnown(current, desired, prev, next) { assert m1 + i1 + i2 + m2 + d + k == d + k; }
    }
  }

  lemma FivePrefixes(m1: seq<Step>, i1: seq<Step>, i2: seq<Step>, m2: seq<Step>, d: seq<Step>, k: seq<Step>)
    ensures NoUnknown(m1 + i1 + i2 + m2 + d + k) ==> NoUnknown(m1) && NoUnknown(i1) && NoUnknown(i2) && NoUnknown(m2)
  {
    hide NoUnknown;
    NoUnknownAppend(m1 + i1 + i2 + m2 + d, k);
    NoUnknownAppend(m1 + i1 + i2 + m2, d);
    NoUnknownAppend(m1 + i1 + i2, m2);
    NoUnknownAppend(m1 + i1, i2);
    NoUnknownAppend(m1, i1);
  }

  /** Every diagnostic of a whole table is a marker. */
  predicate AllUnknown(steps: seq<Step>) { forall i :: 0 <= i < |steps| ==> steps[i].unknown }

  lemma {:induction false} ListsAreMarkers(t: Table, cs: seq<Column>, xs: seq<Index>, items: seq<Item>)
    ensures AllUnknown(UnknownDefaults(t, cs)) && AllUnknown(InvalidIndexes(t, xs))
            && AllUnknown(IncompleteIndexes(None, Some(t), xs)) && AllUnknown(InvalidItems(t, items))
    decreases |cs| + |xs| + |items|
  {
    hide ColumnDefault, ValidIndex, ItemKnown;
    if cs != [] { ListsAreMarkers(t, cs[..|cs| - 1], [], []); }
    if xs != [] { ListsAreMarkers(t, [], xs[..|xs| - 1], []); }
    if items != [] { ListsAreMarkers(t, [], [], items[..|items| - 1]); }
  }

  lemma DiagnosticsAreMarkers(t: Table)
    ensures AllUnknown(TableDiagnostics(t))
  {
    hide AmbiguousColumns, UnknownDefaults, InvalidIndexes, AmbiguousConstraints, IncompleteIndexes, InvalidItems,
         IdentityKnown, CoverageKnown, FkItems, CheckItems;
    ListsAreMarkers(t, t.columns, t.indexes, FkItems(t, t.foreignKeys));
    ListsAreMarkers(t, t.columns, t.indexes, CheckItems(t.checks));
  }

  lemma WholeTableMeans(kind: StepKind, known: bool, t: Table)
    ensures NoUnknown(WholeTable(kind, known, t)) <==> known && TableDiagnostics(t) == []
    ensures known && TableDiagnostics(t) == [] ==>
              WholeTable(kind, known, t) == [if kind.AddTable? then Plain(kind, t.name).(desiredTable := Some(t))
                  else Plain(kind, t.name).(currentTable := Some(t))]
  {
    hide TableDiagnostics;
    DiagnosticsAreMarkers(t);
    var s := Plain(if known then kind else UnsupportedStep, t.name).(unknown := !known);
    var head := if kind.AddTable? then s.(desiredTable := Some(t)) else s.(currentTable := Some(t));
    NoUnknownAppend([head], TableDiagnostics(t));
    MarkerKnown(true, head);
    if TableDiagnostics(t) != [] { assert TableDiagnostics(t)[0].unknown; }
  }

  // -------------------------------------------------------------------- soundness

  /** What the plan makes of the n-th desired table. */
  function Target(current: Schema, desired: Schema, n: nat): TableMeaning
    requires n < |desired.tables|
  {
    var next := desired.tables[n];
    var partners := WithKey(current.tables, TableKey(next));
    if partners == [] then TableMean(next)
    else Fold(LocalSteps(PairOf(current, desired, partners[0], next)), TableMean(partners[0]), ApplyInTable)
  }

  function Targets(current: Schema, desired: Schema, n: nat): map<ObjectKey, TableMeaning>
    requires n <= |desired.tables|
  {
    if n == 0 then map[] else Targets(current, desired,
       n - 1)[TableKey(desired.tables[n - 1]) := Target(current, desired, n - 1)]
  }

  lemma TargetAt(current: Schema, desired: Schema, n: nat)
    requires n < |desired.tables|
    ensures Targets(current, desired, n + 1)
            == Targets(current, desired, n)[TableKey(desired.tables[n]) := Target(current, desired, n)]
    ensures var partners := WithKey(current.tables, TableKey(desired.tables[n]));
            Target(current, desired, n)
            == if partners == [] then TableMean(desired.tables[n])
               else Fold(LocalSteps(PairOf(current, desired, partners[0], desired.tables[n])), TableMean(partners[0]),
                  ApplyInTable)
  {
    hide TableKey, WithKey, LocalSteps, TableMean, Fold;
  }

  lemma {:induction false} TargetKeys(current: Schema, desired: Schema, n: nat)
    requires n <= |desired.tables|
    ensures Targets(current, desired, n).Keys == TablesMean(desired.tables[..n]).Keys
  {
    hide Target, TableMean, TableKey;
    if n > 0 {
      TargetKeys(current, desired, n - 1);
      WithKeyOneMore(desired.tables, n - 1, TableKey(desired.tables[n - 1]));
    }
  }

  lemma CompletePair(current: Schema, desired: Schema, prev: Table, next: Table)
    requires NoUnknown(MatchedSteps(current, desired, prev, next)) && TableKey(prev) == TableKey(next)
    ensures var p := PairOf(current, desired, prev, next);
            && LocalComplete(p) && MatchedSteps(current, desired, prev, next) == LocalSteps(p)
               && AllInside(LocalSteps(p), TableKey(next))
  {
    hide MatchedSteps, LocalSteps, AttributesComplete, InScope, SameScope, EffectiveCoverage, TableKey;
    MatchedMeans(current, desired, prev, next);
    LocalInside(PairOf(current, desired, prev, next));
  }

  lemma OverlayOne<K, V>(a: map<K, V>, b: map<K, V>, k: K, v: V)
    ensures a + b[k := v] == (a + b)[k := v]
  {
  }

  /** Removing one more key, unless it is kept. */
  lemma PruneOne<K, V>(m: map<K, V>, gone: set<K>, kept: set<K>, k: K)
    ensures k !in kept ==> (m - (gone - kept)) - {k} == m - (gone + {k} - kept)
    ensures k in kept || k in gone ==> m - (gone + {k} - kept) == m - (gone - kept)
  {
    if k in kept || k in gone { assert gone + {k} - kept == gone - kept; }
  }

  lemma DesiredTableEffect(current: Schema, desired: Schema, n: nat)
    requires NoUnknown(DesiredTablesUpTo(current, desired, |desired.tables|)) && n < |desired.tables|
    ensures Apply(DesiredTableSteps(current, desired, n), Meaning(current) + Targets(current, desired, n))
         == Meaning(current) + Targets(current, desired, n + 1)
  {
    hide TableKey, WithKey, MatchedSteps, WholeTable, SimpleName, DesiredTablesUpTo, LocalSteps, TableMean,
         TablesMean, Inventories, InScope, LocalComplete, Fold, ApplyInTable, PairOf, Target, Targets;
    var next := desired.tables[n];
    var k := TableKey(next);
    var m := Meaning(current) + Targets(current, desired, n);
    TargetAt(current, desired, n);
    OverlayOne(Meaning(current), Targets(current, desired, n), k, Target(current, desired, n));
    CompleteDesired(current, desired, n);
    DesiredAt(current, desired, |desired.tables|, n);
    WithKeyMeans(current.tables, k);
    WithKeyMeans(desired.tables[..n], k);
    TargetKeys(current, desired, n);
    var partners := WithKey(current.tables, k);
    if partners == [] {
      WholeTableMeans(AddTable, Inventories(current, desired) && InScope(next, desired.context), next);
      AddTableEffect(next, m);
    } else {
      CompletePair(current, desired, partners[0], next);
      FoldInside(LocalSteps(PairOf(current, desired, partners[0], next)), k, m);
    }
  }

  lemma AddTableEffect(t: Table, m: map<ObjectKey, TableMeaning>)
    ensures Apply([Plain(AddTable, t.name).(desiredTable := Some(t))], m) == m[TableKey(t) := TableMean(t)]
    ensures Apply([Plain(DropTable, t.name).(currentTable := Some(t))], m) == m - {TableKey(t)}
  {
    hide TableKey, TableMean;
    FoldOne(Plain(AddTable, t.name).(desiredTable := Some(t)), m, ApplyStep);
    FoldOne(Plain(DropTable, t.name).(currentTable := Some(t)), m, ApplyStep);
  }

  lemma {:induction false} DesiredTablesEffect(current: Schema, desired: Schema, n: nat)
    requires NoUnknown(DesiredTablesUpTo(current, desired, |desired.tables|)) && n <= |desired.tables|
    ensures Apply(DesiredTablesUpTo(current, desired, n), Meaning(current))
            == Meaning(current) + Targets(current, desired, n)
  {
    hide DesiredTableSteps, Target, TableKey;
    if n > 0 {
      DesiredTablesEffect(current, desired, n - 1);
      FoldAppend(DesiredTablesUpTo(current, desired, n - 1), DesiredTableSteps(current, desired, n - 1),
          Meaning(current), ApplyStep);
      DesiredTableEffect(current, desired, n - 1);
    }
  }

  function KeysUpTo(s: Schema, n: nat): set<ObjectKey>
    requires n <= |s.tables|
  {
    TablesMean(s.tables[..n]).Keys
  }

  lemma CurrentTableEffect(current: Schema, desired: Schema, n: nat, m: map<ObjectKey, TableMeaning>)
    requires n < |current.tables| && NoUnknown(CurrentTableSteps(current, desired, n))
    ensures Apply(CurrentTableSteps(current, desired, n), m - (KeysUpTo(current, n) - Meaning(desired).Keys))
         == m - (KeysUpTo(current, n + 1) - Meaning(desired).Keys)
  {
    hide TableKey, WithKey, WholeTable, TableMean, TablesMean, Inventories, InScope, Fold, KeysUpTo;
    var prev := current.tables[n];
    var k := TableKey(prev);
    WithKeyMeans(desired.tables, k);
    KeysOneMore(current, n);
    PruneOne(m, KeysUpTo(current, n), Meaning(desired).Keys, k);
    if WithKey(desired.tables, k) == [] && WithKey(current.tables[..n], k) == [] {
      var known := |WithKey(current.tables, k)| == 1 && Inventories(current, desired) && InScope(prev, current.context);
      WholeTableMeans(DropTable, known, prev);
      AddTableEffect(prev, m - (KeysUpTo(current, n) - Meaning(desired).Keys));
    } else {
      FoldNothing([], m - (KeysUpTo(current, n) - Meaning(desired).Keys), ApplyStep);
    }
  }

  lemma KeysOneMore(s: Schema, n: nat)
    requires n < |s.tables|
    ensures KeysUpTo(s, n + 1) == KeysUpTo(s, n) + {TableKey(s.tables[n])}
    ensures TableKey(s.tables[n]) in KeysUpTo(s, n) <==> WithKey(s.tables[..n], TableKey(s.tables[n])) != []
  {
    hide TableKey, TableMean, WithKey, TablesMean;
    WithKeyOneMore(s.tables, n, TableKey(s.tables[n]));
    WithKeyMeans(s.tables[..n], TableKey(s.tables[n]));
  }

  lemma {:induction false} CurrentTablesEffect(current: Schema, desired: Schema, n: nat, m: map<ObjectKey,
      TableMeaning>)
    requires n <= |current.tables| && NoUnknown(CurrentTablesUpTo(current, desired, n))
    ensures Apply(CurrentTablesUpTo(current, desired, n), m) == m - (KeysUpTo(current, n) - Meaning(desired).Keys)
  {
    hide CurrentTableSteps, TableKey, TableMean;
    if n > 0 {
      NoUnknownAppend(CurrentTablesUpTo(current, desired, n - 1), CurrentTableSteps(current, desired, n - 1));
      CurrentTablesEffect(current, desired, n - 1, m);
      FoldAppend(CurrentTablesUpTo(current, desired, n - 1), CurrentTableSteps(current, desired, n - 1), m, ApplyStep);
      CurrentTableEffect(current, desired, n - 1, m);
    }
  }

  /** What a complete plan makes of the current schema, table by table. */
  lemma PlanEffect(current: Schema, desired: Schema)
    requires NoUnknown(DiffSteps(current, desired))
    ensures Apply(DiffSteps(current, desired), Meaning(current)) == Targets(current, desired, |desired.tables|)
  {
    hide HeaderSteps, DesiredTablesUpTo, CurrentTablesUpTo, TablesMean, Targets, Fold, Inventories;
    CompleteParts(current, desired);
    var d, c := DesiredTablesUpTo(current, desired, |desired.tables|),
        CurrentTablesUpTo(current, desired, |current.tables|);
    assert DiffSteps(current, desired) == d + c;
    FoldAppend(d, c, Meaning(current), ApplyStep);
    DesiredTablesEffect(current, desired, |desired.tables|);
    CurrentTablesEffect(current, desired, |current.tables|,
        Meaning(current) + Targets(current, desired, |desired.tables|));
    TargetKeys(current, desired, |desired.tables|);
    assert desired.tables[..|desired.tables|] == desired.tables && current.tables[..|current.tables|] == current.tables;
  }

  /** No matched current table has two indexes of one key. */
  predicate MatchedKeysDistinct(current: Schema, desired: Schema) {
    forall i, j :: 0 <= i < |current.tables| && 0 <= j < |desired.tables|
        && TableKey(current.tables[i]) == TableKey(desired.tables[j])
      ==> DistinctIndexKeys(current.tables[i])
  }

  lemma TargetMeans(current: Schema, desired: Schema, n: nat)
    requires NoUnknown(DesiredTablesUpTo(current, desired, |desired.tables|)) && n < |desired.tables|
    ensures Target(current, desired, n) == TableMean(desired.tables[n])
       <==> DistinctAt(current, desired, n)
  {
    hide TableKey, WithKey, MatchedSteps, WholeTable, SimpleName, DesiredTablesUpTo, LocalSteps, TableMean,
         LocalComplete, Fold, ApplyInTable, DistinctIndexKeys;
    var next := desired.tables[n];
    var k := TableKey(next);
    CompleteDesired(current, desired, n);
    DesiredAt(current, desired, |desired.tables|, n);
    WithKeyMeans(current.tables, k);
    var partners := WithKey(current.tables, k);
    forall i | 0 <= i < |current.tables| && TableKey(current.tables[i]) == k ensures partners == [current.tables[i]] {
      WithKeyIn(current.tables, i);
      OnlyWithKey(current.tables, i);
    }
    if partners != [] {
      CompletePair(current, desired, partners[0], next);
      LocalEffect(PairOf(current, desired, partners[0], next));
    }
  }

  lemma {:induction false} TargetsAt(current: Schema, desired: Schema, n: nat, k: nat)
    requires NoUnknown(DesiredTablesUpTo(current, desired, |desired.tables|)) && k < n <= |desired.tables|
    ensures var key := TableKey(desired.tables[k]);
            key in Targets(current, desired, n) && Targets(current, desired, n)[key] == Target(current, desired, k)
  {
    hide TableKey, TableMean, Target, DesiredTablesUpTo, TablesMean, SimpleName;
    if k < n - 1 {
      TargetsAt(current, desired, n - 1, k);
      CompleteDesired(current, desired, n - 1);
      EarlierKeyDiffers(desired.tables, k, n - 1);
    }
  }

  lemma EarlierKeyDiffers(tables: seq<Table>, k: nat, n: nat)
    requires k < n < |tables| && WithKey(tables[..n], TableKey(tables[n])) == []
    ensures TableKey(tables[k]) != TableKey(tables[n])
  {
    hide TableKey;
    WithKeyIn(tables[..n], k);
  }

  lemma MeantAt(current: Schema, desired: Schema, k: nat)
    requires NoUnknown(DesiredTablesUpTo(current, desired, |desired.tables|)) && k < |desired.tables|
    ensures var key := TableKey(desired.tables[k]);
            key in Meaning(desired) && Meaning(desired)[key] == TableMean(desired.tables[k])
  {
    hide TableKey, TableMean, DesiredTablesUpTo, TablesMean;
    CompleteDesired(current, desired, k);
    WithKeyMeans(desired.tables, TableKey(desired.tables[k]));
  }

  /** Diff soundness, exactly: a complete plan turns the current schema into the desired
      one if and only if no matched current table has two indexes of one key. */
  lemma DiffSound(current: Schema, desired: Schema)
    requires !Incomplete(DiffSteps(current, desired))
    ensures Apply(DiffSteps(current, desired), Meaning(current)) == Meaning(desired)
            <==> MatchedKeysDistinct(current, desired)
  {
    hide TableKey, TableMean, Target, DesiredTablesUpTo, CurrentTablesUpTo, TablesMean, HeaderSteps, Inventories,
         DiffSteps, Targets, DistinctAt, Fold, MatchedKeysDistinct;
    PlanEffect(current, desired);
    CompleteParts(current, desired);
    var n := |desired.tables|;
    var t := Targets(current, desired, n);
    TargetKeys(current, desired, n);
    assert desired.tables[..n] == desired.tables;
    DistinctEverywhere(current, desired);
    if MatchedKeysDistinct(current, desired) {
      forall key | key in Meaning(desired) ensures t[key] == Meaning(desired)[key] {
        WithKeyMeans(desired.tables, key);
        var k := FirstWithKey(desired.tables, key);
        TargetsAt(current, desired, n, k);
        MeantAt(current, desired, k);
        TargetMeans(current, desired, k);
      }
      assert t == Meaning(desired);
    } else {
      var k :| 0 <= k < n && !DistinctAt(current, desired, k);
      TargetsAt(current, desired, n, k);
      MeantAt(current, desired, k);
      TargetMeans(current, desired, k);
    }
  }

  predicate DistinctAt(current: Schema, desired: Schema, n: nat)
    requires n < |desired.tables|
  {
    forall i :: 0 <= i < |current.tables| && TableKey(current.tables[i]) == TableKey(desired.tables[n])
        ==> DistinctIndexKeys(current.tables[i])
  }

  lemma DistinctEverywhere(current: Schema, desired: Schema)
    ensures MatchedKeysDistinct(current, desired)
            <==> forall k :: 0 <= k < |desired.tables| ==> DistinctAt(current, desired, k)
  {
    hide TableKey, DistinctIndexKeys;
    if forall k :: 0 <= k < |desired.tables| ==> DistinctAt(current, desired, k) {
      forall i, j | 0 <= i < |current.tables| && 0 <= j < |desired.tables|
          && TableKey(current.tables[i]) == TableKey(desired.tables[j])
        ensures DistinctIndexKeys(current.tables[i]) { assert DistinctAt(current, desired, j); }
    }
  }
}
