/** Absence is never guessed: an add or drop step without a marker appears only where
    the side that lacks the object vouches for the whole collection. */
module SchemaAbsence {
  import opened Text
  import opened SchemaModel
  import opened SchemaDiff
  import opened SchemaMeaning
  import opened SchemaConstraints
  import opened SchemaTheorems

  /** What a definite add or drop inside a matched table rests on. */
  predicate PairGrounded(p: Pair, s: Step) {
    s.currentTable == Some(p.prev) && s.desiredTable == Some(p.next) &&
    match s.kind
    case AddColumn => p.scope && p.prevCoverage.columns == Complete
       && FindColumn(p.prev.columns, NameKey(s.column)).None?
    case DropColumn => p.scope && p.nextCoverage.columns == Complete
       && FindColumn(p.next.columns, NameKey(s.column)).None?
    case AddIndex => p.scope && p.prevCoverage.indexes == Complete && FindIndex(p.prev.indexes, NameKey(s.index)).None?
    case DropIndex => p.scope && p.nextCoverage.indexes == Complete && FindIndex(p.next.indexes, NameKey(s.index)).None?
    case AddForeignKey => p.scope && p.prevCoverage.foreignKeys == Complete
       && Named(FkItems(p.prev, p.prev.foreignKeys), s.constraint) == []
    case DropForeignKey => p.scope && p.nextCoverage.foreignKeys == Complete
       && Named(FkItems(p.next, p.next.foreignKeys), s.constraint) == []
    case AddCheck => p.scope && p.prevCoverage.checks == Complete
       && Named(CheckItems(p.prev.checks), s.constraint) == []
    case DropCheck => p.scope && p.nextCoverage.checks == Complete
       && Named(CheckItems(p.next.checks), s.constraint) == []
    case AddTable => false
    case DropTable => false
    case _ => true
  }

  /** The absence alone, before coverage and scope are looked at. */
  predicate Missing(a: Table, b: Table, s: Step) {
    match s.kind
    case AddColumn => FindColumn(a.columns, NameKey(s.column)).None?
    case DropColumn => FindColumn(b.columns, NameKey(s.column)).None?
    case AddIndex => FindIndex(a.indexes, NameKey(s.index)).None?
    case DropIndex => FindIndex(b.indexes, NameKey(s.index)).None?
    case AlterColumnType => true case AlterNullability => true case AlterColumnDefault => true
    case AlterIndex => true case UnsupportedStep => true
    case _ => false
  }

  predicate AllMissing(a: Table, b: Table, steps: seq<Step>) {
    forall i :: 0 <= i < |steps| ==> Missing(a, b, steps[i])
  }

  predicate AllGrounded(p: Pair, steps: seq<Step>) {
    forall i :: 0 <= i < |steps| ==> steps[i].unknown || PairGrounded(p, steps[i])
  }

  lemma {:induction false} AttachGrounds(p: Pair, steps: seq<Step>)
    requires AllMissing(p.prev, p.next, steps)
    ensures AllGrounded(p, AttachAll(p, steps))
  {
    hide FindColumn, FindIndex, NameKey, FkItems, CheckItems, Named;
    if steps != [] {
      AttachGrounds(p, steps[..|steps| - 1]);
      assert Missing(p.prev, p.next, steps[|steps| - 1]);
    }
  }

  lemma ColumnMissing(a: Table, b: Table, c: Column)
    ensures AllMissing(a, b, DesiredColumnSteps(a, b, c)) && AllMissing(a, b, CurrentColumnSteps(a, b, c))
  {
    hide FindColumn, FindIndex, NameKey, ColumnDefault, NormalizeType, AmbiguousColumns;
  }

  lemma IndexMissing(a: Table, b: Table, i: Index)
    ensures AllMissing(a, b, DesiredIndexSteps(a, b, i)) && AllMissing(a, b, CurrentIndexSteps(a, b, i))
  {
    hide FindColumn, FindIndex, NameKey, ValidIndex, EqualIndex, RawDiffers, UniqueIndexName;
  }

  lemma {:induction false} ColumnsMissing(a: Table, b: Table, n: nat, m: nat)
    requires n <= |b.columns| && m <= |a.columns|
    ensures AllMissing(a, b, DesiredColumnsUpTo(a, b, n)) && AllMissing(a, b, CurrentColumnsUpTo(a, b, m))
    decreases n + m
  {
    hide DesiredColumnSteps, CurrentColumnSteps, Missing;
    if n > 0 { ColumnsMissing(a, b, n - 1, 0); ColumnMissing(a, b, b.columns[n - 1]); }
    if m > 0 { ColumnsMissing(a, b, 0, m - 1); ColumnMissing(a, b, a.columns[m - 1]); }
  }

  lemma {:induction false} IndexesMissing(a: Table, b: Table, n: nat, m: nat)
    requires n <= |b.indexes| && m <= |a.indexes|
    ensures AllMissing(a, b, DesiredIndexesUpTo(a, b, n)) && AllMissing(a, b, CurrentIndexesUpTo(a, b, m))
    decreases n + m
  {
    hide DesiredIndexSteps, CurrentIndexSteps, Missing;
    if n > 0 { IndexesMissing(a, b, n - 1, 0); IndexMissing(a, b, b.indexes[n - 1]); }
    if m > 0 { IndexesMissing(a, b, 0, m - 1); IndexMissing(a, b, a.indexes[m - 1]); }
  }

  lemma TableMissing(a: Table, b: Table)
    ensures AllMissing(a, b, DiffTable(a, b))
  {
    hide DesiredColumnsUpTo, CurrentColumnsUpTo, DesiredIndexesUpTo, CurrentIndexesUpTo, FindColumn, FindIndex,
         NameKey, AmbiguousColumns;
    ColumnsMissing(a, b, |b.columns|, |a.columns|);
    IndexesMissing(a, b, |b.indexes|, |a.indexes|);
  }

  lemma NameGrounded(p: Pair, f: Family, pk: bool, nk: bool, prior: seq<Item>, next: seq<Item>, i: nat)
    requires Prepared(p, f, prior, next) && i < |next + prior|
    requires f == FOREIGN_KEYS
             ==> pk == (p.prevCoverage.foreignKeys == Complete) && nk == (p.nextCoverage.foreignKeys == Complete)
    requires f == CHECKS ==> pk == (p.prevCoverage.checks == Complete) && nk == (p.nextCoverage.checks == Complete)
    ensures AllGrounded(p, CompareAt(p, f, pk, nk, prior, next, i))
  {
    hide FindColumn, FindIndex, NameKey, FkItems, CheckItems, Named, InvalidDefinition, AmbiguousName, EqualConstraint;
    NamedNonEmpty(prior, next, i);
  }

  lemma {:induction false} NamesGrounded(p: Pair, f: Family, pk: bool, nk: bool, prior: seq<Item>, next: seq<Item>,
      n: nat)
    requires Prepared(p, f, prior, next) && n <= |next + prior|
    requires f == FOREIGN_KEYS
             ==> pk == (p.prevCoverage.foreignKeys == Complete) && nk == (p.nextCoverage.foreignKeys == Complete)
    requires f == CHECKS ==> pk == (p.prevCoverage.checks == Complete) && nk == (p.nextCoverage.checks == Complete)
    ensures AllGrounded(p, CompareUpTo(p, f, pk, nk, prior, next, n))
  {
    hide CompareAt, PairGrounded, Prepared;
    if n > 0 {
      NamesGrounded(p, f, pk, nk, prior, next, n - 1);
      NameGrounded(p, f, pk, nk, prior, next, n - 1);
    }
  }

  lemma {:induction false} UnknownItemsGrounded(p: Pair, items: seq<Item>)
    ensures AllGrounded(p, UnknownItems(p, items))
  {
    hide ItemKnown, PairGrounded;
    if items != [] { UnknownItemsGrounded(p, items[..|items| - 1]); }
  }

  lemma ConstraintsGrounded(p: Pair)
    ensures AllGrounded(p, DiffConstraints(p))
  {
    hide UnknownItems, CompareUpTo, PairGrounded, FkItems, CheckItems;
    var pf, nf := FkItems(p.prev, p.prev.foreignKeys), FkItems(p.next, p.next.foreignKeys);
    var pc, nc := CheckItems(p.prev.checks), CheckItems(p.next.checks);
    UnknownItemsGrounded(p, pf);
    UnknownItemsGrounded(p, pc);
    UnknownItemsGrounded(p, nf);
    UnknownItemsGrounded(p, nc);
    NamesGrounded(p, FOREIGN_KEYS, p.prevCoverage.foreignKeys == Complete, p.nextCoverage.foreignKeys == Complete, pf,
        nf, |nf + pf|);
    NamesGrounded(p, CHECKS, p.prevCoverage.checks == Complete, p.nextCoverage.checks == Complete, pc, nc, |nc + pc|);
  }

  // ---------------------------------------------------------------- whole schemas

  /** A step of the plan: a marker, a grounded step of some matched pair, or a whole
      table whose absence both inventories vouch for. */
  ghost predicate Grounded(current: Schema, desired: Schema, s: Step) {
    s.unknown
    || (s.kind.AddTable? && Inventories(current, desired)
        && exists j :: 0 <= j < |desired.tables| && s.desiredTable == Some(desired.tables[j])
                       && WithKey(current.tables, TableKey(desired.tables[j])) == []
                          && InScope(desired.tables[j], desired.context))
    || (s.kind.DropTable? && Inventories(current, desired)
        && exists i :: 0 <= i < |current.tables| && s.currentTable == Some(current.tables[i])
                       && WithKey(desired.tables, TableKey(current.tables[i])) == []
                          && InScope(current.tables[i], current.context))
    || (exists prev, next :: prev in current.tables && next in desired.tables && TableKey(prev) == TableKey(next)
                             && PairGrounded(PairOf(current, desired, prev, next), s))
    || s.kind.IdentityDifference?
  }

  ghost predicate GroundedAll(current: Schema, desired: Schema, steps: seq<Step>) {
    forall i :: 0 <= i < |steps| ==> Grounded(current, desired, steps[i])
  }

  lemma MatchedGrounded(current: Schema, desired: Schema, prev: Table, next: Table)
    requires prev in current.tables && next in desired.tables && TableKey(prev) == TableKey(next)
    ensures GroundedAll(current, desired, MatchedSteps(current, desired, prev, next))
  {
    hide InScope, SameScope, CoverageKnown, AmbiguousConstraints, IncompleteIndexes, DiffTable, DiffConstraints,
         EffectiveCoverage, AttachAll, PairGrounded, TableKey;
    var p := PairOf(current, desired, prev, next);
    TableMissing(prev, next);
    AttachGrounds(p, DiffTable(prev, next));
    ConstraintsGrounded(p);
    IndexMarkers(Some(prev), Some(next), prev.indexes);
    IndexMarkers(Some(prev), Some(next), next.indexes);
    var steps := MatchedSteps(current, desired, prev, next);
    forall i | 0 <= i < |steps| ensures steps[i].unknown || PairGrounded(p, steps[i]) {}
  }

  lemma {:induction false} IndexMarkers(a: Option<Table>, b: Option<Table>, xs: seq<Index>)
    ensures AllUnknown(IncompleteIndexes(a, b, xs))
  {
    if xs != [] { IndexMarkers(a, b, xs[..|xs| - 1]); }
  }

  lemma WholeGrounded(kind: StepKind, known: bool, t: Table)
    ensures forall i :: 0 <= i < |WholeTable(kind, known, t)| ==>
              WholeTable(kind, known, t)[i].unknown
              || (i == 0 && known && WholeTable(kind, known, t)[0].kind == kind
                  && (kind.AddTable? ==> WholeTable(kind, known, t)[0].desiredTable == Some(t))
                  && (kind.DropTable? ==> WholeTable(kind, known, t)[0].currentTable == Some(t)))
  {
    hide TableDiagnostics;
    DiagnosticsAreMarkers(t);
  }

  lemma DesiredGrounded(current: Schema, desired: Schema, n: nat)
    requires n < |desired.tables|
    ensures GroundedAll(current, desired, DesiredTableSteps(current, desired, n))
  {
    hide WithKey, TableKey, MatchedSteps, WholeTable, SimpleName, InScope, Inventories, PairGrounded;
    var next := desired.tables[n];
    var partners := WithKey(current.tables, TableKey(next));
    WithKeyMeans(current.tables, TableKey(next));
    if |partners| == 1 { MatchedGrounded(current, desired, partners[0], next); }
    WholeGrounded(AddTable, Inventories(current, desired) && InScope(next, desired.context), next);
  }

  lemma CurrentGrounded(current: Schema, desired: Schema, n: nat)
    requires n < |current.tables|
    ensures GroundedAll(current, desired, CurrentTableSteps(current, desired, n))
  {
    hide WithKey, TableKey, WholeTable, InScope, Inventories, PairGrounded;
    var prev := current.tables[n];
    WholeGrounded(DropTable, |WithKey(current.tables, TableKey(prev))| == 1 && Inventories(current, desired)
        && InScope(prev, current.context), prev);
  }

  lemma {:induction false} TablesGrounded(current: Schema, desired: Schema, n: nat, m: nat)
    requires n <= |desired.tables| && m <= |current.tables|
    ensures GroundedAll(current, desired, DesiredTablesUpTo(current, desired, n))
            && GroundedAll(current, desired, CurrentTablesUpTo(current, desired, m))
    decreases n + m
  {
    hide DesiredTableSteps, CurrentTableSteps, Grounded;
    if n > 0 { TablesGrounded(current, desired, n - 1, 0); DesiredGrounded(current, desired, n - 1); }
    if m > 0 { TablesGrounded(current, desired, 0, m - 1); CurrentGrounded(current, desired, m - 1); }
  }

  /** Absence is never guessed, for every pair of schemas, partial ones included. */
  lemma AbsenceIsNeverGuessed(current: Schema, desired: Schema)
    ensures GroundedAll(current, desired, DiffSteps(current, desired))
  {
    hide DesiredTablesUpTo, CurrentTablesUpTo, Inventories, ContextCoverageKnown, ContextKnown, PairGrounded;
    TablesGrounded(current, desired, |desired.tables|, |current.tables|);
    var h := HeaderSteps(current, desired);
    assert forall i :: 0 <= i < |h| ==> h[i].unknown || h[i].kind.IdentityDifference?;
    GroundedAppend(current, desired, h, DesiredTablesUpTo(current, desired, |desired.tables|));
    GroundedAppend(current, desired, h + DesiredTablesUpTo(current, desired, |desired.tables|),
        CurrentTablesUpTo(current, desired, |current.tables|));
  }

  lemma GroundedAppend(current: Schema, desired: Schema, a: seq<Step>, b: seq<Step>)
    requires GroundedAll(current, desired, a) && GroundedAll(current, desired, b)
    ensures GroundedAll(current, desired, a + b)
  {
    hide Grounded;
  }

  /** In plain words for columns: a definite add or drop names two matched tables of
      equal scope, and the table lacking the column reports complete columns. */
  lemma ColumnAbsenceIsKnown(current: Schema, desired: Schema, k: nat)
    requires k < |DiffSteps(current, desired)|
    ensures var s := DiffSteps(current, desired)[k];
            !s.unknown && (s.kind.AddColumn? || s.kind.DropColumn?) ==>
              exists prev, next :: prev in current.tables && next in desired.tables && TableKey(prev) == TableKey(next)
                && s.currentTable == Some(prev) && s.desiredTable == Some(next)
                   && SameScope(current.context, desired.context)
                && (if s.kind.AddColumn? then EffectiveCoverage(prev.coverage, current.context).columns == Complete
                    else EffectiveCoverage(next.coverage, desired.context).columns == Complete)
  {
    hide DiffSteps, InScope, Inventories, TableKey, FindColumn, SameScope, EffectiveCoverage, WithKey;
    AbsenceIsNeverGuessed(current, desired);
    assert Grounded(current, desired, DiffSteps(current, desired)[k]);
  }
}
