/** One matched table: column, index and constraint steps do not disturb each other,
    so the table's local steps turn its current meaning into the desired one. */
module SchemaTables {
  import opened Text
  import opened SchemaModel
  import opened SchemaDiff
  import opened SchemaMeaning
  import opened SchemaColumns
  import opened SchemaIndexes
  import opened SchemaConstraints

  // ------------------------------------------------------------- kinds of steps

  datatype Part = ColumnPart | IndexPart | ForeignKeyPart | CheckPart | TablePart | NoPart

  function PartOf(k: StepKind): Part {
    match k
    case AddColumn => ColumnPart case DropColumn => ColumnPart case AlterColumnType => ColumnPart
    case AlterNullability => ColumnPart case AlterColumnDefault => ColumnPart
    case AddIndex => IndexPart case DropIndex => IndexPart case AlterIndex => IndexPart
    case AddForeignKey => ForeignKeyPart case DropForeignKey => ForeignKeyPart case AlterForeignKey => ForeignKeyPart
    case AddCheck => CheckPart case DropCheck => CheckPart case AlterCheck => CheckPart
    case AddTable => TablePart case DropTable => TablePart
    case _ => NoPart
  }

  predicate Only(steps: seq<Step>, p: Part) {
    forall i :: 0 <= i < |steps| ==> PartOf(steps[i].kind) == p || PartOf(steps[i].kind) == NoPart
  }

  lemma OnlyAppend(a: seq<Step>, b: seq<Step>, p: Part)
    ensures Only(a + b, p) <==> Only(a, p) && Only(b, p)
  {
    if Only(a + b, p) {
      forall i | 0 <= i < |a| ensures PartOf(a[i].kind) == p || PartOf(a[i].kind) == NoPart {
        assert (a + b)[i] == a[i];
      }
      forall i | 0 <= i < |b| ensures PartOf(b[i].kind) == p || PartOf(b[i].kind) == NoPart {
        assert (a + b)[|a| + i] == b[i];
      }
    }
  }

  /** Steps of one part leave the others alone. */
  lemma OtherParts(steps: seq<Step>, p: Part, m: TableMeaning)
    requires Only(steps, p)
    ensures p != ColumnPart ==> Fold(steps, m.columns, ApplyColumn) == m.columns
    ensures p != IndexPart ==> Fold(steps, m.indexes, ApplyIndex) == m.indexes
    ensures p != ForeignKeyPart ==> Fold(steps, m.foreignKeys, Applier(FOREIGN_KEYS)) == m.foreignKeys
    ensures p != CheckPart ==> Fold(steps, m.checks, Applier(CHECKS)) == m.checks
  {
    hide Fold, FamilyItems;
    if p != ColumnPart { FoldNothing(steps, m.columns, ApplyColumn); }
    if p != IndexPart { FoldNothing(steps, m.indexes, ApplyIndex); }
    if p != ForeignKeyPart { FoldNothing(steps, m.foreignKeys, Applier(FOREIGN_KEYS)); }
    if p != CheckPart { FoldNothing(steps, m.checks, Applier(CHECKS)); }
  }

  lemma {:induction false} FoldParts(steps: seq<Step>, m: TableMeaning)
    ensures Fold(steps, m, ApplyInTable)
         == TableMeaning(Fold(steps, m.columns, ApplyColumn), Fold(steps, m.indexes, ApplyIndex),
                         Fold(steps, m.foreignKeys, Applier(FOREIGN_KEYS)), Fold(steps, m.checks, Applier(CHECKS)))
  {
    hide ApplyColumn, ApplyIndex, ApplyConstraint;
    if steps != [] { FoldParts(steps[..|steps| - 1], m); }
  }

  lemma OnlyOne(b: bool, s: Step, p: Part)
    requires PartOf(s.kind) == p || PartOf(s.kind) == NoPart
    ensures Only([s], p) && Only(Marker(b, s), p) && Only([], p)
  {
  }

  lemma ColumnStepKinds(a: Table, b: Table, c: Column)
    ensures Only(DesiredColumnSteps(a, b, c), ColumnPart) && Only(CurrentColumnSteps(a, b, c), ColumnPart)
  {
    hide FindColumn, AmbiguousColumns, NameKey, ColumnDefault, NormalizeType, Only;
    var u := UnknownStep(b.name, c.name, "");
    var unknown := ColumnDefault(c).state == DefaultUnknown;
    OnlyOne(unknown, u, ColumnPart);
    OnlyOne(true, AddColumnStep(b.name, c), ColumnPart);
    OnlyAppend(Marker(unknown, u), [AddColumnStep(b.name, c)], ColumnPart);
    var drop := Plain(DropColumn, b.name).(column := c.name);
    OnlyOne(true, drop, ColumnPart);
    OnlyAppend(Marker(unknown, u), [drop], ColumnPart);
    match FindColumn(a.columns, NameKey(c.name)) {
      case None =>
      case Some(prior) => AlterStepKinds(b.name, prior, c);
    }
  }

  lemma AlterStepKinds(table: string, prior: Column, c: Column)
    ensures Only(DefaultSteps(table, prior, c) + TypeSteps(table, prior, c) + NullSteps(table, prior, c), ColumnPart)
  {
    hide ColumnDefault, NormalizeType;
    var d, t, u := DefaultSteps(table, prior, c), TypeSteps(table, prior, c), NullSteps(table, prior, c);
    assert Only(d, ColumnPart) && Only(t, ColumnPart) && Only(u, ColumnPart);
    OnlyAppend(d, t, ColumnPart);
    OnlyAppend(d + t, u, ColumnPart);
  }

  lemma {:induction false} ColumnKinds(a: Table, b: Table, n: nat, m: nat)
    requires n <= |b.columns| && m <= |a.columns|
    ensures Only(DesiredColumnsUpTo(a, b, n), ColumnPart) && Only(CurrentColumnsUpTo(a, b, m), ColumnPart)
  {
    hide DesiredColumnSteps, CurrentColumnSteps;
    if n > 0 {
      ColumnKinds(a, b, n - 1, m);
      ColumnStepKinds(a, b, b.columns[n - 1]);
      OnlyAppend(DesiredColumnsUpTo(a, b, n - 1), DesiredColumnSteps(a, b, b.columns[n - 1]), ColumnPart);
    } else if m > 0 {
      ColumnKinds(a, b, 0, m - 1);
      ColumnStepKinds(a, b, a.columns[m - 1]);
      OnlyAppend(CurrentColumnsUpTo(a, b, m - 1), CurrentColumnSteps(a, b, a.columns[m - 1]), ColumnPart);
    }
  }

  lemma IndexStepKinds(a: Table, b: Table, i: Index)
    ensures Only(DesiredIndexSteps(a, b, i), IndexPart) && Only(CurrentIndexSteps(a, b, i), IndexPart)
  {
    hide FindIndex, NameKey, ValidIndex, EqualIndex, RawDiffers, UniqueIndexName;
  }

  lemma {:induction false} IndexKinds(a: Table, b: Table, n: nat, m: nat)
    requires n <= |b.indexes| && m <= |a.indexes|
    ensures Only(DesiredIndexesUpTo(a, b, n), IndexPart) && Only(CurrentIndexesUpTo(a, b, m), IndexPart)
  {
    hide DesiredIndexSteps, CurrentIndexSteps;
    if n > 0 {
      IndexKinds(a, b, n - 1, m);
      IndexStepKinds(a, b, b.indexes[n - 1]);
      OnlyAppend(DesiredIndexesUpTo(a, b, n - 1), DesiredIndexSteps(a, b, b.indexes[n - 1]), IndexPart);
    } else if m > 0 {
      IndexKinds(a, b, 0, m - 1);
      IndexStepKinds(a, b, a.indexes[m - 1]);
      OnlyAppend(CurrentIndexesUpTo(a, b, m - 1), CurrentIndexSteps(a, b, a.indexes[m - 1]), IndexPart);
    }
  }

  function FamilyPart(f: Family): Part { if f == FOREIGN_KEYS then ForeignKeyPart else CheckPart }

  lemma NameKinds(p: Pair, f: Family, pk: bool, nk: bool, x: seq<Item>, y: seq<Item>, name: string)
    requires IsFamily(f) && (x != [] || y != [])
    ensures Only(NameSteps(p, f, pk, nk, x, y, name), FamilyPart(f))
  {
    hide InvalidDefinition, AmbiguousName, EqualConstraint;
  }

  lemma {:induction false} ConstraintKinds(p: Pair, f: Family, pk: bool, nk: bool, prior: seq<Item>, next: seq<Item>,
      n: nat)
    requires IsFamily(f) && n <= |next + prior|
    ensures Only(CompareUpTo(p, f, pk, nk, prior, next, n), FamilyPart(f))
  {
    hide Named, NameSteps, FamilyPart, IsFamily;
    if n > 0 {
      ConstraintKinds(p, f, pk, nk, prior, next, n - 1);
      var name := (next + prior)[n - 1].name;
      NamedNonEmpty(prior, next, n - 1);
      NameKinds(p, f, pk, nk, Named(prior, name), Named(next, name), name);
      OnlyAppend(CompareUpTo(p, f, pk, nk, prior, next, n - 1), CompareAt(p, f, pk, nk, prior, next, n - 1),
          FamilyPart(f));
    }
  }

  // -------------------------------------------------------------------- attaching

  lemma AttachOne(p: Pair, s: Step, m: TableMeaning)
    requires !Attach(p, s).unknown
    ensures !s.unknown && Attach(p, s).kind == s.kind
    ensures ApplyColumn(Attach(p, s), m.columns) == ApplyColumn(s, m.columns)
    ensures ApplyIndex(Attach(p, s), m.indexes) == ApplyIndex(s, m.indexes)
  {
    hide NormalizeType, IndexMean;
  }

  /** Attaching tables changes nothing about the effect unless it makes a marker. */
  lemma {:induction false} AttachEffect(p: Pair, steps: seq<Step>, m: TableMeaning)
    requires NoUnknown(AttachAll(p, steps))
    ensures NoUnknown(steps)
    ensures Fold(AttachAll(p, steps), m.columns, ApplyColumn) == Fold(steps, m.columns, ApplyColumn)
    ensures Fold(AttachAll(p, steps), m.indexes, ApplyIndex) == Fold(steps, m.indexes, ApplyIndex)
  {
    hide Attach, ApplyColumn, ApplyIndex;
    if steps != [] {
      var init, s := steps[..|steps| - 1], steps[|steps| - 1];
      NoUnknownAppend(AttachAll(p, init), [Attach(p, s)]);
      MarkerKnown(true, Attach(p, s));
      AttachEffect(p, init, m);
      AttachOne(p, s, TableMeaning(Fold(init, m.columns, ApplyColumn), Fold(init, m.indexes, ApplyIndex),
          m.foreignKeys, m.checks));
      assert AttachAll(p, steps)[..|steps| - 1] == AttachAll(p, init);
    }
  }

  lemma {:induction false} AttachOnly(p: Pair, steps: seq<Step>)
    requires forall i :: 0 <= i < |steps| ==> PartOf(steps[i].kind) in {ColumnPart, IndexPart, NoPart}
    ensures forall i :: 0 <= i < |steps| ==> PartOf(AttachAll(p, steps)[i].kind) in {ColumnPart, IndexPart, NoPart}
  {
    if steps != [] { AttachOnly(p, steps[..|steps| - 1]); }
  }

  // ----------------------------------------------------------------- one whole table

  function LocalSteps(p: Pair): seq<Step> { AttachAll(p, DiffTable(p.prev, p.next)) + DiffConstraints(p) }

  predicate LocalComplete(p: Pair) {
    AttributesComplete(p.prev.indexes) && AttributesComplete(p.next.indexes) && NoUnknown(LocalSteps(p))
  }

  function ColumnSteps(a: Table, b: Table): seq<Step> {
    DesiredColumnsUpTo(a, b, |b.columns|) + CurrentColumnsUpTo(a, b, |a.columns|)
  }

  function AmbiguityMark(a: Table, b: Table): seq<Step> {
    Marker(AmbiguousColumns(a, b) != {}, UnknownStep(b.name, "", ""))
  }

  lemma DiffTableParts(a: Table, b: Table)
    ensures DiffTable(a, b) == AmbiguityMark(a, b) + ColumnSteps(a, b) + IndexSteps(a, b)
    ensures Only(AmbiguityMark(a, b), NoPart) && Only(ColumnSteps(a, b), ColumnPart)
            && Only(IndexSteps(a, b), IndexPart)
  {
    hide DesiredColumnsUpTo, CurrentColumnsUpTo, DesiredIndexesUpTo, CurrentIndexesUpTo, AmbiguousColumns;
    ColumnKinds(a, b, |b.columns|, |a.columns|);
    IndexKinds(a, b, |b.indexes|, |a.indexes|);
    OnlyAppend(DesiredColumnsUpTo(a, b, |b.columns|), CurrentColumnsUpTo(a, b, |a.columns|), ColumnPart);
    OnlyAppend(DesiredIndexesUpTo(a, b, |b.indexes|), CurrentIndexesUpTo(a, b, |a.indexes|), IndexPart);
  }

  function FamilySteps(p: Pair, f: Family): seq<Step> {
    if f == FOREIGN_KEYS then
      CompareItems(p, f, p.prevCoverage.foreignKeys == Complete, p.nextCoverage.foreignKeys == Complete,
          FamilyItems(f, p.prev), FamilyItems(f, p.next))
    else
      CompareItems(p, f, p.prevCoverage.checks == Complete, p.nextCoverage.checks == Complete, FamilyItems(f, p.prev),
          FamilyItems(f, p.next))
  }

  predicate FamiliesKnown(t: Table) { AllKnown(FamilyItems(FOREIGN_KEYS, t)) && AllKnown(FamilyItems(CHECKS, t)) }

  /** Complete constraint comparisons are the two families' steps and nothing else. */
  lemma DiffConstraintsParts(p: Pair)
    ensures NoUnknown(DiffConstraints(p)) ==> FamiliesKnown(p.prev) && FamiliesKnown(p.next)
    ensures FamiliesKnown(p.prev) && FamiliesKnown(p.next)
            ==> DiffConstraints(p) == FamilySteps(p, FOREIGN_KEYS) + FamilySteps(p, CHECKS)
  {
    hide UnknownItems, AllKnown, CompareItems, FkItems, CheckItems;
    var pf, nf := FkItems(p.prev, p.prev.foreignKeys), FkItems(p.next, p.next.foreignKeys);
    var pc, nc := CheckItems(p.prev.checks), CheckItems(p.next.checks);
    UnknownItemsMeans(p, pf);
    UnknownItemsMeans(p, pc);
    UnknownItemsMeans(p, nf);
    UnknownItemsMeans(p, nc);
    var u := UnknownItems(p, pf) + UnknownItems(p, pc) + UnknownItems(p, nf) + UnknownItems(p, nc);
    NoUnknownAppend(UnknownItems(p, pf), UnknownItems(p, pc));
    NoUnknownAppend(UnknownItems(p, pf) + UnknownItems(p, pc), UnknownItems(p, nf));
    NoUnknownAppend(UnknownItems(p, pf) + UnknownItems(p, pc) + UnknownItems(p, nf), UnknownItems(p, nc));
    NoUnknownAppend(u, FamilySteps(p, FOREIGN_KEYS));
    NoUnknownAppend(u + FamilySteps(p, FOREIGN_KEYS), FamilySteps(p, CHECKS));
  }

  lemma FamilyKinds(p: Pair, f: Family)
    requires IsFamily(f)
    ensures Only(FamilySteps(p, f), FamilyPart(f))
  {
    hide CompareUpTo, FamilyItems;
    var x, y := FamilyItems(f, p.prev), FamilyItems(f, p.next);
    if f == FOREIGN_KEYS {
      ConstraintKinds(p, f, p.prevCoverage.foreignKeys == Complete, p.nextCoverage.foreignKeys == Complete, x, y,
          |y + x|);
    }
    else { ConstraintKinds(p, f, p.prevCoverage.checks == Complete, p.nextCoverage.checks == Complete, x, y, |y + x|); }
  }

  lemma FamilySound(p: Pair, f: Family)
    requires IsFamily(f) && NoUnknown(FamilySteps(p, f)) && AllKnown(FamilyItems(f, p.prev))
             && AllKnown(FamilyItems(f, p.next))
    ensures Fold(FamilySteps(p, f), Constraints(FamilyItems(f, p.prev)), Applier(f))
            == Constraints(FamilyItems(f, p.next))
    ensures Constraints(FamilyItems(f, p.prev)) == Constraints(FamilyItems(f, p.next)) <==> FamilySteps(p, f) == []
  {
    hide CompareItems, FamilyItems, AllKnown;
    var x, y := FamilyItems(f, p.prev), FamilyItems(f, p.next);
    if f == FOREIGN_KEYS {
      ConstraintsSound(p, f, p.prevCoverage.foreignKeys == Complete, p.nextCoverage.foreignKeys == Complete, x, y);
      ConstraintsQuiet(p, f, p.prevCoverage.foreignKeys == Complete, p.nextCoverage.foreignKeys == Complete, x, y);
    } else {
      ConstraintsSound(p, f, p.prevCoverage.checks == Complete, p.nextCoverage.checks == Complete, x, y);
      ConstraintsQuiet(p, f, p.prevCoverage.checks == Complete, p.nextCoverage.checks == Complete, x, y);
    }
  }

  /** What completeness of the local steps gives for each part. */
  lemma LocalFacts(p: Pair)
    requires LocalComplete(p)
    ensures NoUnknown(AttachAll(p, DiffTable(p.prev, p.next))) && NoUnknown(DiffTable(p.prev, p.next))
    ensures AmbiguousColumns(p.prev, p.next) == {} && AmbiguityMark(p.prev, p.next) == []
    ensures NoUnknown(ColumnSteps(p.prev, p.next)) && NoUnknown(IndexSteps(p.prev, p.next))
    ensures FamiliesKnown(p.prev) && FamiliesKnown(p.next)
    ensures NoUnknown(FamilySteps(p, FOREIGN_KEYS)) && NoUnknown(FamilySteps(p, CHECKS))
  {
    hide DiffTable, DiffConstraints, ColumnSteps, IndexSteps, FamilySteps, FamiliesKnown, AmbiguousColumns,
         AttributesComplete;
    var a, b := p.prev, p.next;
    NoUnknownAppend(AttachAll(p, DiffTable(a, b)), DiffConstraints(p));
    AttachEffect(p, DiffTable(a, b), TableMean(a));
    DiffTableParts(a, b);
    NoUnknownAppend(AmbiguityMark(a, b) + ColumnSteps(a, b), IndexSteps(a, b));
    NoUnknownAppend(AmbiguityMark(a, b), ColumnSteps(a, b));
    MarkerKnown(AmbiguousColumns(a, b) != {}, UnknownStep(b.name, "", ""));
    DiffConstraintsParts(p);
    NoUnknownAppend(FamilySteps(p, FOREIGN_KEYS), FamilySteps(p, CHECKS));
  }

  lemma ColumnsOfTable(a: Table, b: Table, m: TableMeaning)
    requires AmbiguousColumns(a, b) == {} && NoUnknown(ColumnSteps(a, b)) && m.columns == Columns(a.columns)
    ensures Fold(DiffTable(a, b), m.columns, ApplyColumn) == Columns(b.columns)
  {
    hide AmbiguousColumns, IndexSteps, DesiredColumnsUpTo, CurrentColumnsUpTo, Columns, Fold, DiffTable;
    DiffTableParts(a, b);
    NoUnknownAppend(DesiredColumnsUpTo(a, b, |b.columns|), CurrentColumnsUpTo(a, b, |a.columns|));
    ColumnsSound(a, b);
    FoldAppend(AmbiguityMark(a, b) + ColumnSteps(a, b), IndexSteps(a, b), m.columns, ApplyColumn);
    assert AmbiguityMark(a, b) + ColumnSteps(a, b) == ColumnSteps(a, b);
    OtherParts(IndexSteps(a, b), IndexPart, m.(columns := Columns(b.columns)));
  }

  lemma IndexesOfTable(a: Table, b: Table, m: TableMeaning)
    requires AmbiguousColumns(a, b) == {} && m.indexes == Indexes(a.indexes)
    ensures Fold(DiffTable(a, b), m.indexes, ApplyIndex) == Fold(IndexSteps(a, b), m.indexes, ApplyIndex)
  {
    hide AmbiguousColumns, IndexSteps, ColumnSteps, Indexes, Fold, DiffTable;
    DiffTableParts(a, b);
    FoldAppend(AmbiguityMark(a, b) + ColumnSteps(a, b), IndexSteps(a, b), m.indexes, ApplyIndex);
    assert AmbiguityMark(a, b) + ColumnSteps(a, b) == ColumnSteps(a, b);
    OtherParts(ColumnSteps(a, b), ColumnPart, m);
  }

  lemma TableStepsSpareConstraints(p: Pair, m: TableMeaning)
    ensures Fold(AttachAll(p, DiffTable(p.prev, p.next)), m.foreignKeys, Applier(FOREIGN_KEYS)) == m.foreignKeys
    ensures Fold(AttachAll(p, DiffTable(p.prev, p.next)), m.checks, Applier(CHECKS)) == m.checks
  {
    hide AmbiguityMark, IndexSteps, ColumnSteps, Fold, DiffTable, FamilyItems, Named;
    var a, b := p.prev, p.next;
    DiffTableParts(a, b);
    TwoParts(AmbiguityMark(a, b), ColumnSteps(a, b), IndexSteps(a, b));
    AttachOnly(p, DiffTable(a, b));
    FoldNothing(AttachAll(p, DiffTable(a, b)), m.foreignKeys, Applier(FOREIGN_KEYS));
    FoldNothing(AttachAll(p, DiffTable(a, b)), m.checks, Applier(CHECKS));
  }

  lemma TwoParts(x: seq<Step>, y: seq<Step>, z: seq<Step>)
    requires Only(x, NoPart) && Only(y, ColumnPart) && Only(z, IndexPart)
    ensures forall i :: 0 <= i < |x + y + z| ==> PartOf((x + y + z)[i].kind) in {ColumnPart, IndexPart, NoPart}
  {
  }

  /** The local steps of a complete comparison turn the current table into the desired
      one exactly when no two current indexes share a key. */
  lemma LocalEffect(p: Pair)
    requires LocalComplete(p)
    ensures Fold(LocalSteps(p), TableMean(p.prev), ApplyInTable) == TableMean(p.next) <==> DistinctIndexKeys(p.prev)
  {
    hide DiffTable, DiffConstraints, ColumnSteps, IndexSteps, FamilySteps, AmbiguousColumns, AttributesComplete,
         Columns, Indexes, Constraints,
         FkItems, CheckItems, AllKnown, DistinctIndexKeys, ApplyColumn, ApplyIndex, ApplyConstraint, ApplyInTable,
         Fold, Applier;
    var a, b, m := p.prev, p.next, TableMean(p.prev);
    LocalFacts(p);
    var d, k := AttachAll(p, DiffTable(a, b)), DiffConstraints(p);
    FoldParts(LocalSteps(p), m);
    FoldAppend(d, k, m.columns, ApplyColumn);
    FoldAppend(d, k, m.indexes, ApplyIndex);
    FoldAppend(d, k, m.foreignKeys, Applier(FOREIGN_KEYS));
    FoldAppend(d, k, m.checks, Applier(CHECKS));
    AttachEffect(p, DiffTable(a, b), m);
    ColumnsOfTable(a, b, m);
    IndexesOfTable(a, b, m);
    IndexesExact(a, b);
    TableStepsSpareConstraints(p, m);
    ConstraintsOfTable(p, TableMeaning(Columns(b.columns), Fold(d, m.indexes, ApplyIndex), m.foreignKeys, m.checks));
  }

  lemma ConstraintsOfTable(p: Pair, m: TableMeaning)
    requires FamiliesKnown(p.prev) && FamiliesKnown(p.next) && NoUnknown(FamilySteps(p, FOREIGN_KEYS))
             && NoUnknown(FamilySteps(p, CHECKS))
    requires m.foreignKeys == Constraints(FamilyItems(FOREIGN_KEYS, p.prev))
             && m.checks == Constraints(FamilyItems(CHECKS, p.prev))
    ensures Fold(DiffConstraints(p), m.columns, ApplyColumn) == m.columns
            && Fold(DiffConstraints(p), m.indexes, ApplyIndex) == m.indexes
    ensures Fold(DiffConstraints(p), m.foreignKeys, Applier(FOREIGN_KEYS))
            == Constraints(FamilyItems(FOREIGN_KEYS, p.next))
    ensures Fold(DiffConstraints(p), m.checks, Applier(CHECKS)) == Constraints(FamilyItems(CHECKS, p.next))
  {
    hide DiffConstraints, FamilySteps, FamilyItems, Constraints, AllKnown, ApplyColumn, ApplyIndex, Applier, Fold;
    DiffConstraintsParts(p);
    var f, c := FamilySteps(p, FOREIGN_KEYS), FamilySteps(p, CHECKS);
    FamilyKinds(p, FOREIGN_KEYS);
    FamilyKinds(p, CHECKS);
    FoldAppend(f, c, m.columns, ApplyColumn);
    FoldAppend(f, c, m.indexes, ApplyIndex);
    FoldAppend(f, c, m.foreignKeys, Applier(FOREIGN_KEYS));
    FoldAppend(f, c, m.checks, Applier(CHECKS));
    FamilySound(p, FOREIGN_KEYS);
    FamilySound(p, CHECKS);
    OtherParts(f, ForeignKeyPart, m);
    OtherParts(c, CheckPart, m);
    OtherParts(c, CheckPart, m.(foreignKeys := Constraints(FamilyItems(FOREIGN_KEYS, p.next))));
  }

  /** No local step means equal tables, and conversely. */
  lemma LocalQuiet(p: Pair)
    requires LocalComplete(p) && DistinctIndexKeys(p.prev)
    ensures TableMean(p.prev) == TableMean(p.next) <==> LocalSteps(p) == []
  {
    hide DiffConstraints, ColumnSteps, IndexSteps, FamilySteps, AmbiguousColumns, Columns, Indexes, Constraints,
         FkItems, CheckItems, AllKnown, DistinctIndexKeys, AttributesComplete, DiffTable;
    LocalFacts(p);
    DiffTableParts(p.prev, p.next);
    DiffConstraintsParts(p);
    ColumnsSilent(p.prev, p.next);
    IndexesQuiet(p.prev, p.next);
    FamilySound(p, FOREIGN_KEYS);
    FamilySound(p, CHECKS);
    assert AmbiguityMark(p.prev, p.next) + ColumnSteps(p.prev, p.next) + IndexSteps(p.prev, p.next)
           == ColumnSteps(p.prev, p.next) + IndexSteps(p.prev, p.next);
  }

  lemma ColumnsSilent(a: Table, b: Table)
    requires AmbiguousColumns(a, b) == {} && NoUnknown(ColumnSteps(a, b))
    ensures Columns(a.columns) == Columns(b.columns) <==> ColumnSteps(a, b) == []
  {
    hide DesiredColumnsUpTo, CurrentColumnsUpTo, Columns, AmbiguousColumns;
    NoUnknownAppend(DesiredColumnsUpTo(a, b, |b.columns|), CurrentColumnsUpTo(a, b, |a.columns|));
    ColumnsQuiet(a, b);
  }

  // -------------------------------------------------------------- steps with a table

  /** A step inside the table with key k. */
  predicate Inside(s: Step, k: ObjectKey) { StepKey(s) == Some(k) && PartOf(s.kind) != TablePart }

  predicate AllInside(steps: seq<Step>, k: ObjectKey) { forall i :: 0 <= i < |steps| ==> Inside(steps[i], k) }

  lemma AllInsideAppend(a: seq<Step>, b: seq<Step>, k: ObjectKey)
    requires AllInside(a, k) && AllInside(b, k)
    ensures AllInside(a + b, k)
  {
  }

  /** Steps inside one table rewrite that table and nothing else. */
  lemma {:induction false} FoldInside(steps: seq<Step>, k: ObjectKey, m: map<ObjectKey, TableMeaning>)
    requires AllInside(steps, k) && k in m
    ensures Apply(steps, m) == m[k := Fold(steps, m[k], ApplyInTable)]
  {
    hide ApplyInTable, StepKey;
    if steps != [] {
      var init := steps[..|steps| - 1];
      assert AllInside(init, k);
      FoldInside(init, k, m);
      assert Inside(steps[|steps| - 1], k);
    }
  }

  lemma {:induction false} AttachedInside(p: Pair, steps: seq<Step>)
    requires forall i :: 0 <= i < |steps| ==> PartOf(steps[i].kind) != TablePart
    ensures AllInside(AttachAll(p, steps), TableKey(p.next))
  {
    hide TableKey;
    if steps != [] { AttachedInside(p, steps[..|steps| - 1]); }
  }

  lemma NameInside(p: Pair, f: Family, pk: bool, nk: bool, x: seq<Item>, y: seq<Item>, name: string)
    requires IsFamily(f) && (x != [] || y != [])
    ensures AllInside(NameSteps(p, f, pk, nk, x, y, name), TableKey(p.next))
  {
    hide InvalidDefinition, AmbiguousName, EqualConstraint, TableKey;
  }

  lemma {:induction false} CompareInside(p: Pair, f: Family, pk: bool, nk: bool, prior: seq<Item>, next: seq<Item>,
      n: nat)
    requires IsFamily(f) && n <= |next + prior|
    ensures AllInside(CompareUpTo(p, f, pk, nk, prior, next, n), TableKey(p.next))
  {
    hide Named, NameSteps, IsFamily, TableKey, Inside;
    if n > 0 {
      CompareInside(p, f, pk, nk, prior, next, n - 1);
      var name := (next + prior)[n - 1].name;
      NamedNonEmpty(prior, next, n - 1);
      NameInside(p, f, pk, nk, Named(prior, name), Named(next, name), name);
      AllInsideAppend(CompareUpTo(p, f, pk, nk, prior, next, n - 1), CompareAt(p, f, pk, nk, prior, next, n - 1),
          TableKey(p.next));
    }
  }

  lemma LocalInside(p: Pair)
    requires LocalComplete(p)
    ensures AllInside(LocalSteps(p), TableKey(p.next))
  {
    hide AmbiguityMark, ColumnSteps, IndexSteps, DiffTable, TableKey, Inside, CompareUpTo, AttributesComplete,
         FamilyItems, AllKnown, DiffConstraints;
    LocalFacts(p);
    DiffTableParts(p.prev, p.next);
    TwoParts(AmbiguityMark(p.prev, p.next), ColumnSteps(p.prev, p.next), IndexSteps(p.prev, p.next));
    AttachedInside(p, DiffTable(p.prev, p.next));
    DiffConstraintsParts(p);
    FamilyInside(p, FOREIGN_KEYS);
    FamilyInside(p, CHECKS);
    AllInsideAppend(FamilySteps(p, FOREIGN_KEYS), FamilySteps(p, CHECKS), TableKey(p.next));
    AllInsideAppend(AttachAll(p, DiffTable(p.prev, p.next)), DiffConstraints(p), TableKey(p.next));
  }

  lemma FamilyInside(p: Pair, f: Family)
    requires IsFamily(f)
    ensures AllInside(FamilySteps(p, f), TableKey(p.next))
  {
    hide FamilyItems, CompareUpTo, Inside, TableKey;
    var x, y := FamilyItems(f, p.prev), FamilyItems(f, p.next);
    if f == FOREIGN_KEYS {
      CompareInside(p, f, p.prevCoverage.foreignKeys == Complete, p.nextCoverage.foreignKeys == Complete, x, y,
          |y + x|);
    }
    else { CompareInside(p, f, p.prevCoverage.checks == Complete, p.nextCoverage.checks == Complete, x, y, |y + x|); }
  }
}
