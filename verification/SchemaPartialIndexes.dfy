/** Definite index steps of every plan, incomplete and legacy ones included. */
module SchemaPartialIndexes {
  import opened Text
  import opened SchemaModel
  import opened SchemaDiff
  import opened SchemaTables
  import opened SchemaTheorems
  import opened SchemaPartial

  /** The only index of that key, under that simple name. */
  predicate SoleIndex(xs: seq<Index>, p: nat, name: string) {
    && p < |xs| && xs[p].name == name && SimpleName(name)
    && forall k :: 0 <= k < |xs| && NameKey(xs[k].name) == name ==> k == p
  }

  predicate NoIndex(xs: seq<Index>, name: string) { forall k :: 0 <= k < |xs| ==> NameKey(xs[k].name) != name }

  lemma {:induction false} NoIndexFound(xs: seq<Index>, name: string)
    requires NoIndex(xs, name)
    ensures FindIndex(xs, name).None? && IndexKeyCount(xs, name) == 0
  {
    hide NameKey;
    if xs != [] { NoIndexFound(xs[..|xs| - 1], name); }
  }

  lemma {:induction false} SoleIndexFound(xs: seq<Index>, p: nat, name: string)
    requires SoleIndex(xs, p, name)
    ensures FindIndex(xs, name) == Some(xs[p]) && IndexKeyCount(xs, name) == 1
  {
    hide NameKey, SimpleName;
    SimpleNameIsItsKey(name);
    var n := |xs| - 1;
    if p == n { NoIndexFound(xs[..n], name); } else { SoleIndexFound(xs[..n], p, name); }
  }

  lemma IndexStepsIn(a: Table, b: Table, s: Step)
    requires !s.unknown && PartOf(s.kind) == IndexPart
    ensures s in DiffTable(a, b) <==>
            s in DesiredIndexesUpTo(a, b, |b.indexes|) || s in CurrentIndexesUpTo(a, b, |a.indexes|)
  {
    hide DesiredColumnsUpTo, CurrentColumnsUpTo, DesiredIndexesUpTo, CurrentIndexesUpTo, AmbiguousColumns;
    ColumnKinds(a, b, |b.columns|, |a.columns|);
  }

  lemma DesiredIndexNames(a: Table, b: Table, i: Index, s: Step)
    requires s in DesiredIndexSteps(a, b, i)
    ensures s.index == i.name && (s.unknown || s.kind == AddIndex || s.kind == AlterIndex)
  {
    hide NameKey, ValidIndex, EqualIndex, RawDiffers, UniqueIndexName, FindIndex;
  }

  lemma CurrentIndexNames(a: Table, b: Table, i: Index, s: Step)
    requires s in CurrentIndexSteps(a, b, i)
    ensures s.index == i.name && (s.unknown || s.kind == DropIndex)
  {
    hide NameKey, ValidIndex, UniqueIndexName, FindIndex;
  }

  lemma DesiredIndexEmits(a: Table, b: Table, q: nat, name: string, kind: StepKind)
    requires SoleIndex(b.indexes, q, name) && (kind == AddIndex || kind == AlterIndex)
    ensures Emits(DiffTable(a, b), kind, name) <==> Emits(DesiredIndexSteps(a, b, b.indexes[q]), kind, name)
  {
    hide DiffTable, DesiredIndexSteps, CurrentIndexSteps, SimpleName, NameKey, DesiredIndexesUpTo, CurrentIndexesUpTo;
    SimpleNameIsItsKey(name);
    forall s: Step | !s.unknown && s.kind == kind && s.index == name
      ensures s in DiffTable(a, b) <==> s in DesiredIndexSteps(a, b, b.indexes[q])
    {
      IndexStepsIn(a, b, s);
      DesiredIndexesIn(a, b, |b.indexes|, s);
      CurrentIndexesIn(a, b, |a.indexes|, s);
      forall k | 0 <= k < |b.indexes| && s in DesiredIndexSteps(a, b, b.indexes[k]) ensures k == q {
        DesiredIndexNames(a, b, b.indexes[k], s);
      }
      forall k | 0 <= k < |a.indexes| ensures s !in CurrentIndexSteps(a, b, a.indexes[k]) {
        if s in CurrentIndexSteps(a, b, a.indexes[k]) { CurrentIndexNames(a, b, a.indexes[k], s); }
      }
    }
  }

  lemma CurrentIndexEmits(a: Table, b: Table, p: nat, name: string)
    requires SoleIndex(a.indexes, p, name)
    ensures Emits(DiffTable(a, b), DropIndex, name) <==> Emits(CurrentIndexSteps(a, b, a.indexes[p]), DropIndex, name)
  {
    hide DiffTable, DesiredIndexSteps, CurrentIndexSteps, SimpleName, NameKey, DesiredIndexesUpTo, CurrentIndexesUpTo;
    SimpleNameIsItsKey(name);
    forall s: Step | !s.unknown && s.kind == DropIndex && s.index == name
      ensures s in DiffTable(a, b) <==> s in CurrentIndexSteps(a, b, a.indexes[p])
    {
      IndexStepsIn(a, b, s);
      DesiredIndexesIn(a, b, |b.indexes|, s);
      CurrentIndexesIn(a, b, |a.indexes|, s);
      forall k | 0 <= k < |b.indexes| ensures s !in DesiredIndexSteps(a, b, b.indexes[k]) {
        if s in DesiredIndexSteps(a, b, b.indexes[k]) { DesiredIndexNames(a, b, b.indexes[k], s); }
      }
      forall k | 0 <= k < |a.indexes| && s in CurrentIndexSteps(a, b, a.indexes[k]) ensures k == p {
        CurrentIndexNames(a, b, a.indexes[k], s);
      }
    }
  }

  /** Some declared attribute differs; name, Concurrent and raw text aside. */
  predicate IndexesDiffer(x: Index, y: Index) {
    x.unique != y.unique || x.columns != y.columns || x.keys != y.keys || x.filter != y.filter || x.access != y.access
    || x.included != y.included || x.visibility != y.visibility || x.attributes != y.attributes
  }

  lemma SharedIndexEmits(a: Table, b: Table, p: nat, q: nat, name: string)
    requires SoleIndex(a.indexes, p, name) && SoleIndex(b.indexes, q, name)
    ensures var x, y, steps := a.indexes[p], b.indexes[q], DesiredIndexSteps(a, b, b.indexes[q]);
            && (Emits(steps, AlterIndex, name) <==> ValidIndex(x, a) && ValidIndex(y, b) && IndexesDiffer(x, y))
            && !Emits(steps, AddIndex, name)
    ensures !Emits(CurrentIndexSteps(a, b, a.indexes[p]), DropIndex, name)
  {
    hide NameKey, SimpleName, FindIndex, ValidIndex, RawDiffers, UniqueIndexName;
    SoleIndexFound(a.indexes, p, name);
    SoleIndexFound(b.indexes, q, name);
    SimpleNameIsItsKey(name);
    var x, y, steps := a.indexes[p], b.indexes[q], DesiredIndexSteps(a, b, b.indexes[q]);
    if ValidIndex(x, a) && ValidIndex(y, b) && IndexesDiffer(x, y) { assert steps[0] in steps; }
  }

  lemma NewIndexEmits(a: Table, b: Table, q: nat, name: string)
    requires NoIndex(a.indexes, name) && SoleIndex(b.indexes, q, name)
    ensures Emits(DesiredIndexSteps(a, b, b.indexes[q]), AddIndex, name)
  {
    hide NameKey, FindIndex, ValidIndex, RawDiffers, SimpleName, IndexKeyCount;
    NoIndexFound(a.indexes, name);
    SoleIndexFound(b.indexes, q, name);
    SimpleNameIsItsKey(name);
    assert AddIndexStep(b.name, b.indexes[q]) in DesiredIndexSteps(a, b, b.indexes[q]);
  }

  lemma GoneIndexEmits(a: Table, b: Table, p: nat, name: string)
    requires SoleIndex(a.indexes, p, name) && NoIndex(b.indexes, name)
    ensures Emits(CurrentIndexSteps(a, b, a.indexes[p]), DropIndex, name)
  {
    hide NameKey, FindIndex, ValidIndex, RawDiffers, SimpleName, IndexKeyCount;
    SoleIndexFound(a.indexes, p, name);
    NoIndexFound(b.indexes, name);
    SimpleNameIsItsKey(name);
    assert DropIndexStep(b.name, a.indexes[p]) in CurrentIndexSteps(a, b, a.indexes[p]);
  }

  lemma AlterIndexStays(p: Pair)
    ensures !Downgraded(p, AlterIndex)
  {
  }

  /** For every pair of schemas: an index of both tables under one unambiguous name is
      altered exactly when both definitions are valid and some attribute differs. */
  lemma SharedIndexExactly(current: Schema, desired: Schema, i: nat, j: nat, p: nat, q: nat, name: string)
    requires Met(current, desired, i, j)
    requires SoleIndex(current.tables[i].indexes, p, name) && SoleIndex(desired.tables[j].indexes, q, name)
    ensures var a, b, steps := current.tables[i], desired.tables[j], DiffSteps(current, desired);
            var x, y := a.indexes[p], b.indexes[q];
            && (HasStep(steps, AlterIndex, a, b, name) <==>
                ValidIndex(x, a) && ValidIndex(y, b) && IndexesDiffer(x, y))
            && !HasStep(steps, AddIndex, a, b, name) && !HasStep(steps, DropIndex, a, b, name)
  {
    hide Met, DiffSteps, DiffTable, DesiredIndexSteps, CurrentIndexSteps, SoleIndex, HasStep, Emits, PairOf,
         Downgraded, ValidIndex, IndexesDiffer;
    MetBounds(current, desired, i, j);
    var a, b := current.tables[i], desired.tables[j];
    AlterIndexStays(PairOf(current, desired, a, b));
    PlanEmits(current, desired, i, j, AlterIndex, name);
    PlanEmits(current, desired, i, j, AddIndex, name);
    PlanEmits(current, desired, i, j, DropIndex, name);
    DesiredIndexEmits(a, b, q, name, AlterIndex);
    DesiredIndexEmits(a, b, q, name, AddIndex);
    CurrentIndexEmits(a, b, p, name);
    SharedIndexEmits(a, b, p, q, name);
  }

  predicate IndexesVouched(t: Table, context: Option<Context>) {
    context.Some? && t.coverage.indexes == Complete && context.value.coverage.indexes == Complete
  }

  /** A definite new index appears, even for a definition that is marked invalid,
      exactly when scopes are equal and the current side vouches for its indexes. */
  lemma NewIndexExactly(current: Schema, desired: Schema, i: nat, j: nat, q: nat, name: string)
    requires Met(current, desired, i, j)
    requires NoIndex(current.tables[i].indexes, name) && SoleIndex(desired.tables[j].indexes, q, name)
    ensures HasStep(DiffSteps(current, desired), AddIndex, current.tables[i], desired.tables[j], name) <==>
            SameScope(current.context, desired.context) && IndexesVouched(current.tables[i], current.context)
  {
    hide Met, DiffSteps, DiffTable, DesiredIndexSteps, SoleIndex, NoIndex, HasStep, Emits, SameScope;
    MetBounds(current, desired, i, j);
    var a, b := current.tables[i], desired.tables[j];
    PlanEmits(current, desired, i, j, AddIndex, name);
    DesiredIndexEmits(a, b, q, name, AddIndex);
    NewIndexEmits(a, b, q, name);
  }

  lemma GoneIndexExactly(current: Schema, desired: Schema, i: nat, j: nat, p: nat, name: string)
    requires Met(current, desired, i, j)
    requires SoleIndex(current.tables[i].indexes, p, name) && NoIndex(desired.tables[j].indexes, name)
    ensures HasStep(DiffSteps(current, desired), DropIndex, current.tables[i], desired.tables[j], name) <==>
            SameScope(current.context, desired.context) && IndexesVouched(desired.tables[j], desired.context)
  {
    hide Met, DiffSteps, DiffTable, CurrentIndexSteps, SoleIndex, NoIndex, HasStep, Emits, SameScope;
    MetBounds(current, desired, i, j);
    var a, b := current.tables[i], desired.tables[j];
    PlanEmits(current, desired, i, j, DropIndex, name);
    CurrentIndexEmits(a, b, p, name);
    GoneIndexEmits(a, b, p, name);
  }
}
