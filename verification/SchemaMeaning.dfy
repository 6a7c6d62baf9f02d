/** What a schema declares, up to column order, type text, default source, index
    Concurrent and raw definition text, and what one step does to it. */
module SchemaMeaning {
  import opened Text
  import opened SchemaModel
  import opened SchemaDiff

  datatype ColumnMeaning = ColumnMeaning(typ: string, nullable: bool, state: DefaultState, expression: string)

  datatype TableMeaning = TableMeaning(columns: map<string, ColumnMeaning>, indexes: map<string, Index>,
                                       foreignKeys: map<string, ConstraintValue>, checks: map<string, ConstraintValue>)

  function ColumnMean(c: Column): ColumnMeaning {
    ColumnMeaning(NormalizeType(c.typ), c.nullable, ColumnDefault(c).state, ColumnDefault(c).expression)
  }

  function IndexMean(i: Index): Index { i.(name := "", concurrent := false, definitionUnknown := false, raw := "") }

  function ConstraintMean(v: ConstraintValue): ConstraintValue {
    match v
    case FkValue(f) => FkValue(f.(definition := Unset, raw := ""))
    case CheckValue(c) => CheckValue(c.(definition := Unset, raw := ""))
  }

  function Columns(cs: seq<Column>): map<string, ColumnMeaning> {
    if cs == [] then map[] else Columns(cs[..|cs| - 1])[cs[|cs| - 1].name := ColumnMean(cs[|cs| - 1])]
  }

  function Indexes(xs: seq<Index>): map<string, Index> {
    if xs == [] then map[] else Indexes(xs[..|xs| - 1])[xs[|xs| - 1].name := IndexMean(xs[|xs| - 1])]
  }

  function Constraints(items: seq<Item>): map<string, ConstraintValue> {
    if items == [] then map[]
       else Constraints(items[..|items| - 1])[items[|items| - 1].name := ConstraintMean(items[|items| - 1].value)]
  }

  function TableMean(t: Table): TableMeaning {
    TableMeaning(Columns(t.columns), Indexes(t.indexes), Constraints(FkItems(t, t.foreignKeys)),
        Constraints(CheckItems(t.checks)))
  }

  function TablesMean(tables: seq<Table>): map<ObjectKey, TableMeaning> {
    if tables == [] then map[]
    else TablesMean(tables[..|tables| - 1])[TableKey(tables[|tables| - 1]) := TableMean(tables[|tables| - 1])]
  }

  function Meaning(s: Schema): map<ObjectKey, TableMeaning> { TablesMean(s.tables) }

  // ------------------------------------------------------------ the effect of a step

  /** Running f over a list of steps, first step first. */
  function Fold<S>(steps: seq<Step>, m: S, f: (Step, S) -> S): S {
    if steps == [] then m else f(steps[|steps| - 1], Fold(steps[..|steps| - 1], m, f))
  }

  function ApplyColumn(s: Step, m: map<string, ColumnMeaning>): map<string, ColumnMeaning> {
    match s.kind
    case AddColumn =>
      if s.desiredDefault.None? then m
      else m[s.column := ColumnMeaning(NormalizeType(s.columnType), s.nullable, s.desiredDefault.value.state,
         s.desiredDefault.value.expression)]
    case DropColumn => m - {s.column}
    case AlterColumnType =>
       if s.column !in m then m else m[s.column := m[s.column].(typ := NormalizeType(s.columnType))]
    case AlterNullability => if s.column !in m then m else m[s.column := m[s.column].(nullable := s.nullable)]
    case AlterColumnDefault =>
      if s.column !in m || s.desiredDefault.None? then m
      else m[s.column := m[s.column].(state := s.desiredDefault.value.state,
         expression := s.desiredDefault.value.expression)]
    case _ => m
  }

  function ApplyIndex(s: Step, m: map<string, Index>): map<string, Index> {
    match s.kind
    case AddIndex => if s.desiredIndex.None? then m else m[s.index := IndexMean(s.desiredIndex.value)]
    case AlterIndex => if s.desiredIndex.None? then m else m[s.index := IndexMean(s.desiredIndex.value)]
    case DropIndex => m - {s.index}
    case _ => m
  }

  function FamilyItems(f: Family, t: Table): seq<Item> {
    if f == FOREIGN_KEYS then FkItems(t, t.foreignKeys) else CheckItems(t.checks)
  }

  /** An added or altered constraint is the one the desired table declares by that name. */
  function ApplyConstraint(f: Family, s: Step, m: map<string, ConstraintValue>): map<string, ConstraintValue> {
    if s.kind == f.drop then m - {s.constraint}
    else if (s.kind == f.add || s.kind == f.alter) && s.desiredTable.Some? then
      var x := Named(FamilyItems(f, s.desiredTable.value), s.constraint);
      if x == [] then m else m[s.constraint := ConstraintMean(x[0].value)]
    else m
  }

  function Applier(f: Family): (Step, map<string, ConstraintValue>) -> map<string, ConstraintValue> {
    (s, m) => ApplyConstraint(f, s, m)
  }

  function ApplyInTable(s: Step, m: TableMeaning): TableMeaning {
    TableMeaning(ApplyColumn(s, m.columns), ApplyIndex(s, m.indexes),
                 ApplyConstraint(FOREIGN_KEYS, s, m.foreignKeys), ApplyConstraint(CHECKS, s, m.checks))
  }

  /** The table a step belongs to, by the definitions attached to it. */
  function StepKey(s: Step): Option<ObjectKey> {
    if s.desiredTable.Some? then Some(TableKey(s.desiredTable.value))
    else if s.currentTable.Some? then Some(TableKey(s.currentTable.value))
    else None
  }

  function ApplyStep(s: Step, m: map<ObjectKey, TableMeaning>): map<ObjectKey, TableMeaning> {
    match (s.kind, StepKey(s))
    case (_, None) => m
    case (AddTable, Some(k)) => if s.desiredTable.None? then m else m[k := TableMean(s.desiredTable.value)]
    case (DropTable, Some(k)) => m - {k}
    case (_, Some(k)) => if k !in m then m else m[k := ApplyInTable(s, m[k])]
  }

  function Apply(steps: seq<Step>, m: map<ObjectKey, TableMeaning>): map<ObjectKey, TableMeaning> {
    Fold(steps, m, ApplyStep)
  }

  // ---------------------------------------------------------------- runs of steps

  lemma {:induction false} FoldAppend<S>(a: seq<Step>, b: seq<Step>, m: S, f: (Step, S) -> S)
    ensures Fold(a + b, m, f) == Fold(b, Fold(a, m, f), f)
  {
    if b == [] {
      assert a + b == a;
    } else {
      var n := |b| - 1;
      FoldAppend(a, b[..n], m, f);
      assert (a + b)[..|a + b| - 1] == a + b[..n];
    }
  }

  lemma {:induction false} FoldNothing<S>(steps: seq<Step>, m: S, f: (Step, S) -> S)
    requires forall i, x :: 0 <= i < |steps| ==> f(steps[i], x) == x
    ensures Fold(steps, m, f) == m
  {
    if steps != [] { FoldNothing(steps[..|steps| - 1], m, f); }
  }

  lemma FoldOne<S>(s: Step, m: S, f: (Step, S) -> S)
    ensures Fold([s], m, f) == f(s, m)
  {
    assert Fold([], m, f) == m;
    assert [s][..0] == [];
  }

  lemma NoUnknownAppend(a: seq<Step>, b: seq<Step>)
    ensures NoUnknown(a + b) <==> NoUnknown(a) && NoUnknown(b)
  {
    if NoUnknown(a + b) {
      forall i | 0 <= i < |a| ensures !a[i].unknown { assert (a + b)[i] == a[i]; }
      forall i | 0 <= i < |b| ensures !b[i].unknown { assert (a + b)[|a| + i] == b[i]; }
    }
  }

  lemma MarkerKnown(b: bool, s: Step)
    ensures NoUnknown(Marker(b, s)) <==> !b || !s.unknown
    ensures NoUnknown([s]) <==> !s.unknown
  {
    assert [s][0] == s;
  }
}
