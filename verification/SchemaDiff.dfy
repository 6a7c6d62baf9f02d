/** orm/migration/schema.go, schema_constraints.go, drift.go: the steps a comparison
    of two schemas produces, markers of unknown comparisons included. */
module SchemaDiff {
  import opened Text
  import opened SchemaModel

  datatype StepKind =
    | AddTable | DropTable
    | AddColumn | DropColumn | AlterColumnType | AlterNullability | AlterColumnDefault
    | AddIndex | DropIndex | AlterIndex
    | AddForeignKey | DropForeignKey | AlterForeignKey
    | AddCheck | DropCheck | AlterCheck
    | IdentityDifference | UnsupportedStep

  /** MigrationStep without its risk texts: what the comparison fills in. */
  datatype Step = Step(kind: StepKind, unknown: bool, table: string, column: string, index: string, constraint: string,
                       currentTable: Option<Table>, desiredTable: Option<Table>,
                       currentIndex: Option<Index>, desiredIndex: Option<Index>,
                       currentDefault: Option<Default>, desiredDefault: Option<Default>,
                       columnType: string, nullable: bool)

  function Plain(kind: StepKind, table: string): Step {
    Step(kind, false, table, "", "", "", None, None, None, None, None, None, "", false)
  }

  /** comparisonUnknown: a diagnostic marker, never a detected change. */
  function UnknownStep(table: string, column: string, index: string): Step {
    Plain(UnsupportedStep, table).(unknown := true, column := column, index := index)
  }

  function TableUnknown(a: Option<Table>, b: Option<Table>): Step {
    UnknownStep(if b.Some? then b.value.name else if a.Some? then a.value.name
        else "", "", "").(currentTable := a, desiredTable := b)
  }

  predicate NoUnknown(steps: seq<Step>) { forall i :: 0 <= i < |steps| ==> !steps[i].unknown }

  function Marker(b: bool, s: Step): seq<Step> { if b then [s] else [] }

  // --------------------------------------------------------------------- columns

  function DefaultSteps(table: string, prior: Column, next: Column): seq<Step> {
    var a, b := ColumnDefault(prior), ColumnDefault(next);
    if a.state == DefaultUnknown || b.state == DefaultUnknown
    then [UnknownStep(table, next.name, "").(currentDefault := Some(a), desiredDefault := Some(b))]
    else if a.state == b.state && a.expression == b.expression then []
    else [Plain(AlterColumnDefault, table).(column := next.name, currentDefault := Some(a), desiredDefault := Some(b))]
  }

  function TypeSteps(table: string, prior: Column, next: Column): seq<Step> {
    Marker(NormalizeType(prior.typ) != NormalizeType(next.typ),
        Plain(AlterColumnType, table).(column := next.name, columnType := next.typ))
  }

  function NullSteps(table: string, prior: Column, next: Column): seq<Step> {
    Marker(prior.nullable != next.nullable,
        Plain(AlterNullability, table).(column := next.name, columnType := next.typ, nullable := next.nullable))
  }

  function AddColumnStep(table: string, c: Column): Step {
    Plain(AddColumn, table).(column := c.name, columnType := c.typ, nullable := c.nullable,
        desiredDefault := Some(ColumnDefault(c)))
  }

  function DesiredColumnSteps(current: Table, desired: Table, c: Column): seq<Step> {
    if NameKey(c.name) in AmbiguousColumns(current, desired) then []
    else
      match FindColumn(current.columns, NameKey(c.name))
      case None => Marker(ColumnDefault(c).state == DefaultUnknown, UnknownStep(desired.name, c.name, ""))
         + [AddColumnStep(desired.name, c)]
      case Some(prior) =>
        DefaultSteps(desired.name, prior, c) + TypeSteps(desired.name, prior, c)
        + NullSteps(desired.name, prior, c)
  }

  function CurrentColumnSteps(current: Table, desired: Table, c: Column): seq<Step> {
    if NameKey(c.name) in AmbiguousColumns(current, desired) then []
    else if FindColumn(desired.columns, NameKey(c.name)).Some? then []
    else
      Marker(ColumnDefault(c).state == DefaultUnknown, UnknownStep(desired.name, c.name, ""))
      + [Plain(DropColumn, desired.name).(column := c.name)]
  }

  function DesiredColumnsUpTo(current: Table, desired: Table, n: nat): seq<Step>
    requires n <= |desired.columns|
  {
    if n == 0 then []
    else
      DesiredColumnsUpTo(current, desired, n - 1)
      + DesiredColumnSteps(current, desired, desired.columns[n - 1])
  }

  function CurrentColumnsUpTo(current: Table, desired: Table, n: nat): seq<Step>
    requires n <= |current.columns|
  {
    if n == 0 then []
    else
      CurrentColumnsUpTo(current, desired, n - 1)
      + CurrentColumnSteps(current, desired, current.columns[n - 1])
  }

  // --------------------------------------------------------------------- indexes

  predicate EqualIndex(a: Index, b: Index) {
    && a.unique == b.unique && a.columns == b.columns && a.keys == b.keys && a.filter == b.filter
       && a.access == b.access
    && a.included == b.included && a.visibility == b.visibility && a.attributes == b.attributes
  }

  predicate RawDiffers(a: Index, b: Index) { a.raw != "" && b.raw != "" && a.raw != b.raw }

  predicate UniqueIndexName(i: Index, t: Table) { SimpleName(i.name) && IndexKeyCount(t.indexes, i.name) == 1 }

  function AddIndexStep(table: string, i: Index): Step {
    Plain(AddIndex, table).(index := i.name, desiredIndex := Some(i))
  }

  function DropIndexStep(table: string, i: Index): Step {
    Plain(DropIndex, table).(index := i.name, currentIndex := Some(i))
  }

  function DesiredIndexSteps(current: Table, desired: Table, i: Index): seq<Step> {
    var prior := FindIndex(current.indexes, NameKey(i.name));
    if !ValidIndex(i, desired) || (prior.Some? && !ValidIndex(prior.value, current)) then
      [UnknownStep(desired.name, "", i.name).(desiredIndex := Some(i), currentIndex := prior)]
      + Marker(prior.None? && UniqueIndexName(i, desired), AddIndexStep(desired.name, i))
    else if prior.None? then [AddIndexStep(desired.name, i)]
    else if !EqualIndex(prior.value, i)
       then [Plain(AlterIndex, desired.name).(index := i.name, currentIndex := prior, desiredIndex := Some(i))]
    else Marker(RawDiffers(prior.value, i),
       UnknownStep(desired.name, "", i.name).(currentIndex := prior, desiredIndex := Some(i)))
  }

  function CurrentIndexSteps(current: Table, desired: Table, i: Index): seq<Step> {
    if FindIndex(desired.indexes, NameKey(i.name)).Some? then []
    else if ValidIndex(i, current) then [DropIndexStep(desired.name, i)]
    else
      [UnknownStep(desired.name, "", i.name).(currentIndex := Some(i))]
      + Marker(UniqueIndexName(i, current), DropIndexStep(desired.name, i))
  }

  function DesiredIndexesUpTo(current: Table, desired: Table, n: nat): seq<Step>
    requires n <= |desired.indexes|
  {
    if n == 0 then []
    else
      DesiredIndexesUpTo(current, desired, n - 1)
      + DesiredIndexSteps(current, desired, desired.indexes[n - 1])
  }

  function CurrentIndexesUpTo(current: Table, desired: Table, n: nat): seq<Step>
    requires n <= |current.indexes|
  {
    if n == 0 then []
    else
      CurrentIndexesUpTo(current, desired, n - 1)
      + CurrentIndexSteps(current, desired, current.indexes[n - 1])
  }

  /** diffTable: columns wanted, columns left over, indexes wanted, indexes left over. */
  function DiffTable(current: Table, desired: Table): seq<Step> {
    Marker(AmbiguousColumns(current, desired) != {}, UnknownStep(desired.name, "", ""))
    + DesiredColumnsUpTo(current, desired, |desired.columns|) + CurrentColumnsUpTo(current, desired, |current.columns|)
    + DesiredIndexesUpTo(current, desired, |desired.indexes|) + CurrentIndexesUpTo(current, desired, |current.indexes|)
  }

  // ----------------------------------------------------------------- constraints

  /** The two sides of one matched table, with what each side can vouch for. */
  datatype Pair = Pair(prev: Table, next: Table, scope: bool, prevCoverage: SchemaCoverage,
      nextCoverage: SchemaCoverage)

  /** Three step kinds for one family of constraints. */
  datatype Family = Family(add: StepKind, drop: StepKind, alter: StepKind)

  const FOREIGN_KEYS := Family(AddForeignKey, DropForeignKey, AlterForeignKey)
  const CHECKS := Family(AddCheck, DropCheck, AlterCheck)

  function Settle(validation: string, other: string): string {
    if validation == "unknown" || other == "unknown" then "" else validation
  }

  /** equalConstraintValue: an unknown validation on either side is not compared. */
  predicate EqualConstraint(a: ConstraintValue, b: ConstraintValue) {
    match (a, b)
    case (FkValue(x), FkValue(y)) =>
      x.(validation := Settle(x.validation, y.validation), definition := Unset)
          == y.(validation := Settle(y.validation, x.validation), definition := Unset)
    case (CheckValue(x), CheckValue(y)) =>
      x.(validation := Settle(x.validation, y.validation), definition := Unset)
          == y.(validation := Settle(y.validation, x.validation), definition := Unset)
    case _ => false
  }

  function ConstraintStep(p: Pair, kind: StepKind, name: string): Step {
    Plain(kind, p.next.name).(constraint := name, currentTable := Some(p.prev), desiredTable := Some(p.next))
  }

  function ConstraintUnknown(p: Pair, name: string): Step { ConstraintStep(p, UnsupportedStep, name).(unknown := true) }

  predicate InvalidDefinition(x: seq<Item>, y: seq<Item>) { (|x| == 1 && !x[0].valid) || (|y| == 1 && !y[0].valid) }

  predicate AmbiguousName(p: Pair, x: seq<Item>, y: seq<Item>, name: string) {
    |x| > 1 || |y| > 1 || !SimpleName(name) || ConstraintNameCount(p.prev, name) > 1
        || ConstraintNameCount(p.next, name) > 1
  }

  /** What compare emits for one name; x and y are its entries on both sides. */
  function NameSteps(p: Pair, f: Family, prevKnown: bool, nextKnown: bool, x: seq<Item>, y: seq<Item>,
      name: string): seq<Step>
    requires x != [] || y != []
  {
    var invalid, ambiguous := InvalidDefinition(x, y), AmbiguousName(p, x, y, name);
    if invalid && !ambiguous && ((x == [] && prevKnown && p.scope) || (y == [] && nextKnown && p.scope)) then
      [ConstraintUnknown(p, name), ConstraintStep(p, if x == [] then f.add else f.drop, name)]
    else if ambiguous || invalid then [ConstraintUnknown(p, name)]
    else if x == [] then [if prevKnown && p.scope then ConstraintStep(p, f.add, name) else ConstraintUnknown(p, name)]
    else if y == [] then [if nextKnown && p.scope then ConstraintStep(p, f.drop, name) else ConstraintUnknown(p, name)]
    else Marker(!EqualConstraint(x[0].value, y[0].value), ConstraintStep(p, f.alter, name))
  }

  /** The names of next and then prior, each handled at its first occurrence. */
  function CompareAt(p: Pair, f: Family, prevKnown: bool, nextKnown: bool, prior: seq<Item>, next: seq<Item>,
      i: nat): seq<Step>
    requires i < |next + prior|
  {
    var name := (next + prior)[i].name;
    if Named((next + prior)[..i], name) != [] then []
    else
      NamedNonEmpty(prior, next, i);
      NameSteps(p, f, prevKnown, nextKnown, Named(prior, name), Named(next, name), name)
  }

  function CompareUpTo(p: Pair, f: Family, prevKnown: bool, nextKnown: bool, prior: seq<Item>, next: seq<Item>,
      n: nat): seq<Step>
    requires n <= |next + prior|
  {
    if n == 0 then []
    else
      CompareUpTo(p, f, prevKnown, nextKnown, prior, next, n - 1)
      + CompareAt(p, f, prevKnown, nextKnown, prior, next, n - 1)
  }

  lemma NamedNonEmpty(prior: seq<Item>, next: seq<Item>, i: nat)
    requires i < |next + prior|
    ensures Named(prior, (next + prior)[i].name) != [] || Named(next, (next + prior)[i].name) != []
  {
    if i < |next| { NamedFinds(next, i); } else { NamedFinds(prior, i - |next|); }
  }

  lemma {:induction false} NamedFinds(items: seq<Item>, i: nat)
    requires i < |items|
    ensures items[i] in Named(items, items[i].name)
  {
    if i < |items| - 1 { NamedFinds(items[..|items| - 1], i); }
  }

  function CompareItems(p: Pair, f: Family, prevKnown: bool, nextKnown: bool, prior: seq<Item>,
      next: seq<Item>): seq<Step> {
    CompareUpTo(p, f, prevKnown, nextKnown, prior, next, |next + prior|)
  }

  function UnknownItems(p: Pair, items: seq<Item>): seq<Step> {
    if items == [] then []
    else
      UnknownItems(p, items[..|items| - 1])
      + Marker(!ItemKnown(items[|items| - 1]), TableUnknown(Some(p.prev), Some(p.next)))
  }

  function DiffConstraints(p: Pair): seq<Step> {
    var pf, nf := FkItems(p.prev, p.prev.foreignKeys), FkItems(p.next, p.next.foreignKeys);
    var pc, nc := CheckItems(p.prev.checks), CheckItems(p.next.checks);
    UnknownItems(p, pf) + UnknownItems(p, pc) + UnknownItems(p, nf) + UnknownItems(p, nc)
    + CompareItems(p, FOREIGN_KEYS, p.prevCoverage.foreignKeys == Complete, p.nextCoverage.foreignKeys == Complete,
        pf, nf)
    + CompareItems(p, CHECKS, p.prevCoverage.checks == Complete, p.nextCoverage.checks == Complete, pc, nc)
  }

  // ---------------------------------------------------------------- whole schemas

  /** An absent row is not a proved difference without coverage. */
  predicate Absent(p: Pair, k: StepKind) {
    match k
    case AddColumn => p.prevCoverage.columns != Complete
    case DropColumn => p.nextCoverage.columns != Complete
    case AddIndex => p.prevCoverage.indexes != Complete
    case DropIndex => p.nextCoverage.indexes != Complete
    case _ => false
  }

  predicate Collected(k: StepKind) { k.AddColumn? || k.DropColumn? || k.AddIndex? || k.DropIndex? }

  function Attach(p: Pair, s: Step): Step {
    var t := s.(currentTable := Some(p.prev), desiredTable := Some(p.next));
    if Absent(p, s.kind) || (!p.scope && Collected(s.kind)) then t.(unknown := true, kind := UnsupportedStep) else t
  }

  function AttachAll(p: Pair, steps: seq<Step>): (r: seq<Step>)
    ensures |r| == |steps|
  {
    if steps == [] then [] else AttachAll(p, steps[..|steps| - 1]) + [Attach(p, steps[|steps| - 1])]
  }

  function IncompleteIndexes(a: Option<Table>, b: Option<Table>, xs: seq<Index>): seq<Step> {
    if xs == [] then []
    else
      IncompleteIndexes(a, b, xs[..|xs| - 1])
      + Marker(xs[|xs| - 1].attributes != Complete, TableUnknown(a, b))
  }

  /** Both tables present: what is not known about them, then what differs. */
  function MatchedSteps(current: Schema, desired: Schema, prev: Table, next: Table): seq<Step> {
    var both := TableUnknown(Some(prev), Some(next));
    var known := InScope(prev, current.context) && InScope(next, desired.context);
    var scope := SameScope(current.context, desired.context);
    if !known && !(prev.identity == NO_IDENTITY && next.identity == NO_IDENTITY) then [both]
    else
      var p := Pair(prev, next, scope, EffectiveCoverage(prev.coverage, current.context),
          EffectiveCoverage(next.coverage, desired.context));
      Marker(!known || !scope || !CoverageKnown(prev.coverage) || !CoverageKnown(next.coverage), both)
      + IncompleteIndexes(Some(prev), Some(next), prev.indexes)
          + IncompleteIndexes(Some(prev), Some(next), next.indexes)
      + Marker(AmbiguousConstraints(prev) || AmbiguousConstraints(next), both)
      + AttachAll(p, DiffTable(prev, next)) + DiffConstraints(p)
  }

  function UnknownDefaults(t: Table, cs: seq<Column>): seq<Step> {
    if cs == [] then []
    else
      UnknownDefaults(t, cs[..|cs| - 1])
      + Marker(ColumnDefault(cs[|cs| - 1]).state == DefaultUnknown, UnknownStep(t.name, cs[|cs| - 1].name, ""))
  }

  function InvalidIndexes(t: Table, xs: seq<Index>): seq<Step> {
    if xs == [] then []
    else
      InvalidIndexes(t, xs[..|xs| - 1])
      + Marker(!ValidIndex(xs[|xs| - 1], t), UnknownStep(t.name, "", xs[|xs| - 1].name))
  }

  function InvalidItems(t: Table, items: seq<Item>): seq<Step> {
    if items == [] then []
    else
      InvalidItems(t, items[..|items| - 1])
      + Marker(!items[|items| - 1].valid || !ItemKnown(items[|items| - 1]), TableUnknown(None, Some(t)))
  }

  /** extendedTableDiagnostics of a table that is added or dropped as a whole. */
  function TableDiagnostics(t: Table): seq<Step> {
    Marker(AmbiguousColumns(t, t.(columns := [])) != {}, UnknownStep(t.name, "", ""))
    + UnknownDefaults(t, t.columns) + InvalidIndexes(t, t.indexes)
    + Marker(AmbiguousConstraints(t), TableUnknown(None, Some(t)))
    + IncompleteIndexes(None, Some(t), t.indexes)
    + Marker(!IdentityKnown(t.identity) || !CoverageKnown(t.coverage), TableUnknown(None, Some(t)))
    + InvalidItems(t, FkItems(t, t.foreignKeys)) + InvalidItems(t, CheckItems(t.checks))
  }

  function WithKey(tables: seq<Table>, k: ObjectKey): seq<Table> {
    if tables == [] then []
    else WithKey(tables[..|tables| - 1], k) + if TableKey(tables[|tables| - 1]) == k then [tables[|tables| - 1]] else []
  }

  predicate Inventories(current: Schema, desired: Schema) {
    SameScope(current.context, desired.context) && InventoryComplete(current.context)
        && InventoryComplete(desired.context)
  }

  function HeaderSteps(current: Schema, desired: Schema): seq<Step> {
    Marker(!Inventories(current, desired) || !ContextCoverageKnown(current.context)
        || !ContextCoverageKnown(desired.context),
           UnknownStep("", "", ""))
    + Marker(ContextKnown(current.context) && ContextKnown(desired.context)
             && (current.context.value.catalog != desired.context.value.catalog
                 || current.context.value.schema != desired.context.value.schema
                 || current.context.value.dialect != desired.context.value.dialect), Plain(IdentityDifference, ""))
  }

  function WholeTable(kind: StepKind, known: bool, t: Table): seq<Step> {
    var s := Plain(if known then kind else UnsupportedStep, t.name).(unknown := !known);
    [if kind.AddTable? then s.(desiredTable := Some(t)) else s.(currentTable := Some(t))] + TableDiagnostics(t)
  }

  /** One desired table, handled at the first occurrence of its key. */
  function DesiredTableSteps(current: Schema, desired: Schema, n: nat): seq<Step>
    requires n < |desired.tables|
  {
    var next := desired.tables[n];
    var k := TableKey(next);
    var prior := WithKey(current.tables, k);
    if WithKey(desired.tables[..n], k) != [] then []
    else if |WithKey(desired.tables, k)| != 1 || |prior| > 1 || !SimpleName(next.name)
       then [TableUnknown(None, Some(next))]
    else if |prior| == 1 then MatchedSteps(current, desired, prior[0], next)
    else WholeTable(AddTable, Inventories(current, desired) && InScope(next, desired.context), next)
  }

  /** One current table that no desired table has the key of. */
  function CurrentTableSteps(current: Schema, desired: Schema, n: nat): seq<Step>
    requires n < |current.tables|
  {
    var prev := current.tables[n];
    var k := TableKey(prev);
    if WithKey(desired.tables, k) != [] || WithKey(current.tables[..n], k) != [] then []
    else WholeTable(DropTable, |WithKey(current.tables, k)| == 1 && Inventories(current, desired)
       && InScope(prev, current.context), prev)
  }

  function DesiredTablesUpTo(current: Schema, desired: Schema, n: nat): seq<Step>
    requires n <= |desired.tables|
  {
    if n == 0 then [] else DesiredTablesUpTo(current, desired, n - 1) + DesiredTableSteps(current, desired, n - 1)
  }

  function CurrentTablesUpTo(current: Schema, desired: Schema, n: nat): seq<Step>
    requires n <= |current.tables|
  {
    if n == 0 then [] else CurrentTablesUpTo(current, desired, n - 1) + CurrentTableSteps(current, desired, n - 1)
  }

  /** DiffSchemas: the steps of compareExtendedSchemas. */
  function DiffSteps(current: Schema, desired: Schema): seq<Step> {
    HeaderSteps(current, desired) + DesiredTablesUpTo(current, desired, |desired.tables|)
        + CurrentTablesUpTo(current, desired, |current.tables|)
  }

  /** ComparisonIncomplete of the plan over these steps. */
  predicate Incomplete(steps: seq<Step>) { !NoUnknown(steps) }

  /** Drifted of the report over these steps. */
  predicate Drifted(steps: seq<Step>) { exists i :: 0 <= i < |steps| && !steps[i].unknown }
}
