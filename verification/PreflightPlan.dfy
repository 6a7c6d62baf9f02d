/** orm/migration/preflight.go: the canonical form of a preflight plan, its digests,
    and the requirements every step of it must meet. */
module PreflightPlan {
  import opened Text
  import opened SchemaModel
  import opened SchemaDiff

  // ---------------------------------------------------------------- declarations

  datatype Kind = Known(kind: StepKind) | RenameColumn | OtherKind(text: string)

  /** The fields of a step definition that requirements look at; the rest is opaque. */
  datatype Definition = Definition(kind: Kind, table: string, column: string, index: string, constraint: string,
                                   nullable: Option<bool>, unknown: bool, sql: string,
                                   currentTable: Option<Table>, desiredTable: Option<Table>,
                                       desiredIndex: Option<Index>, rest: string)

  datatype Phase = Phase(phase: string, dependsOn: seq<int>, oldReaders: string, oldWriters: string)

  /** A domain-separated SHA-256 of printed JSON, taken as injective: equal digests
      mean equal contents. Blank is the empty ID. */
  datatype Digest =
    | Blank
    | PlanDigest(body: Plan)
    | StepDigest(plan: Digest, ordinal: nat, step: Step)
    | RequirementDigest(requirement: Requirement)
    | SchemaDigest(current: Schema, references: seq<Schema>)
    | Unissued(text: string)

  datatype Step = Step(id: Digest, definition: Definition, phase: Phase)

  datatype Requirement = Requirement(id: Digest, stepId: Digest, kind: string, target: Identity, columns: seq<string>,
                                     reference: Identity, referenced: seq<string>, semantics: string, status: string,
                                         code: string)

  datatype Plan = Plan(incomplete: bool, blocked: bool, id: Digest, current: Schema, desired: Schema,
      references: seq<Schema>,
                       sql: string, statements: seq<string>, steps: seq<Step>, requirements: seq<Requirement>)

  // ---------------------------------------------------------------- canonical form

  function IndexName(i: Index): string { i.name }

  function ForeignKeyName(f: ForeignKey): string { f.name }

  function CheckName(c: Check): string { c.name }

  function TableName(t: Table): string { t.name }

  function ColumnName(c: Column): string { c.name }

  /** Foreign keys and checks share one name space. */
  predicate NamesDistinct(t: Table) {
    && DistinctBy(t.columns, ColumnName) && (forall i :: 0 <= i < |t.columns| ==> SimpleName(t.columns[i].name))
    && DistinctBy(t.indexes, IndexName) && (forall i :: 0 <= i < |t.indexes| ==> t.indexes[i].name != "")
    && DistinctBy(t.foreignKeys, ForeignKeyName)
       && (forall i :: 0 <= i < |t.foreignKeys| ==> t.foreignKeys[i].name != "")
    && DistinctBy(t.checks, CheckName) && (forall i :: 0 <= i < |t.checks| ==> t.checks[i].name != "")
    && (forall i, j :: 0 <= i < |t.foreignKeys| && 0 <= j < |t.checks| ==> t.foreignKeys[i].name != t.checks[j].name)
  }

  function CanonicalTable(t: Table): Table {
    t.(indexes := SortBy(t.indexes, IndexName), foreignKeys := SortBy(t.foreignKeys, ForeignKeyName),
        checks := SortBy(t.checks, CheckName))
  }

  function CanonicalTables(ts: seq<Table>): (r: seq<Table>)
    ensures |r| == |ts|
  {
    if ts == [] then [] else CanonicalTables(ts[..|ts| - 1]) + [CanonicalTable(ts[|ts| - 1])]
  }

  /** What canonicalSchema demands before it sorts. */
  predicate Sortable(s: Schema) {
    && s.context.Some? && ContextKnown(s.context)
    && (forall i :: 0 <= i < |s.tables|
         ==> TableIdentityValid(s.tables[i], s.context.value) && NamesDistinct(s.tables[i]))
    && (forall i, j :: 0 <= i < j < |s.tables| ==> s.tables[i].identity != s.tables[j].identity)
  }

  function Sorted(s: Schema): Schema
    requires s.context.Some?
  {
    Schema(Some(s.context.value.(tables := SortBy(s.context.value.tables, Self))),
        SortBy(CanonicalTables(s.tables), TableName))
  }

  function CanonicalSchema(s: Schema): Option<Schema> {
    if Sortable(s) then Some(Sorted(s)) else None
  }

  function ScopeName(s: Schema): string {
    if s.context.Some? then s.context.value.catalog + "/" + s.context.value.schema else ""
  }

  function CanonicalSchemas(ss: seq<Schema>): Option<seq<Schema>> {
    if ss == [] then Some([])
    else
      match (CanonicalSchemas(ss[..|ss| - 1]), CanonicalSchema(ss[|ss| - 1]))
      case (Some(init), Some(last)) => Some(init + [last])
      case _ => None
  }

  function PhaseRank(s: string): nat {
    if s == "expand" then 1 else if s == "backfill" then 2 else if s == "contract" then 3 else 0
  }

  predicate DependenciesOk(d: seq<int>, i: nat) {
    (forall k :: 0 <= k < |d| ==> 0 <= d[k] < i) && (forall k, l :: 0 <= k < l < |d| ==> d[k] != d[l])
  }

  /** The highest known phase of the first n steps. */
  function LastRank(steps: seq<Step>, n: nat): nat
    requires n <= |steps|
  {
    if n == 0 then 0
    else
      var rank := PhaseRank(steps[n - 1].phase.phase);
      if rank > 0 then rank else LastRank(steps, n - 1)
  }

  predicate StepsOrdered(steps: seq<Step>) {
    forall i :: 0 <= i < |steps| ==>
      && DependenciesOk(steps[i].phase.dependsOn, i)
      && (PhaseRank(steps[i].phase.phase) > 0 ==> PhaseRank(steps[i].phase.phase) >= LastRank(steps, i))
  }

  function Unnamed(steps: seq<Step>): (r: seq<Step>)
    ensures |r| == |steps|
  {
    if steps == [] then [] else Unnamed(steps[..|steps| - 1]) + [steps[|steps| - 1].(id := Blank)]
  }

  // ---------------------------------------------------------------- requirements

  const ZERO_TABLE := Table(NO_IDENTITY, NO_COVERAGE, [], [], "", [], [])

  /** tableFor: the first table of that name, or the zero table. */
  function TableFor(ts: seq<Table>, name: string): (Table, bool) {
    if ts == [] then (ZERO_TABLE, false)
    else if TableFor(ts[..|ts| - 1], name).1 then TableFor(ts[..|ts| - 1], name)
    else if ts[|ts| - 1].name == name then (ts[|ts| - 1], true)
    else (ZERO_TABLE, false)
  }

  predicate ColumnsOk(cols: seq<string>, t: Table) { 0 < |cols| <= 16 && KnownColumns(cols, t) }

  function IndexNamed(xs: seq<Index>, name: string): Option<Index> {
    if xs == [] then None else if xs[|xs| - 1].name == name then Some(xs[|xs| - 1])
       else IndexNamed(xs[..|xs| - 1], name)
  }

  function ForeignKeyNamed(fs: seq<ForeignKey>, name: string): Option<ForeignKey> {
    if fs == [] then None else if fs[|fs| - 1].name == name then Some(fs[|fs| - 1])
       else ForeignKeyNamed(fs[..|fs| - 1], name)
  }

  function Base(t: Table): Requirement {
    Requirement(Blank, Blank, "unknown", t.identity, [], NO_IDENTITY, [], "unknown", "unknown", "PREFLIGHT_DEFINITION")
  }

  function When(b: bool, r: Requirement): seq<Requirement> { if b then [r] else [] }

  function Pending(r: Requirement, b: bool): Requirement {
    if b then r.(status := "pending", code := "PREFLIGHT_MISSING") else r
  }

  function NullRequirements(d: Definition, phase: string, t: Table, found: bool, desired: Table,
      hasDesired: bool): seq<Requirement> {
    if d.nullable.None? then [Base(t)]
    else if d.nullable.value then []
    else
      var r := Base(t).(kind := "null_count", columns := [d.column], semantics := "null_rows");
      var declared := exists i :: 0 <= i < |desired.columns| && desired.columns[i].name == d.column
                       && desired.columns[i].nullableKnown && !desired.columns[i].nullable;
      When(phase != "contract", Base(t).(code := "PREFLIGHT_PHASE"))
      + [Pending(r, found && hasDesired && declared && ColumnsOk(r.columns, t))]
  }

  function KeyNames(keys: seq<IndexKey>): seq<string> {
    if keys == [] then [] else KeyNames(keys[..|keys| - 1]) + [keys[|keys| - 1].column]
  }

  function UniqueRequirements(d: Definition, t: Table, found: bool, desired: Table,
      hasDesired: bool): seq<Requirement> {
    match (if hasDesired then IndexNamed(desired.indexes, d.index) else None)
    case None => [Base(t)]
    case Some(idx) =>
      var differs := When(d.desiredIndex.Some? && d.desiredIndex.value != idx, Base(t));
      if !idx.unique then differs
      else
        differs + [UniqueRequirement(idx, t, found, desired)]
  }

  function UniqueRequirement(idx: Index, t: Table, found: bool, desired: Table): Requirement {
    var columns := if idx.keys != [] then KeyNames(idx.keys) else idx.columns;
    var r := Base(t).(kind := "duplicate_count", semantics := "duplicate_groups_nonnull", status := "unsupported",
        code := "PREFLIGHT_UNSUPPORTED", columns := columns);
    var supported := ValidExtendedIndex(idx, desired) && idx.filter.state == "none" && idx.included == []
        && idx.raw == ""
                     && forall k :: 0 <= k < |idx.keys| ==> idx.keys[k].expression == "" && idx.keys[k].prefix == 0;
    Pending(r, found && supported && ColumnsOk(columns, t))
  }

  function OrphanRequirements(d: Definition, t: Table, found: bool, desired: Table,
      hasDesired: bool): seq<Requirement> {
    match (if hasDesired then ForeignKeyNamed(desired.foreignKeys, d.constraint) else None)
    case None => [Base(t)]
    case Some(fk) =>
      var r := Base(t).(kind := "orphan_count", semantics := "match_simple_nonnull_rows", columns := fk.columns,
          reference := fk.reference,
                        referenced := fk.referenced, status := "unsupported", code := "PREFLIGHT_UNSUPPORTED");
      [Pending(r, found && ValidForeignKey(fk, desired) && fk.matching == "simple" && ColumnsOk(fk.columns, t)
          && |fk.referenced| <= 16)]
  }

  function KindRequirements(d: Definition, phase: string, t: Table, found: bool, desired: Table,
      hasDesired: bool): seq<Requirement> {
    match d.kind
    case Known(AlterNullability) => NullRequirements(d, phase, t, found, desired, hasDesired)
    case Known(AddIndex) => UniqueRequirements(d, t, found, desired, hasDesired)
    case Known(AlterIndex) => UniqueRequirements(d, t, found, desired, hasDesired)
    case Known(AddForeignKey) => OrphanRequirements(d, t, found, desired, hasDesired)
    case Known(AlterForeignKey) => OrphanRequirements(d, t, found, desired, hasDesired)
    case Known(DropTable) => [Base(t).(code := "PREFLIGHT_EXTERNAL_WORK")]
    case Known(DropColumn) => [Base(t).(code := "PREFLIGHT_EXTERNAL_WORK")]
    case Known(AlterColumnType) => [Base(t).(code := "PREFLIGHT_EXTERNAL_WORK")]
    case Known(AddTable) => [Base(t).(code := "PREFLIGHT_EXTERNAL_WORK")]
    case Known(AddColumn) => [Base(t).(code := "PREFLIGHT_EXTERNAL_WORK")]
    case RenameColumn => [Base(t).(code := "PREFLIGHT_EXTERNAL_WORK")]
    case _ => [Base(t).(status := "unsupported", code := "PREFLIGHT_UNSUPPORTED")]
  }

  /** requirementsFor: doubts about the step first, then what its kind asks for. */
  function RequirementsFor(p: Plan, i: nat): seq<Requirement>
    requires i < |p.steps|
  {
    var s := p.steps[i];
    var d := s.definition;
    var (t, found) := TableFor(p.current.tables, d.table);
    var (desired, hasDesired) := TableFor(p.desired.tables, d.table);
    var doubts :=
      When(p.incomplete, Base(t))
      + When(PhaseRank(s.phase.phase) == 0, Base(t).(code := "PREFLIGHT_PHASE"))
      + When(s.phase.oldReaders != "compatible"
          || s.phase.oldWriters != "compatible", Base(t).(code := "PREFLIGHT_COMPATIBILITY"))
      + When(i > 0 && s.phase.phase == "contract" && s.phase.dependsOn == [], Base(t).(code := "PREFLIGHT_DEPENDENCY"))
      + When(d.sql != "" || p.sql != "" || p.statements != [], Base(t))
      + When(d.currentTable.Some? && d.currentTable.value != t, Base(t))
      + When(d.desiredTable.Some? && d.desiredTable.value != desired, Base(t));
    if d.unknown then doubts + [Base(t)]
    else doubts + KindRequirements(d, s.phase.phase, t, found, desired, hasDesired)
         + When(s.phase.phase == "backfill", Base(t).(code := "PREFLIGHT_EXTERNAL_WORK"))
  }

  function Identified(rs: seq<Requirement>, stepId: Digest): (r: seq<Requirement>)
    ensures |r| == |rs|
  {
    if rs == [] then []
    else
      var r := rs[|rs| - 1].(stepId := stepId);
      Identified(rs[..|rs| - 1], stepId) + [r.(id := RequirementDigest(r))]
  }

  /** The numbering pass: step IDs in order, each step's requirements behind it. */
  function Number(p: Plan, n: nat): Plan
    requires n <= |p.steps|
    ensures |Number(p, n).steps| == |p.steps|
  {
    if n == 0 then p
    else
      var q := Number(p, n - 1);
      var id := StepDigest(q.id, n - 1, q.steps[n - 1]);
      var named := q.(steps := q.steps[n - 1 := q.steps[n - 1].(id := id)]);
      named.(requirements := named.requirements + Identified(RequirementsFor(named, n - 1), id))
  }

  /** buildPreflight. */
  function Build(p: Plan): Option<Plan> {
    if p.steps == [] || |p.steps| > 64 || |p.references| > 64 then None
    else
      match (CanonicalSchema(p.current), CanonicalSchema(p.desired), CanonicalSchemas(p.references))
      case (Some(current), Some(desired), Some(references)) =>
        if !SameScope(current.context, desired.context)
           || (exists i :: 0 <= i < |references|
                && (references[i].context.None?
                    || references[i].context.value.dialect != current.context.value.dialect))
           || !DistinctBy([current] + references, ScopeName) || !StepsOrdered(p.steps) then None
        else
          var cleared := p.(current := current, desired := desired, references := SortBy(references, ScopeName),
                            id := Blank, requirements := [], steps := Unnamed(p.steps));
          var named := Number(cleared.(id := PlanDigest(cleared)), |cleared.steps|);
          if |named.requirements| > 64 then None else Some(named)
      case _ => None
  }
}
