/** orm/migration/schema.go and schema_context.go: schema declarations, what is
    claimed to be known about them, and which definitions can be compared at all. */
module SchemaModel {
  import opened Text

  // ----------------------------------------------------------------- declarations

  /** CoverageState; the zero value and unrecognized texts are not known sets. */
  datatype Coverage = Unset | Unknown | Complete | Partial | Unsupported | OtherCoverage(text: string)

  datatype SchemaCoverage = SchemaCoverage(tables: Coverage, columns: Coverage, indexes: Coverage,
      foreignKeys: Coverage,
                                           checks: Coverage, identity: Coverage, version: Coverage)

  const NO_COVERAGE := SchemaCoverage(Unset, Unset, Unset, Unset, Unset, Unset, Unset)

  datatype Identity = Identity(catalog: string, schema: string, name: string, state: Coverage)

  const NO_IDENTITY := Identity("", "", "", Unset)

  datatype Context = Context(dialect: string, catalog: string, schema: string, scope: string, tables: seq<string>,
                             visibility: string, coverage: SchemaCoverage)

  datatype DefaultState = DefaultUnset | DefaultUnknown | DefaultNone | DefaultExpression | OtherDefault(text: string)

  datatype Column = Column(name: string, typ: string, nullable: bool, nullableKnown: bool, hasDefault: bool,
      defaultExpression: string,
                           defaultState: DefaultState, defaultSource: string)

  datatype Expression = Expression(state: string, sql: string)

  datatype IndexKey = IndexKey(column: string, expression: string, order: string, nulls: string, prefix: int)

  datatype Index = Index(keys: seq<IndexKey>, filter: Expression, access: string, included: seq<string>,
      visibility: string,
                         attributes: Coverage, name: string, columns: seq<string>, unique: bool, concurrent: bool,
                         definitionUnknown: bool, raw: string)

  datatype ForeignKey = ForeignKey(name: string, columns: seq<string>, reference: Identity, referenced: seq<string>,
                                   onUpdate: string, onDelete: string, matching: string, validation: string,
                                   enforcement: string, deferrability: string, definition: Coverage, raw: string)

  datatype Check = Check(name: string, inheritance: string, expression: string, validation: string, enforcement: string,
                         definition: Coverage, raw: string)

  datatype Table = Table(identity: Identity, coverage: SchemaCoverage, foreignKeys: seq<ForeignKey>, checks: seq<Check>,
                         name: string, columns: seq<Column>, indexes: seq<Index>)

  datatype Schema = Schema(context: Option<Context>, tables: seq<Table>)

  // ------------------------------------------------------------------------ names

  predicate NameChar(c: char) { IsLower(c) || IsDigit(c) || c == '_' }

  /** ^[a-z_][a-z0-9_]*$ */
  predicate SimpleName(s: string) {
    s != "" && !IsDigit(s[0]) && forall i :: 0 <= i < |s| ==> NameChar(s[i])
  }

  /** columnKey and indexKey. */
  function NameKey(s: string): string { ToLower(TrimSpace(s)) }

  lemma SimpleNameIsItsKey(s: string)
    requires SimpleName(s)
    ensures NameKey(s) == s
  {
    assert NameChar(s[0]) && NameChar(s[|s| - 1]);
    assert TrimSpace(s) == s;
    assert forall i :: 0 <= i < |s| ==> NameChar(s[i]) && LowerChar(s[i]) == s[i];
  }

  /** strings.Join(strings.Fields(s), " "): runs of space become one blank. */
  function Squeeze(s: string): string {
    if s == "" then ""
    else if |s| > 1 && IsSpace(s[0]) && IsSpace(s[1]) then Squeeze(s[1..])
    else [if IsSpace(s[0]) then ' ' else s[0]] + Squeeze(s[1..])
  }

  function NormalizeType(s: string): string { ToLower(Squeeze(TrimSpace(s))) }

  // ----------------------------------------------------------- what is known at all

  predicate IdentityKnown(i: Identity) {
    i.state == Complete && SimpleName(i.catalog) && SimpleName(i.schema) && SimpleName(i.name)
  }

  predicate ExpressionKnown(e: Expression) {
    (e.state == "none" && e.sql == "") || (e.state == "expression" && e.sql != "")
  }

  predicate CoverageKnown(c: SchemaCoverage) {
    c.columns == Complete && c.indexes == Complete && c.foreignKeys == Complete && c.checks == Complete
        && c.identity == Complete
  }

  datatype ObjectKey = ObjectKey(catalog: string, schema: string, name: string)

  function TableKey(t: Table): ObjectKey {
    if IdentityKnown(t.identity) then ObjectKey(t.identity.catalog, t.identity.schema, t.name)
       else ObjectKey("", "", t.name)
  }

  predicate TableIdentityValid(t: Table, c: Context) {
    && IdentityKnown(t.identity) && t.identity.name == t.name && SimpleName(t.name)
    && c.catalog == t.identity.catalog && c.schema == t.identity.schema && c.coverage.identity == Complete
  }

  predicate SimpleAndDistinct(names: seq<string>) {
    && (forall i :: 0 <= i < |names| ==> SimpleName(names[i]))
    && (forall i, j :: 0 <= i < j < |names| ==> names[i] != names[j])
  }

  predicate ContextKnown(c: Option<Context>) {
    c.Some? && c.value.coverage.identity == Complete && SimpleName(c.value.catalog) && SimpleName(c.value.schema)
    && (c.value.dialect == "mysql" || c.value.dialect == "postgres")
    && (if c.value.scope == "namespace" then c.value.tables == []
        else c.value.scope == "tables" && c.value.tables != [] && SimpleAndDistinct(c.value.tables))
  }

  predicate SameScope(a: Option<Context>, b: Option<Context>) {
    && ContextKnown(a) && ContextKnown(b)
    && a.value.dialect == b.value.dialect && a.value.catalog == b.value.catalog
    && a.value.schema == b.value.schema && a.value.scope == b.value.scope
    && SortBy(a.value.tables, Self) == SortBy(b.value.tables, Self)
  }

  predicate InventoryComplete(c: Option<Context>) {
    ContextKnown(c) && c.value.coverage.tables == Complete && c.value.visibility == "declared"
  }

  predicate ContextCoverageKnown(c: Option<Context>) { c.Some? && CoverageKnown(c.value.coverage) }

  predicate InScope(t: Table, c: Option<Context>) {
    ContextKnown(c) && TableIdentityValid(t, c.value) && (c.value.scope == "namespace" || t.name in c.value.tables)
  }

  function Both(a: Coverage, b: Coverage): Coverage { if a == Complete && b == Complete then Complete else Unknown }

  function EffectiveCoverage(t: SchemaCoverage, c: Option<Context>): SchemaCoverage {
    if c.None? then NO_COVERAGE
    else
      var k := c.value.coverage;
      t.(columns := Both(t.columns, k.columns), indexes := Both(t.indexes, k.indexes),
         foreignKeys := Both(t.foreignKeys, k.foreignKeys), checks := Both(t.checks, k.checks))
  }

  // ----------------------------------------------------- definitions that can be used

  datatype Default = Default(state: DefaultState, declared: DefaultState, hasDefault: bool, expression: string,
      source: string)

  function ColumnDefault(c: Column): Default {
    var state :=
      match c.defaultState
      case DefaultUnset => if c.hasDefault && c.defaultExpression != "" then DefaultExpression else DefaultUnknown
      case DefaultNone => if !c.hasDefault && c.defaultExpression == "" then DefaultNone else DefaultUnknown
      case DefaultExpression => if c.hasDefault && c.defaultExpression != "" then DefaultExpression else DefaultUnknown
      case _ => DefaultUnknown;
    Default(state, c.defaultState, c.hasDefault, c.defaultExpression, c.defaultSource)
  }

  function ColumnCount(cs: seq<Column>, name: string): nat {
    if cs == [] then 0 else ColumnCount(cs[..|cs| - 1], name) + if cs[|cs| - 1].name == name then 1 else 0
  }

  /** knownColumns: simple distinct names, each declared exactly once. */
  predicate KnownColumns(cols: seq<string>, t: Table) {
    cols != [] && SimpleAndDistinct(cols) && forall i :: 0 <= i < |cols| ==> ColumnCount(t.columns, cols[i]) == 1
  }

  predicate ActionKnown(s: string) { s in {"no_action", "restrict", "cascade", "set_null", "set_default"} }

  predicate ValidationKnown(s: string) { s in {"validated", "not_validated", "unknown"} }

  predicate EnforcementKnown(s: string) { s in {"enforced", "not_enforced"} }

  predicate ValidForeignKey(f: ForeignKey, t: Table) {
    && (f.definition == Complete || f.definition == Partial) && SimpleName(f.name)
    && KnownColumns(f.columns, t) && IdentityKnown(f.reference) && |f.columns| == |f.referenced|
    && (IdentityKnown(t.identity) ==> f.reference.catalog == t.identity.catalog)
    && (f.reference.catalog == t.identity.catalog && f.reference.schema == t.identity.schema
        && f.reference.name == t.name ==>
          KnownColumns(f.referenced, t))
    && SimpleAndDistinct(f.referenced)
    && ActionKnown(f.onUpdate) && ActionKnown(f.onDelete) && f.matching in {"simple", "full", "partial"}
    && ValidationKnown(f.validation) && EnforcementKnown(f.enforcement)
    && f.deferrability in {"not_deferrable", "immediate", "deferred"}
  }

  predicate ValidCheck(c: Check) {
    && (c.definition == Complete || c.definition == Partial) && SimpleName(c.name)
    && c.inheritance in {"inheritable", "no_inherit", "not_applicable"} && c.expression != ""
    && ValidationKnown(c.validation) && EnforcementKnown(c.enforcement)
  }

  function IndexCount(xs: seq<Index>, name: string): nat {
    if xs == [] then 0 else IndexCount(xs[..|xs| - 1], name) + if xs[|xs| - 1].name == name then 1 else 0
  }

  function IndexKeyCount(xs: seq<Index>, key: string): nat {
    if xs == [] then 0 else IndexKeyCount(xs[..|xs| - 1], key) + if NameKey(xs[|xs| - 1].name) == key then 1 else 0
  }

  function ColumnKeyCount(cs: seq<Column>, key: string): nat {
    if cs == [] then 0 else ColumnKeyCount(cs[..|cs| - 1], key) + if NameKey(cs[|cs| - 1].name) == key then 1 else 0
  }

  predicate KeyPartKnown(k: IndexKey, t: Table) {
    && (k.column == "") != (k.expression == "") && k.prefix >= 0
    && (k.order == "asc" || k.order == "desc")
       && (k.nulls == "first" || k.nulls == "last" || k.nulls == "engine_default")
    && (if k.column != "" then KnownColumns([k.column], t) else k.prefix == 0)
  }

  function KeyColumns(keys: seq<IndexKey>): seq<string> {
    if keys == [] then []
    else KeyColumns(keys[..|keys| - 1]) + if keys[|keys| - 1].column != "" then [keys[|keys| - 1].column] else []
  }

  predicate ValidExtendedIndex(i: Index, t: Table) {
    && SimpleName(i.name) && !i.definitionUnknown && i.attributes == Complete && (i.keys != [] || i.columns != [])
    && i.access == "btree" && ExpressionKnown(i.filter) && (i.visibility == "visible" || i.visibility == "invisible")
    && IndexCount(t.indexes, i.name) == 1
    && (if i.keys == [] then KnownColumns(i.columns, t) && i.included == []
        else
          && (forall k :: 0 <= k < |i.keys| ==> KeyPartKnown(i.keys[k], t))
          && (i.columns != [] ==> |KeyColumns(i.keys)| == |i.keys| && KeyColumns(i.keys) == i.columns)
          && (i.included != [] ==> KnownColumns(i.included, t)))
  }

  /** validIndex: the old form counts names by key, the extended form exactly. */
  predicate ValidIndex(i: Index, t: Table) {
    if i.keys != [] || i.attributes != Unset || i.access != "" || i.filter.state != "" || i.filter.sql != ""
       || i.visibility != "" || i.included != []
    then ValidExtendedIndex(i, t)
    else
      && SimpleName(i.name) && !i.definitionUnknown && i.columns != []
      && IndexKeyCount(t.indexes, NameKey(i.name)) == 1
      && SimpleAndDistinct(i.columns)
      && (forall k :: 0 <= k < |i.columns| ==> ColumnKeyCount(t.columns, NameKey(i.columns[k])) == 1)
      && (forall k :: 0 <= k < |i.columns| ==> FindColumn(t.columns, i.columns[k]).Some?)
  }

  /** columnMap and indexMap: the last declaration of a key wins. */
  function FindColumn(cs: seq<Column>, key: string): Option<Column> {
    if cs == [] then None
    else if NameKey(cs[|cs| - 1].name) == key then Some(cs[|cs| - 1])
    else FindColumn(cs[..|cs| - 1], key)
  }

  function FindIndex(xs: seq<Index>, key: string): Option<Index> {
    if xs == [] then None
    else if NameKey(xs[|xs| - 1].name) == key then Some(xs[|xs| - 1])
    else FindIndex(xs[..|xs| - 1], key)
  }

  /** ambiguousColumns of one table: keys that are not simple or occur again. */
  function BadColumns(cs: seq<Column>): set<string> {
    if cs == [] then {}
    else
      var c := cs[|cs| - 1];
      BadColumns(cs[..|cs| - 1])
      + if !SimpleName(c.name) || FindColumn(cs[..|cs| - 1], NameKey(c.name)).Some? then {NameKey(c.name)} else {}
  }

  function AmbiguousColumns(a: Table, b: Table): set<string> { BadColumns(a.columns) + BadColumns(b.columns) }

  // ------------------------------------------------------------------ constraint names

  datatype ConstraintValue = FkValue(fk: ForeignKey) | CheckValue(check: Check)

  /** One entry of the lists that diffConstraints compares. */
  datatype Item = Item(name: string, valid: bool, value: ConstraintValue)

  function FkItem(t: Table, f: ForeignKey): Item { Item(f.name, ValidForeignKey(f, t), FkValue(f.(raw := ""))) }

  function CheckItem(c: Check): Item { Item(c.name, ValidCheck(c), CheckValue(c.(raw := ""))) }

  function FkItems(t: Table, fs: seq<ForeignKey>): (r: seq<Item>)
    ensures |r| == |fs|
  {
    if fs == [] then [] else FkItems(t, fs[..|fs| - 1]) + [FkItem(t, fs[|fs| - 1])]
  }

  function CheckItems(cs: seq<Check>): (r: seq<Item>)
    ensures |r| == |cs|
  {
    if cs == [] then [] else CheckItems(cs[..|cs| - 1]) + [CheckItem(cs[|cs| - 1])]
  }

  function Named(items: seq<Item>, name: string): seq<Item> {
    if items == [] then []
    else Named(items[..|items| - 1], name) + if items[|items| - 1].name == name then [items[|items| - 1]] else []
  }

  /** constraintNameCount: foreign keys and checks share one name space. */
  function ConstraintNameCount(t: Table, name: string): nat {
    |Named(FkItems(t, t.foreignKeys), name)| + |Named(CheckItems(t.checks), name)|
  }

  predicate RepeatsName(items: seq<Item>) {
    exists k :: 0 <= k < |items| && |Named(items, items[k].name)| > 1
  }

  predicate AmbiguousConstraints(t: Table) { RepeatsName(FkItems(t, t.foreignKeys) + CheckItems(t.checks)) }

  predicate ItemKnown(i: Item) {
    match i.value
    case FkValue(f) => f.definition == Complete && f.validation != "unknown"
    case CheckValue(c) => c.definition == Complete && c.validation != "unknown"
  }
}
