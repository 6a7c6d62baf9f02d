/** orm/operation: the checks on a structured read or update and the predicate and
    assignments it is compiled to. */
module OperationCompiler {
  import opened Text
  import Optimistic

  // ------------------------------------------------------------------- data model

  datatype Value = Null | Scalar(text: string) | List(items: seq<Value>)

  /** One column of the supplied manifest. */
  datatype Column = Column(
    name: string, typeSource: string, nullableKnown: bool, nullable: bool, primary: bool, readonly: bool,
    generated: bool, pii: bool, forbidden: bool, requiredFilter: bool, tenantScope: bool, softDelete: bool)

  datatype TablePolicy = TablePolicy(kind: string, column: string, mode: string)

  datatype Table = Table(name: string, model: string, columns: seq<Column>, policies: seq<TablePolicy>)

  datatype Manifest = Manifest(version: string, tables: seq<Table>, stale: bool, verified: bool)

  /** What the application's settings say about one table. */
  datatype Policy = Policy(
    tenantColumn: string, softDeleteColumn: string, forbidden: seq<string>, pii: seq<string>, immutable: seq<string>)

  datatype Settings = Settings(valid: bool, strict: bool, automatic: bool, tenant: Option<Value>,
      policies: string -> Policy)

  /** The declared-type rules: the grammar of a declaration for an operator, its
      arrays, and the domain of one scalar argument. */
  datatype TypeRules = TypeRules(
    declared: (Column, string) -> bool, isArray: Column -> bool, scalar: (Column, string, Value) -> bool)

  datatype Options = Options(
    settings: Settings, manifest: Option<Manifest>, values: map<string, Value>, requireFresh: bool,
    accessReason: string, types: TypeRules)

  datatype FilterSpec = FilterSpec(field: string, op: string, value: Option<Value>, valueRef: Option<string>)

  datatype OrderSpec = OrderSpec(field: string, direction: string)

  datatype OperationSpec = OperationSpec(
    version: int, operation: string, model: string, select: seq<string>, filters: seq<FilterSpec>,
    orderBy: seq<OrderSpec>, limit: Option<int>, accessReason: string)

  /** One conjunct of the compiled predicate. */
  datatype Cond = Cond(field: string, op: string, value: Value)

  datatype Plan = Plan(table: string, select: seq<string>, conds: seq<Cond>, order: seq<OrderSpec>, limit: Option<int>)

  // ------------------------------------------------------------------------ names

  function TrimQuotesLeft(s: string): string {
    if s != "" && (s[0] == '`' || s[0] == '"') then TrimQuotesLeft(s[1..]) else s
  }

  function TrimQuotesRight(s: string): string {
    if s != "" && (s[|s| - 1] == '`' || s[|s| - 1] == '"') then TrimQuotesRight(s[..|s| - 1]) else s
  }

  function NormalizeName(s: string): string {
    ToLower(CutLast(TrimQuotesRight(TrimQuotesLeft(TrimSpace(s)))).1)
  }

  function FilterOp(op: string): string {
    var t := ToLower(TrimSpace(op));
    if t == "" || t == "eq" then "=" else if t == "ne" then "!=" else if t == "gt" then ">"
    else if t == "gte" then ">=" else if t == "lt" then "<" else if t == "lte" then "<=" else t
  }

  const OPERATORS: set<string> := {"=", "!=", "<>", ">", ">=", "<", "<=", "like", "in", "is_null", "is_not_null"}

  function Direction(d: string): string {
    if ToLower(TrimSpace(d)) == "" then "asc" else ToLower(TrimSpace(d))
  }

  predicate NullTest(op: string) { op == "is_null" || op == "is_not_null" }

  // --------------------------------------------------------------------- manifest

  predicate DistinctTables(tables: seq<Table>) {
    forall i, j :: 0 <= i < j < |tables| ==> NormalizeName(tables[i].name) != NormalizeName(tables[j].name)
  }

  predicate DistinctColumns(columns: seq<Column>) {
    forall i, j :: 0 <= i < j < |columns| ==> NormalizeName(columns[i].name) != NormalizeName(columns[j].name)
  }

  predicate ColumnDeclared(c: Column) {
    NormalizeName(c.name) != "" && (c.typeSource == "" || c.typeSource == "sql" || c.typeSource == "go")
  }

  predicate TableDeclared(t: Table) {
    NormalizeName(t.name) != "" && DistinctColumns(t.columns) && forall c :: c in t.columns ==> ColumnDeclared(c)
  }

  predicate Declarations(m: Manifest) {
    m.version == "1" && DistinctTables(m.tables) && forall t :: t in m.tables ==> TableDeclared(t)
  }

  predicate Named(t: Table, model: string) {
    NormalizeName(t.model) == NormalizeName(model) || NormalizeName(t.name) == NormalizeName(model)
  }

  function FindTable(tables: seq<Table>, model: string): (r: Option<Table>)
    ensures r.Some? ==> r.value in tables && Named(r.value, model)
    ensures r.None? ==> forall t :: t in tables ==> !Named(t, model)
  {
    if tables == [] then None else if Named(tables[0], model) then Some(tables[0]) else FindTable(tables[1..], model)
  }

  function FindColumn(columns: seq<Column>, name: string): (r: Option<Column>)
    ensures r.Some? ==> r.value in columns && NormalizeName(r.value.name) == name
    ensures r.None? ==> forall c :: c in columns ==> NormalizeName(c.name) != name
  {
    if columns == [] then None
    else if NormalizeName(columns[0].name) == name then Some(columns[0])
    else FindColumn(columns[1..], name)
  }

  predicate Plain(field: string) {
    field != "" && '(' !in field && ')' !in field && '*' !in field && ' ' !in field
  }

  /** validateField: a known column that is not forbidden. */
  function FieldOf(t: Table, field: string): Option<Column> {
    var f := TrimSpace(field);
    if !Plain(f) then None
    else
      var c := FindColumn(t.columns, NormalizeName(f));
      if c.Some? && c.value.forbidden then None else c
  }

  predicate TypeAccepts(o: Options, c: Column, op: string, v: Value) {
    o.types.declared(c, op)
    && (op != "" && !NullTest(op) ==>
          && !o.types.isArray(c)
          && if op == "in" then v.List? && 1 <= |v.items| <= 1000 && forall x :: x in v.items
                                                                      ==> o.types.scalar(c, op, x)
             else o.types.scalar(c, op, v))
  }

  /** columnChecker: the exact column name, alone or qualified by the table. */
  predicate CheckColumn(t: Table, o: Options, field: string, op: string, v: Value) {
    var c := FieldOf(t, field);
    c.Some? && (field == c.value.name || field == t.name + "." + c.value.name) && TypeAccepts(o, c.value, op, v)
  }

  // ----------------------------------------------------------------- tenant scope

  function FirstScoped(columns: seq<Column>): string {
    if columns == [] then "" else if columns[0].tenantScope then columns[0].name else FirstScoped(columns[1..])
  }

  function FirstPolicy(policies: seq<TablePolicy>, kind: string): string {
    if policies == [] then "" else if policies[0].kind == kind then policies[0].column
       else FirstPolicy(policies[1..], kind)
  }

  function TenantName(t: Table): string {
    if FirstScoped(t.columns) != "" then FirstScoped(t.columns) else FirstPolicy(t.policies, "tenant_scope")
  }

  /** Every declaration of a tenant column in the manifest's table names this one. */
  predicate TenantDeclared(t: Table, tenant: string) {
    && (forall c :: c in t.columns && c.tenantScope ==> c.name == tenant && tenant != "")
    && (forall p :: p in t.policies && p.kind == "tenant_scope" ==> p.column == tenant && tenant != "")
  }

  lemma {:induction false} FirstScopedIs(columns: seq<Column>, tenant: string)
    requires forall c :: c in columns && c.tenantScope ==> c.name == tenant
    ensures FirstScoped(columns) == if exists c :: c in columns && c.tenantScope then tenant else ""
  {
    if columns != [] && !columns[0].tenantScope { FirstScopedIs(columns[1..], tenant); }
  }

  lemma {:induction false} FirstPolicyIs(policies: seq<TablePolicy>, tenant: string)
    requires forall p :: p in policies && p.kind == "tenant_scope" ==> p.column == tenant
    ensures FirstPolicy(policies, "tenant_scope") == if exists p ::
            p in policies && p.kind == "tenant_scope" then tenant else ""
  {
    if policies != [] && policies[0].kind != "tenant_scope" { FirstPolicyIs(policies[1..], tenant); }
  }

  /** The addTenant loops of typedValidate. */
  method DeclaredTenant(t: Table) returns (ok: bool, tenant: string)
    ensures ok <==> TenantDeclared(t, TenantName(t))
    ensures ok ==> tenant == TenantName(t)
  {
    tenant := "";
    for i := 0 to |t.columns|
      invariant forall c :: c in t.columns[..i] && c.tenantScope ==> c.name == tenant && tenant != ""
      invariant tenant != "" ==> exists c :: c in t.columns[..i] && c.tenantScope
    {
      if t.columns[i].tenantScope {
        assert t.columns[i] in t.columns;
        if t.columns[i].name == "" || (tenant != "" && tenant != t.columns[i].name) { return false, tenant; }
        tenant := t.columns[i].name;
      }
    }
    assert t.columns[..|t.columns|] == t.columns;
    FirstScopedIs(t.columns, tenant);
    ghost var scoped := tenant;
    for i := 0 to |t.policies|
      invariant scoped != "" ==> tenant == scoped
      invariant forall p :: p in t.policies[..i] && p.kind == "tenant_scope" ==> p.column == tenant && tenant != ""
      invariant tenant != scoped ==> exists p :: p in t.policies[..i] && p.kind == "tenant_scope"
    {
      if t.policies[i].kind == "tenant_scope" {
        assert t.policies[i] in t.policies;
        if t.policies[i].column == "" || (tenant != "" && tenant != t.policies[i].column) { return false, tenant; }
        tenant := t.policies[i].column;
      }
    }
    assert t.policies[..|t.policies|] == t.policies;
    FirstPolicyIs(t.policies, tenant);
    return true, tenant;
  }

  // --------------------------------------------------------------- resolved filters

  /** The table an operation names and the options it is compiled with. */
  datatype Context = Context(t: Table, o: Options)
  {
    function Policy(): Policy { o.settings.policies(t.name) }
    function Tenant(): string { TenantName(t) }
    function Current(): Value { if o.settings.tenant.Some? then o.settings.tenant.value else Null }
  }

  predicate IsTenantField(x: Context, field: string) {
    x.Tenant() != "" && NormalizeName(field) == NormalizeName(x.Tenant())
  }

  predicate Reserved(name: string) { ToLower(TrimSpace(name)) == "current_tenant" }

  /** The tenant column and the reserved reference belong to each other. */
  predicate ReservedRight(x: Context, f: FilterSpec) {
    var bound := f.valueRef == Some("current_tenant") && FilterOp(f.op) == "=";
    && (IsTenantField(x, f.field) ==> bound)
    && (f.valueRef.Some? && Reserved(f.valueRef.value) ==> bound && IsTenantField(x, f.field))
  }

  predicate Arity(f: FilterSpec) {
    if NullTest(FilterOp(f.op)) then f.value.None? && f.valueRef.None?
    else f.value.Some? != f.valueRef.Some? && (f.valueRef.Some? ==> TrimSpace(f.valueRef.value) != "")
  }

  /** The argument a filter stands for. */
  function Argument(x: Context, f: FilterSpec): Option<Value> {
    if f.valueRef.Some? then
      if Reserved(f.valueRef.value) then Some(x.Current())
      else if f.valueRef.value in x.o.values then Some(x.o.values[f.valueRef.value])
      else None
    else if f.value.Some? then f.value
    else Some(Null)
  }

  function Resolve(x: Context, f: FilterSpec): Option<Cond> {
    if !Arity(f) || !ReservedRight(x, f) || Argument(x, f).None? then None
    else if !CheckColumn(x.t, x.o, f.field, FilterOp(f.op), Argument(x, f).value) then None
    else Some(Cond(f.field, FilterOp(f.op), Argument(x, f).value))
  }

  /** Under automatic binding the planner adds the tenant predicate itself. */
  predicate Dropped(x: Context, f: FilterSpec) { IsTenantField(x, f.field) && x.o.settings.automatic }

  function Kept(x: Context, filters: seq<FilterSpec>): seq<Cond> {
    if filters == [] then []
    else
      var n := |filters| - 1;
      Kept(x, filters[..n])
      + if Dropped(x, filters[n]) || Resolve(x, filters[n]).None? then [] else [Resolve(x, filters[n]).value]
  }

  predicate AllResolve(x: Context, filters: seq<FilterSpec>) {
    forall i :: 0 <= i < |filters| ==> Resolve(x, filters[i]).Some?
  }

  predicate HasFilter(filters: seq<FilterSpec>, field: string) {
    exists i :: 0 <= i < |filters| && NormalizeName(filters[i].field) == NormalizeName(field)
  }

  // ------------------------------------------------------------------- soft deletes

  function FirstSoftPolicy(policies: seq<TablePolicy>): string {
    if policies == [] then ""
    else if policies[0].kind == "soft_delete" && TrimSpace(policies[0].column) != "" then policies[0].column
    else FirstSoftPolicy(policies[1..])
  }

  function FirstSoftColumn(columns: seq<Column>): string {
    if columns == [] then "" else if columns[0].softDelete then columns[0].name else FirstSoftColumn(columns[1..])
  }

  function SoftDeleteColumn(t: Table): string {
    if FirstSoftPolicy(t.policies) != "" then FirstSoftPolicy(t.policies) else FirstSoftColumn(t.columns)
  }

  /** The column both sources agree on, or the one that names any. */
  function EffectiveSoft(x: Context): string {
    if x.Policy().softDeleteColumn != "" then x.Policy().softDeleteColumn else SoftDeleteColumn(x.t)
  }

  predicate SoftRight(x: Context, filters: seq<FilterSpec>) {
    var soft := SoftDeleteColumn(x.t);
    && (x.Policy().softDeleteColumn != "" && soft != "" ==> soft == x.Policy().softDeleteColumn)
    && (EffectiveSoft(x) != "" && !HasFilter(filters, EffectiveSoft(x)) ==>
          CheckColumn(x.t, x.o, EffectiveSoft(x), "is_null", Null))
  }

  // ------------------------------------------------------------------ typedValidate

  predicate TenantRight(x: Context, filters: seq<FilterSpec>) {
    && TenantDeclared(x.t, x.Tenant())
    && (x.Tenant() != "" || x.Policy().tenantColumn != "" ==>
          x.Tenant() == x.Policy().tenantColumn && x.o.settings.strict && x.o.settings.tenant.Some?)
    && (x.Tenant() != "" && !HasFilter(filters, x.Tenant()) ==>
          x.o.settings.automatic && CheckColumn(x.t, x.o, x.Tenant(), "=", x.Current()))
  }

  predicate FieldsRight(x: Context, fields: seq<string>) {
    forall i :: 0 <= i < |fields| ==> CheckColumn(x.t, x.o, fields[i], "", Null)
  }

  predicate OrdersRight(x: Context, orders: seq<OrderSpec>) {
    forall i :: 0 <= i < |orders| ==> CheckColumn(x.t, x.o, orders[i].field, "", Null)
  }

  predicate NoReserved(values: map<string, Value>) { forall k :: k in values ==> !Reserved(k) }

  predicate TypedOk(x: Context, spec: OperationSpec) {
    && (spec.limit.Some? ==> 0 <= spec.limit.value <= 10000)
    && NoReserved(x.o.values) && TenantRight(x, spec.filters)
    && FieldsRight(x, spec.select) && OrdersRight(x, spec.orderBy)
    && AllResolve(x, spec.filters) && SoftRight(x, spec.filters)
  }

  method CheckFields(x: Context, fields: seq<string>) returns (ok: bool)
    ensures ok <==> FieldsRight(x, fields)
  {
    hide CheckColumn;
    for i := 0 to |fields|
      invariant forall k :: 0 <= k < i ==> CheckColumn(x.t, x.o, fields[k], "", Null)
    {
      if !CheckColumn(x.t, x.o, fields[i], "", Null) { return false; }
    }
    return true;
  }

  method CheckOrders(x: Context, orders: seq<OrderSpec>) returns (ok: bool)
    ensures ok <==> OrdersRight(x, orders)
  {
    hide CheckColumn;
    for i := 0 to |orders|
      invariant forall k :: 0 <= k < i ==> CheckColumn(x.t, x.o, orders[k].field, "", Null)
    {
      if !CheckColumn(x.t, x.o, orders[i].field, "", Null) { return false; }
    }
    return true;
  }

  /** The loop over the named values, in Go's unspecified map order. */
  method CheckValues(values: map<string, Value>) returns (ok: bool)
    ensures ok <==> NoReserved(values)
  {
    var todo := values.Keys;
    while todo != {}
      invariant todo <= values.Keys && forall k :: k in values && k !in todo ==> !Reserved(k)
    {
      var k :| k in todo;
      if Reserved(k) { return false; }
      todo := todo - {k};
    }
    return true;
  }

  /** One filter, in the order the original refuses. */
  method ResolveFilter(x: Context, f: FilterSpec) returns (r: Option<Cond>)
    ensures r == Resolve(x, f)
  {
    hide CheckColumn, TenantName, NormalizeName, FilterOp, Reserved;
    var op := FilterOp(f.op);
    var given, referred := f.value.Some?, f.valueRef.Some?;
    if NullTest(op) {
      if given || referred { return None; }
    } else if given == referred || (referred && TrimSpace(f.valueRef.value) == "") {
      return None;
    }
    var v := if given then f.value.value else Null;
    var tenant := IsTenantField(x, f.field);
    var reserved := referred && Reserved(f.valueRef.value);
    if tenant && (!referred || f.valueRef.value != "current_tenant" || op != "=") { return None; }
    if reserved {
      if f.valueRef.value != "current_tenant" || !tenant || op != "=" { return None; }
      v := x.Current();
    } else if referred {
      if f.valueRef.value !in x.o.values { return None; }
      v := x.o.values[f.valueRef.value];
    }
    if !CheckColumn(x.t, x.o, f.field, op, v) { return None; }
    return Some(Cond(f.field, op, v));
  }

  /** The filter loop, which appends the resolved filters that stay. */
  method ResolveFilters(x: Context, filters: seq<FilterSpec>) returns (r: Option<seq<Cond>>)
    ensures r.Some? <==> AllResolve(x, filters)
    ensures r.Some? ==> r.value == Kept(x, filters)
  {
    hide Resolve, Dropped;
    var kept: seq<Cond> := [];
    for i := 0 to |filters|
      invariant forall k :: 0 <= k < i ==> Resolve(x, filters[k]).Some?
      invariant kept == Kept(x, filters[..i])
    {
      var c := ResolveFilter(x, filters[i]);
      if c.None? { return None; }
      assert filters[..i + 1][..i] == filters[..i];
      if !Dropped(x, filters[i]) { kept := kept + [c.value]; }
    }
    assert filters[..|filters|] == filters;
    return Some(kept);
  }

  /** typedValidate: the conditions kept for the builder. */
  method TypedValidate(x: Context, spec: OperationSpec) returns (r: Option<seq<Cond>>)
    ensures r.Some? <==> TypedOk(x, spec)
    ensures r.Some? ==> r.value == Kept(x, spec.filters)
  {
    hide CheckColumn, TenantDeclared, Resolve, Kept, HasFilter, TenantName, SoftDeleteColumn, NoReserved, FieldsRight;
    hide OrdersRight, AllResolve;
    if spec.limit.Some? && (spec.limit.value < 0 || spec.limit.value > 10000) { return None; }
    var ok := CheckValues(x.o.values);
    if !ok { return None; }
    var tenant;
    ok, tenant := DeclaredTenant(x.t);
    if !ok { return None; }
    if tenant != "" || x.Policy().tenantColumn != "" {
      if tenant != x.Policy().tenantColumn || !x.o.settings.strict || x.o.settings.tenant.None? { return None; }
    }
    ok := CheckFields(x, spec.select);
    if !ok { return None; }
    ok := CheckOrders(x, spec.orderBy);
    if !ok { return None; }
    var kept := ResolveFilters(x, spec.filters);
    if kept.None? { return None; }
    if tenant != "" && !HasFilter(spec.filters, tenant) {
      if !x.o.settings.automatic || !CheckColumn(x.t, x.o, tenant, "=", x.Current()) { return None; }
    }
    var soft := SoftDeleteColumn(x.t);
    if x.Policy().softDeleteColumn != "" {
      if soft != "" && soft != x.Policy().softDeleteColumn { return None; }
      soft := x.Policy().softDeleteColumn;
    }
    if soft != "" && !HasFilter(spec.filters, soft) && !CheckColumn(x.t, x.o, soft, "is_null", Null) { return None; }
    return kept;
  }

  // --------------------------------------------------------------- required filters

  function ColumnModes(columns: seq<Column>): map<string, string> {
    if columns == [] then map[]
    else
      var n := |columns| - 1;
      if columns[n].requiredFilter || columns[n].tenantScope
      then ColumnModes(columns[..n])[NormalizeName(columns[n].name) := "enforce"]
      else ColumnModes(columns[..n])
  }

  predicate Requires(p: TablePolicy) { p.kind == "tenant_scope" || p.kind == "required_filter" }

  /** The mode of each column that needs a filter; a later policy replaces an earlier. */
  function RequiredModes(t: Table, policies: seq<TablePolicy>): map<string, string> {
    if policies == [] then ColumnModes(t.columns)
    else
      var n := |policies| - 1;
      var p := policies[n];
      if !Requires(p) then RequiredModes(t, policies[..n])
      else RequiredModes(t, policies[..n])[NormalizeName(p.column) := if p.mode == "" then "enforce" else p.mode]
  }

  predicate FilteredName(filters: seq<FilterSpec>, name: string) {
    exists i :: 0 <= i < |filters| && NormalizeName(filters[i].field) == name
  }

  predicate NameMet(x: Context, filters: seq<FilterSpec>, name: string, mode: string) {
    name == NormalizeName(x.Tenant()) || FilteredName(filters, name) || mode == "warn"
  }

  predicate RequiredMet(x: Context, filters: seq<FilterSpec>) {
    var modes := RequiredModes(x.t, x.t.policies);
    forall name :: name in modes ==> NameMet(x, filters, name, modes[name])
  }

  /** requiredFilterColumns: two loops fill one map. */
  method CollectRequired(t: Table) returns (modes: map<string, string>)
    ensures modes == RequiredModes(t, t.policies)
  {
    hide NormalizeName;
    modes := map[];
    for i := 0 to |t.columns|
      invariant modes == ColumnModes(t.columns[..i])
    {
      assert t.columns[..i + 1][..i] == t.columns[..i];
      if t.columns[i].requiredFilter || t.columns[i].tenantScope {
        modes := modes[NormalizeName(t.columns[i].name) := "enforce"];
      }
    }
    assert t.columns[..|t.columns|] == t.columns;
    for i := 0 to |t.policies|
      invariant modes == RequiredModes(t, t.policies[..i])
    {
      assert t.policies[..i + 1][..i] == t.policies[..i];
      if Requires(t.policies[i]) {
        var mode := if t.policies[i].mode == "" then "enforce" else t.policies[i].mode;
        modes := modes[NormalizeName(t.policies[i].column) := mode];
      }
    }
    assert t.policies[..|t.policies|] == t.policies;
  }

  method CheckRequired(x: Context, filters: seq<FilterSpec>) returns (ok: bool)
    ensures ok <==> RequiredMet(x, filters)
  {
    hide NameMet;
    var modes := CollectRequired(x.t);
    var todo := modes.Keys;
    while todo != {}
      invariant todo <= modes.Keys
      invariant forall name :: name in modes && name !in todo ==> NameMet(x, filters, name, modes[name])
    {
      var name :| name in todo;
      if !NameMet(x, filters, name, modes[name]) { return false; }
      todo := todo - {name};
    }
    return true;
  }

  // -------------------------------------------------------------- validateOperation

  predicate ReasonGiven(o: Options, spec: OperationSpec) {
    TrimSpace(spec.accessReason) != "" || TrimSpace(o.accessReason) != ""
  }

  predicate FieldAllowed(x: Context, spec: OperationSpec, field: string) {
    FieldOf(x.t, field).Some? && (FieldOf(x.t, field).value.pii ==> ReasonGiven(x.o, spec))
  }

  predicate FilterAllowed(x: Context, f: FilterSpec) {
    TrimSpace(f.field) != "" && FieldOf(x.t, f.field).Some? && FilterOp(f.op) in OPERATORS
  }

  predicate OrderAllowed(x: Context, order: OrderSpec) {
    FieldOf(x.t, order.field).Some? && (Direction(order.direction) == "asc" || Direction(order.direction) == "desc")
  }

  predicate AllAllowed(x: Context, spec: OperationSpec) {
    && (forall i :: 0 <= i < |spec.select| ==> FieldAllowed(x, spec, spec.select[i]))
    && (forall i :: 0 <= i < |spec.filters| ==> FilterAllowed(x, spec.filters[i]))
    && (forall i :: 0 <= i < |spec.orderBy| ==> OrderAllowed(x, spec.orderBy[i]))
  }

  predicate HeaderOk(o: Options, spec: OperationSpec, update: bool) {
    && (spec.version == 0 || spec.version == 1) && o.manifest.Some? && Declarations(o.manifest.value)
       && o.settings.valid
    && (ToLower(TrimSpace(spec.operation)) == "" || ToLower(TrimSpace(spec.operation)) == "select")
    && TrimSpace(spec.model) != "" && (!update ==> spec.select != [])
  }

  predicate Fresh(o: Options)
    requires o.manifest.Some?
  {
    o.requireFresh ==> o.manifest.value.verified && !o.manifest.value.stale
  }

  predicate Valid(o: Options, spec: OperationSpec, update: bool, t: Table) {
    && HeaderOk(o, spec, update) && FindTable(o.manifest.value.tables, spec.model) == Some(t) && Fresh(o)
    && AllAllowed(Context(t, o), spec) && TypedOk(Context(t, o), spec) && RequiredMet(Context(t, o), spec.filters)
  }

  method CheckAllowed(x: Context, spec: OperationSpec) returns (ok: bool)
    ensures ok <==> AllAllowed(x, spec)
  {
    hide FieldAllowed, FilterAllowed, OrderAllowed;
    for i := 0 to |spec.select|
      invariant forall k :: 0 <= k < i ==> FieldAllowed(x, spec, spec.select[k])
    {
      if !FieldAllowed(x, spec, spec.select[i]) { return false; }
    }
    for i := 0 to |spec.filters|
      invariant forall k :: 0 <= k < i ==> FilterAllowed(x, spec.filters[k])
    {
      if !FilterAllowed(x, spec.filters[i]) { return false; }
    }
    for i := 0 to |spec.orderBy|
      invariant forall k :: 0 <= k < i ==> OrderAllowed(x, spec.orderBy[k])
    {
      if !OrderAllowed(x, spec.orderBy[i]) { return false; }
    }
    return true;
  }

  /** validateOperation, shared by reads and updates. */
  method ValidateOperation(o: Options, spec: OperationSpec, update: bool) returns (r: Option<(Table, seq<Cond>)>)
    ensures r.Some? <==> exists t :: Valid(o, spec, update, t)
    ensures r.Some? ==> Valid(o, spec, update, r.value.0) && r.value.1 == Kept(Context(r.value.0, o), spec.filters)
  {
    hide AllAllowed, TypedOk, RequiredMet, Declarations, Kept;
    if !HeaderOk(o, spec, update) { return None; }
    var found := FindTable(o.manifest.value.tables, spec.model);
    if found.None? || !Fresh(o) { return None; }
    var x := Context(found.value, o);
    var ok := CheckAllowed(x, spec);
    if !ok { return None; }
    var kept := TypedValidate(x, spec);
    if kept.None? { return None; }
    ok := CheckRequired(x, spec.filters);
    if !ok { return None; }
    assert Valid(o, spec, update, x.t);
    return Some((x.t, kept.value));
  }

  // ---------------------------------------------------------------- the predicate

  /** The default soft-delete test and the kept filters, as the compiler adds them. */
  function OwnConds(x: Context, filters: seq<FilterSpec>): seq<Cond> {
    var soft := SoftDeleteColumn(x.t);
    (if soft != "" && !HasFilter(filters, soft) then [Cond(soft, "is_null", Null)] else []) + Kept(x, filters)
  }

  /** The mandatory conditions policyBuilder adds around them. */
  function PolicyConds(x: Context): seq<Cond> {
    (if x.o.settings.strict && x.o.settings.automatic && x.Policy().tenantColumn != ""
     then [Cond(x.Policy().tenantColumn, "=", x.Current())] else [])
    + (if x.Policy().softDeleteColumn != "" then [Cond(x.Policy().softDeleteColumn, "is_null", Null)] else [])
  }

  function Predicate(x: Context, filters: seq<FilterSpec>): seq<Cond> { OwnConds(x, filters) + PolicyConds(x) }

  function Directed(orders: seq<OrderSpec>): seq<OrderSpec> {
    seq(|orders|, i requires 0 <= i < |orders| => OrderSpec(orders[i].field, Direction(orders[i].direction)))
  }

  function Compiled(x: Context, spec: OperationSpec): Plan {
    Plan(x.t.name, spec.select, Predicate(x, spec.filters), Directed(spec.orderBy), spec.limit)
  }

  /** prepareOperation: the builder receives the soft-delete test, the filters, the
      order and the limit, and then the policy's conditions. */
  method PrepareOperation(o: Options, spec: OperationSpec) returns (plan: Option<Plan>)
    ensures plan.Some? <==> exists t :: Valid(o, spec, false, t)
    ensures plan.Some? ==> exists t :: Valid(o, spec, false, t) && plan.value == Compiled(Context(t, o), spec)
  {
    hide Valid, Kept, HasFilter, SoftDeleteColumn;
    var valid := ValidateOperation(o, spec, false);
    if valid.None? { return None; }
    var (t, filters) := valid.value;
    var x := Context(t, o);
    var conds: seq<Cond> := [];
    if SoftDeleteColumn(t) != "" && !HasFilter(spec.filters, SoftDeleteColumn(t)) {
      conds := conds + [Cond(SoftDeleteColumn(t), "is_null", Null)];
    }
    conds := conds + filters;
    var order: seq<OrderSpec> := [];
    for i := 0 to |spec.orderBy|
      invariant order == Directed(spec.orderBy[..i])
    {
      order := order + [OrderSpec(spec.orderBy[i].field, Direction(spec.orderBy[i].direction))];
    }
    assert spec.orderBy[..|spec.orderBy|] == spec.orderBy;
    plan := Some(Plan(t.name, spec.select, conds + PolicyConds(x), order, spec.limit));
    assert plan.value == Compiled(x, spec);
  }
}
