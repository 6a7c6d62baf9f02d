/** What a compiled predicate means on a table's rows, and the tenant boundary of
    every read and update. */
module OperationTheorems {
  import opened Text
  import opened OperationCompiler
  import opened OperationUpdate

  /** A row by normalized column name, the key under which the manifest is unique. */
  type Row = map<string, Value>

  /** The database's comparisons: operator, stored value, argument. */
  type Compare = (string, Value, Value) -> bool

  function Stored(row: Row, field: string): Value {
    if NormalizeName(field) in row then row[NormalizeName(field)] else Null
  }

  ghost predicate Truth(c: Cond, row: Row, compare: Compare) {
    var v := Stored(row, c.field);
    if c.op == "is_null" then v == Null
    else if c.op == "is_not_null" then v != Null
    else if c.op == "in" then c.value.List? && exists item :: item in c.value.items && compare("=", v, item)
    else compare(c.op, v, c.value)
  }

  ghost predicate Matches(conds: seq<Cond>, row: Row, compare: Compare) {
    forall c :: c in conds ==> Truth(c, row, compare)
  }

  // ---------------------------------------------------------------------- meaning

  ghost predicate InTenant(x: Context, row: Row, compare: Compare) {
    x.o.settings.tenant.Some? && compare("=", Stored(row, x.Tenant()), x.o.settings.tenant.value)
  }

  /** The operator a filter writes, without case and surrounding space. */
  function Word(f: FilterSpec): string { ToLower(TrimSpace(f.op)) }

  /** The comparison each spelling names. */
  function Relation(word: string): Option<string> {
    match word
    case "" => Some("=") case "eq" => Some("=") case "=" => Some("=")
    case "ne" => Some("!=") case "!=" => Some("!=") case "<>" => Some("<>")
    case "gt" => Some(">") case ">" => Some(">") case "gte" => Some(">=") case ">=" => Some(">=")
    case "lt" => Some("<") case "<" => Some("<") case "lte" => Some("<=") case "<=" => Some("<=")
    case "like" => Some("like")
    case _ => None
  }

  /** What a filter compares with: the application's tenant, a named value, or its own. */
  function Given(o: Options, f: FilterSpec): Option<Value> {
    match f.valueRef
    case None => f.value
    case Some(name) =>
      if ToLower(TrimSpace(name)) == "current_tenant" then o.settings.tenant
      else if name in o.values then Some(o.values[name])
      else None
  }

  /** A filter read off its own fields: a null test, membership, or a comparison. */
  ghost predicate FilterTruth(x: Context, f: FilterSpec, row: Row, compare: Compare) {
    var v, word, given := Stored(row, f.field), Word(f), Given(x.o, f);
    if word == "is_null" then v == Null
    else if word == "is_not_null" then v != Null
    else if word == "in" then
      given.Some? && given.value.List? && exists item :: item in given.value.items && compare("=", v, item)
    else given.Some? && Relation(word).Some? && compare(Relation(word).value, v, given.value)
  }

  /** The tenant is there whenever the table has one. */
  predicate TenantGiven(x: Context) { x.Tenant() != "" ==> x.o.settings.tenant.Some? }

  /** What is compiled for an accepted filter means what the filter says. */
  lemma ResolvedMeans(x: Context, f: FilterSpec, row: Row, compare: Compare)
    requires Resolve(x, f).Some? && FilterOp(f.op) in OPERATORS && TenantGiven(x)
    ensures Truth(Resolve(x, f).value, row, compare) <==> FilterTruth(x, f, row, compare)
  {
    hide CheckColumn, TenantName, NormalizeName, Stored, TrimSpace, ToLower;
    OperatorMeans(f);
    ArgumentMeans(x, f);
  }

  lemma OperatorMeans(f: FilterSpec)
    requires FilterOp(f.op) in OPERATORS
    ensures Word(f) == "is_null" <==> FilterOp(f.op) == "is_null"
    ensures Word(f) == "is_not_null" <==> FilterOp(f.op) == "is_not_null"
    ensures Word(f) == "in" <==> FilterOp(f.op) == "in"
    ensures !NullTest(FilterOp(f.op)) && FilterOp(f.op) != "in" ==> Relation(Word(f)) == Some(FilterOp(f.op))
  {
    hide TrimSpace, ToLower;
  }

  lemma ArgumentMeans(x: Context, f: FilterSpec)
    requires Resolve(x, f).Some? && TenantGiven(x)
    ensures !NullTest(FilterOp(f.op)) ==> Given(x.o, f) == Some(Resolve(x, f).value.value)
  {
    hide CheckColumn, TenantName, NormalizeName, TrimSpace, ToLower, FilterOp;
  }

  /** The default test applies: registered in the settings, or not filtered on. */
  ghost predicate SoftTested(x: Context, filters: seq<FilterSpec>) {
    EffectiveSoft(x) != "" && (x.Policy().softDeleteColumn != "" || !HasFilter(filters, EffectiveSoft(x)))
  }

  ghost predicate Meaning(x: Context, filters: seq<FilterSpec>, row: Row, compare: Compare) {
    && (forall i :: 0 <= i < |filters| ==> FilterTruth(x, filters[i], row, compare))
    && (x.Tenant() != "" ==> InTenant(x, row, compare))
    && (SoftTested(x, filters) ==> Stored(row, EffectiveSoft(x)) == Null)
  }

  predicate AllSupported(filters: seq<FilterSpec>) {
    forall i :: 0 <= i < |filters| ==> FilterOp(filters[i].op) in OPERATORS
  }

  lemma {:induction false} KeptMatches(x: Context, filters: seq<FilterSpec>, row: Row, compare: Compare)
    requires AllResolve(x, filters) && AllSupported(filters) && TenantGiven(x)
    ensures Matches(Kept(x, filters), row, compare) <==>
            forall i :: 0 <= i < |filters| && !Dropped(x, filters[i]) ==> FilterTruth(x, filters[i], row, compare)
  {
    hide Truth, Dropped, Resolve, FilterTruth, FilterOp, TenantGiven;
    if filters != [] {
      var n := |filters| - 1;
      assert forall i :: 0 <= i < n ==> filters[..n][i] == filters[i];
      KeptMatches(x, filters[..n], row, compare);
      assert Resolve(x, filters[n]).Some?;
      ResolvedMeans(x, filters[n], row, compare);
    }
  }

  /** Every accepted filter on the tenant column says "tenant = application tenant". */
  lemma TenantFilterMeans(x: Context, f: FilterSpec, row: Row, compare: Compare)
    requires Resolve(x, f).Some? && IsTenantField(x, f.field)
    ensures FilterTruth(x, f, row, compare) <==> InTenant(x, row, compare)
  {
    hide CheckColumn, TenantName, NormalizeName, FilterOp, TrimSpace, ToLower;
    PlainNamesStay("current_tenant");
    EqualityWord(f);
    OneName(f.field, x.Tenant(), row);
  }

  lemma EqualityWord(f: FilterSpec)
    requires FilterOp(f.op) == "="
    ensures Relation(Word(f)) == Some("=") && Word(f) != "in" && Word(f) != "is_null" && Word(f) != "is_not_null"
  {
    hide TrimSpace, ToLower;
  }

  lemma OneName(a: string, b: string, row: Row)
    requires NormalizeName(a) == NormalizeName(b)
    ensures Stored(row, a) == Stored(row, b)
  {
  }

  lemma PolicyCondsMean(x: Context, row: Row, compare: Compare)
    ensures Matches(PolicyConds(x), row, compare) <==>
            && (x.o.settings.strict && x.o.settings.automatic && x.Policy().tenantColumn != "" ==>
                  compare("=", Stored(row, x.Policy().tenantColumn), x.Current()))
            && (x.Policy().softDeleteColumn != "" ==> Stored(row, x.Policy().softDeleteColumn) == Null)
  {
    hide Stored;
    var a, b := Cond(x.Policy().tenantColumn, "=", x.Current()), Cond(x.Policy().softDeleteColumn, "is_null", Null);
    if x.Policy().softDeleteColumn != "" { assert b in PolicyConds(x); }
    if x.o.settings.strict && x.o.settings.automatic && x.Policy().tenantColumn != "" { assert a in PolicyConds(x); }
  }

  lemma OwnCondsMean(x: Context, filters: seq<FilterSpec>, row: Row, compare: Compare)
    ensures Matches(OwnConds(x, filters), row, compare) <==>
            && Matches(Kept(x, filters), row, compare)
            && (SoftDeleteColumn(x.t) != "" && !HasFilter(filters, SoftDeleteColumn(x.t)) ==>
                  Stored(row, SoftDeleteColumn(x.t)) == Null)
  {
    hide Stored, Kept, HasFilter, SoftDeleteColumn;
    var soft := Cond(SoftDeleteColumn(x.t), "is_null", Null);
    var kept := Kept(x, filters);
    var own := OwnConds(x, filters);
    if SoftDeleteColumn(x.t) != "" && !HasFilter(filters, SoftDeleteColumn(x.t)) {
      assert soft in own;
      assert forall c :: c in own <==> c == soft || c in kept;
    } else {
      assert own == kept;
    }
  }

  /** An explicit tenant filter, or the automatic one, makes the tenant test. */
  lemma TenantIsTested(x: Context, filters: seq<FilterSpec>, row: Row, compare: Compare)
    requires TenantRight(x, filters) && AllResolve(x, filters) && x.Tenant() != ""
    ensures (forall i :: 0 <= i < |filters| && !Dropped(x, filters[i]) ==> FilterTruth(x, filters[i], row, compare))
            && (x.o.settings.automatic ==> InTenant(x, row, compare))
            <==>
            (forall i :: 0 <= i < |filters| ==> FilterTruth(x, filters[i], row, compare))
            && InTenant(x, row, compare)
  {
    hide Resolve, TenantName, NormalizeName, TenantDeclared, CheckColumn, FilterTruth, InTenant;
    forall i | 0 <= i < |filters| && IsTenantField(x, filters[i].field)
      ensures FilterTruth(x, filters[i], row, compare) <==> InTenant(x, row, compare)
    {
      TenantFilterMeans(x, filters[i], row, compare);
    }
    if !x.o.settings.automatic {
      assert HasFilter(filters, x.Tenant());
      var i :| 0 <= i < |filters| && NormalizeName(filters[i].field) == NormalizeName(x.Tenant());
      assert IsTenantField(x, filters[i].field) && !Dropped(x, filters[i]);
    }
  }

  /** The compiled predicate holds of a row exactly when the resolved filters do, the
      row is the application tenant's, and the default soft-delete test passes:
      the same in the explicit and the automatic tenant mode. */
  lemma PredicateMeans(x: Context, filters: seq<FilterSpec>, row: Row, compare: Compare)
    requires TenantRight(x, filters) && AllResolve(x, filters) && SoftRight(x, filters) && AllSupported(filters)
    ensures Matches(Predicate(x, filters), row, compare) <==> Meaning(x, filters, row, compare)
  {
    hide Resolve, TenantName, NormalizeName, TenantDeclared, CheckColumn, FilterTruth, SoftDeleteColumn, Kept,
         HasFilter;
    hide Truth, Stored, OwnConds, PolicyConds, AllSupported;
    var own, policy := OwnConds(x, filters), PolicyConds(x);
    assert Matches(own + policy, row, compare) <==> Matches(own, row, compare) && Matches(policy, row, compare);
    OwnCondsMean(x, filters, row, compare);
    PolicyCondsMean(x, row, compare);
    KeptMatches(x, filters, row, compare);
    if x.Tenant() != "" {
      TenantIsTested(x, filters, row, compare);
    } else {
      forall i | 0 <= i < |filters| ensures !Dropped(x, filters[i]) {}
    }
  }

  lemma SelectMeans(o: Options, spec: OperationSpec, t: Table, row: Row, compare: Compare)
    requires Valid(o, spec, false, t)
    ensures Matches(Compiled(Context(t, o), spec).conds, row, compare) <==>
            Meaning(Context(t, o), spec.filters, row, compare)
  {
    ValidParts(o, spec, false, t);
    PredicateMeans(Context(t, o), spec.filters, row, compare);
  }

  lemma ValidParts(o: Options, spec: OperationSpec, update: bool, t: Table)
    requires Valid(o, spec, update, t)
    ensures var x := Context(t, o);
            && TenantRight(x, spec.filters) && AllResolve(x, spec.filters) && SoftRight(x, spec.filters)
            && AllSupported(spec.filters)
    ensures o.manifest.Some? && TableDeclared(t)
  {
    hide RequiredMet, FieldAllowed, OrderAllowed, FilterOp, Kept, AllResolve, SoftRight, TenantRight, FieldsRight,
         OrdersRight;
  }

  lemma UpdateMeans(o: Options, s: UpdateSpec, t: Table, row: Row, compare: Compare)
    requires UpdateValid(o, s, t)
    ensures Matches(CompiledUpdate(Context(t, o), s).conds, row, compare) <==>
            Meaning(Context(t, o), s.filters, row, compare)
  {
    ValidParts(o, AsRead(s), true, t);
    PredicateMeans(Context(t, o), s.filters, row, compare);
  }

  /** Settings that register a soft-delete column override a filter that asks for
      deleted rows: such a read is accepted and matches nothing. */
  lemma RegisteredSoftDeleteWins(o: Options, spec: OperationSpec, t: Table, i: nat, row: Row, compare: Compare)
    requires Valid(o, spec, false, t) && i < |spec.filters|
    requires Context(t, o).Policy().softDeleteColumn != "" && Word(spec.filters[i]) == "is_not_null"
    requires NormalizeName(spec.filters[i].field) == NormalizeName(Context(t, o).Policy().softDeleteColumn)
    ensures !Matches(Compiled(Context(t, o), spec).conds, row, compare)
  {
    hide Valid, Resolve, NormalizeName, Word, Compiled, Matches, HasFilter, InTenant, FilterTruth;
    SelectMeans(o, spec, t, row, compare);
    NotNullFilter(Context(t, o), spec.filters[i], row, compare);
  }

  /** The exact condition: a read that asks for deleted rows gives what its filters and
      tenant say if the settings register no soft-delete column, and nothing otherwise. */
  lemma DeletedReadsExactly(o: Options, spec: OperationSpec, t: Table, i: nat, row: Row, compare: Compare)
    requires Valid(o, spec, false, t) && i < |spec.filters|
    requires EffectiveSoft(Context(t, o)) != "" && Word(spec.filters[i]) == "is_not_null"
    requires NormalizeName(spec.filters[i].field) == NormalizeName(EffectiveSoft(Context(t, o)))
    ensures var x := Context(t, o);
            Matches(Compiled(x, spec).conds, row, compare) <==>
            && x.Policy().softDeleteColumn == ""
            && (forall k :: 0 <= k < |spec.filters| ==> FilterTruth(x, spec.filters[k], row, compare))
            && (x.Tenant() != "" ==> InTenant(x, row, compare))
  {
    hide Valid, Resolve, NormalizeName, Word, Compiled, Matches, InTenant, FilterTruth, SoftDeleteColumn;
    SelectMeans(o, spec, t, row, compare);
    NotNullFilter(Context(t, o), spec.filters[i], row, compare);
  }

  lemma NotNullFilter(x: Context, f: FilterSpec, row: Row, compare: Compare)
    requires Word(f) == "is_not_null"
    ensures FilterTruth(x, f, row, compare) ==> forall field :: NormalizeName(field) == NormalizeName(f.field)
                                                 ==> Stored(row, field) != Null
  {
    hide NormalizeName, Word;
  }

  // -------------------------------------------------------------- tables and slices

  /** The rows a predicate selects, in table order; order, limit and projection are
      then functions of these rows alone. */
  ghost function Selected(conds: seq<Cond>, rows: seq<Row>, compare: Compare): seq<Row> {
    if rows == [] then []
    else (if Matches(conds, rows[0], compare) then [rows[0]] else []) + Selected(conds, rows[1..], compare)
  }

  /** One tenant's rows, in table order. */
  ghost function Slice(column: string, tenant: Value, rows: seq<Row>, compare: Compare): seq<Row> {
    if rows == [] then []
    else
      (if compare("=", Stored(rows[0], column), tenant) then [rows[0]] else [])
      + Slice(column, tenant, rows[1..], compare)
  }

  ghost predicate StaysInside(conds: seq<Cond>, column: string, tenant: Value, compare: Compare) {
    forall row :: Matches(conds, row, compare) ==> compare("=", Stored(row, column), tenant)
  }

  lemma {:induction false} SelectedInSlice(conds: seq<Cond>, column: string, tenant: Value, rows: seq<Row>,
      compare: Compare)
    requires StaysInside(conds, column, tenant, compare)
    ensures Selected(conds, rows, compare) == Selected(conds, Slice(column, tenant, rows, compare), compare)
  {
    hide Matches, Stored;
    if rows != [] {
      SelectedInSlice(conds, column, tenant, rows[1..], compare);
      if compare("=", Stored(rows[0], column), tenant) {
        SelectedCons(conds, rows[0], Slice(column, tenant, rows[1..], compare), compare);
      } else {
        assert Slice(column, tenant, rows, compare) == Slice(column, tenant, rows[1..], compare);
        assert Selected(conds, rows, compare) == Selected(conds, rows[1..], compare);
      }
    }
  }

  lemma SelectedCons(conds: seq<Cond>, row: Row, rest: seq<Row>, compare: Compare)
    ensures Selected(conds, [row] + rest, compare)
            == (if Matches(conds, row, compare) then [row] else []) + Selected(conds, rest, compare)
  {
    hide Matches;
    assert ([row] + rest)[1..] == rest;
  }

  lemma SliceCons(column: string, tenant: Value, row: Row, rest: seq<Row>, compare: Compare)
    ensures Slice(column, tenant, [row] + rest, compare)
            == (if compare("=", Stored(row, column), tenant) then [row] else []) + Slice(column, tenant, rest, compare)
  {
    hide Stored;
    assert ([row] + rest)[1..] == rest;
  }

  lemma SelectStaysInside(o: Options, spec: OperationSpec, t: Table, compare: Compare)
    requires Valid(o, spec, false, t) && TenantName(t) != ""
    ensures StaysInside(Compiled(Context(t, o), spec).conds, TenantName(t), Context(t, o).Current(), compare)
  {
    hide Valid, Compiled, Matches, Stored, TenantName;
    var x := Context(t, o);
    forall row | Matches(Compiled(x, spec).conds, row, compare)
      ensures compare("=", Stored(row, TenantName(t)), x.Current())
    {
      SelectMeans(o, spec, t, row, compare);
    }
  }

  /** Two databases that agree on the tenant's rows answer every accepted read alike. */
  lemma AnswersDependOnOwnRows(
    o: Options, spec: OperationSpec, t: Table, a: seq<Row>, b: seq<Row>, compare: Compare)
    requires Valid(o, spec, false, t) && TenantName(t) != ""
    requires Slice(TenantName(t), Context(t, o).Current(), a, compare)
             == Slice(TenantName(t), Context(t, o).Current(), b, compare)
    ensures Selected(Compiled(Context(t, o), spec).conds, a, compare)
            == Selected(Compiled(Context(t, o), spec).conds, b, compare)
  {
    hide Valid, Compiled, TenantName;
    var conds, current := Compiled(Context(t, o), spec).conds, Context(t, o).Current();
    SelectStaysInside(o, spec, t, compare);
    SelectedInSlice(conds, TenantName(t), current, a, compare);
    SelectedInSlice(conds, TenantName(t), current, b, compare);
  }

  // ----------------------------------------------------------------------- updates

  ghost predicate AssignedName(values: map<string, Value>, key: string) {
    exists name :: name in values && NormalizeName(name) == key
  }

  ghost function NewValue(values: map<string, Value>, key: string): Value
    requires AssignedName(values, key)
  {
    var name :| name in values && NormalizeName(name) == key;
    values[name]
  }

  ghost function Written(values: map<string, Value>, row: Row): Row {
    map key | key in row :: if AssignedName(values, key) then NewValue(values, key) else row[key]
  }

  ghost function AfterRow(u: UpdatePlan, row: Row, compare: Compare): Row {
    if Matches(u.conds, row, compare) then Written(u.values, row) else row
  }

  ghost function After(u: UpdatePlan, rows: seq<Row>, compare: Compare): seq<Row> {
    if rows == [] then [] else [AfterRow(u, rows[0], compare)] + After(u, rows[1..], compare)
  }

  lemma {:induction false} FirstPolicyIn(policies: seq<TablePolicy>, kind: string)
    requires FirstPolicy(policies, kind) != ""
    ensures exists i :: 0 <= i < |policies| && policies[i].kind == kind
             && policies[i].column == FirstPolicy(policies, kind)
  {
    if policies[0].kind != kind {
      FirstPolicyIn(policies[1..], kind);
      var i :| 0 <= i < |policies[1..]| && policies[1..][i].kind == kind
          && policies[1..][i].column == FirstPolicy(policies, kind);
      assert policies[i + 1] == policies[1..][i];
    }
  }

  lemma {:induction false} FirstScopedIn(columns: seq<Column>)
    requires FirstScoped(columns) != ""
    ensures exists c :: c in columns && c.tenantScope && c.name == FirstScoped(columns)
  {
    if !columns[0].tenantScope { FirstScopedIn(columns[1..]); }
  }

  lemma SameColumn(columns: seq<Column>, c: Column, d: Column)
    requires DistinctColumns(columns) && c in columns && d in columns
    requires NormalizeName(c.name) == NormalizeName(d.name)
    ensures c == d
  {
    hide NormalizeName;
  }

  /** However the manifest declares the tenant column, no writable column is it. */
  lemma WritableIsNotTenant(x: Context, c: Column)
    requires DistinctColumns(x.t.columns) && c in x.t.columns && Writable(x, c) && x.Tenant() != ""
    ensures NormalizeName(c.name) != NormalizeName(x.Tenant())
  {
    hide NormalizeName, FirstScoped, FirstPolicy, PolicyGuards, DistinctColumns;
    if NormalizeName(c.name) == NormalizeName(x.Tenant()) {
      if FirstScoped(x.t.columns) != "" {
        FirstScopedIn(x.t.columns);
        var d :| d in x.t.columns && d.tenantScope && d.name == FirstScoped(x.t.columns);
        SameColumn(x.t.columns, c, d);
      } else {
        FirstPolicyIn(x.t.policies, "tenant_scope");
      }
    }
  }

  /** Every assigned name is a declared column that updates may touch. */
  lemma AssignedIsWritable(x: Context, assignments: seq<Assignment>, name: string)
    requires AssignmentsOk(x, assignments) && name in Values(assignments)
    ensures exists c :: c in x.t.columns && c.name == name && Writable(x, c)
  {
    hide Values, NormalizeName, CheckColumn, Guarded, PolicyGuards, OncePerName;
    var i :| 0 <= i < |assignments| && assignments[i].column == name;
    assert AssignmentOk(x, assignments[i]);
  }

  /** Guarded columns keep their stored values in every row. */
  lemma UpdateKeepsGuarded(o: Options, s: UpdateSpec, t: Table, c: Column, row: Row, compare: Compare)
    requires UpdateValid(o, s, t) && c in t.columns && !Writable(Context(t, o), c)
    ensures Stored(AfterRow(CompiledUpdate(Context(t, o), s), row, compare), c.name) == Stored(row, c.name)
  {
    hide Valid, Matches, Values, NormalizeName, Writable, AssignmentsOk;
    var x, values := Context(t, o), Values(s.assignments);
    ValidParts(o, AsRead(s), true, t);
    forall name | name in values ensures NormalizeName(name) != NormalizeName(c.name) {
      AssignedIsWritable(x, s.assignments, name);
      var d :| d in t.columns && d.name == name && Writable(x, d);
      assert c != d;
      DistinctNames(t.columns, c, d);
    }
  }

  lemma DistinctNames(columns: seq<Column>, c: Column, d: Column)
    requires DistinctColumns(columns) && c in columns && d in columns && c != d
    ensures NormalizeName(c.name) != NormalizeName(d.name)
  {
    hide NormalizeName;
  }

  lemma UpdateKeepsTenant(o: Options, s: UpdateSpec, t: Table, row: Row, compare: Compare)
    requires UpdateValid(o, s, t) && TenantName(t) != ""
    ensures Stored(AfterRow(CompiledUpdate(Context(t, o), s), row, compare), TenantName(t))
            == Stored(row, TenantName(t))
  {
    hide Valid, Matches, Values, NormalizeName, Writable, AssignmentsOk, TenantName;
    var x, values := Context(t, o), Values(s.assignments);
    ValidParts(o, AsRead(s), true, t);
    forall name | name in values ensures NormalizeName(name) != NormalizeName(TenantName(t)) {
      AssignedIsWritable(x, s.assignments, name);
      var d :| d in t.columns && d.name == name && Writable(x, d);
      WritableIsNotTenant(x, d);
    }
  }

  lemma UpdateStaysInside(o: Options, s: UpdateSpec, t: Table, compare: Compare)
    requires UpdateValid(o, s, t) && TenantName(t) != ""
    ensures StaysInside(CompiledUpdate(Context(t, o), s).conds, TenantName(t), Context(t, o).Current(), compare)
  {
    hide UpdateValid, CompiledUpdate, Matches, Stored, TenantName;
    var x := Context(t, o);
    forall row | Matches(CompiledUpdate(x, s).conds, row, compare)
      ensures compare("=", Stored(row, TenantName(t)), x.Current())
    {
      UpdateMeans(o, s, t, row, compare);
    }
  }

  /** No stored tenant value belongs to both. */
  ghost predicate Apart(a: Value, b: Value, compare: Compare) {
    forall v :: !(compare("=", v, a) && compare("=", v, b))
  }

  lemma {:induction false} OtherSliceStays(o: Options, s: UpdateSpec, t: Table, tenant: Value, rows: seq<Row>,
      compare: Compare)
    requires UpdateValid(o, s, t) && TenantName(t) != "" && Apart(tenant, Context(t, o).Current(), compare)
    ensures Slice(TenantName(t), tenant, After(CompiledUpdate(Context(t, o), s), rows, compare), compare)
            == Slice(TenantName(t), tenant, rows, compare)
  {
    hide UpdateValid, CompiledUpdate, Matches, Stored, TenantName;
    if rows != [] {
      var u := CompiledUpdate(Context(t, o), s);
      OtherSliceStays(o, s, t, tenant, rows[1..], compare);
      UpdateKeepsTenant(o, s, t, rows[0], compare);
      UpdateStaysInside(o, s, t, compare);
      SliceCons(TenantName(t), tenant, AfterRow(u, rows[0], compare), After(u, rows[1..], compare), compare);
    }
  }

  lemma {:induction false} OwnSliceUpdates(o: Options, s: UpdateSpec, t: Table, rows: seq<Row>, compare: Compare)
    requires UpdateValid(o, s, t) && TenantName(t) != ""
    ensures var u, tenant := CompiledUpdate(Context(t, o), s), Context(t, o).Current();
            Slice(TenantName(t), tenant, After(u, rows, compare), compare)
            == After(u, Slice(TenantName(t), tenant, rows, compare), compare)
  {
    hide UpdateValid, CompiledUpdate, AfterRow, Stored, TenantName;
    if rows != [] {
      var u, tenant := CompiledUpdate(Context(t, o), s), Context(t, o).Current();
      OwnSliceUpdates(o, s, t, rows[1..], compare);
      UpdateKeepsTenant(o, s, t, rows[0], compare);
      SliceCons(TenantName(t), tenant, AfterRow(u, rows[0], compare), After(u, rows[1..], compare), compare);
      if compare("=", Stored(rows[0], TenantName(t)), tenant) {
        AfterCons(u, rows[0], Slice(TenantName(t), tenant, rows[1..], compare), compare);
      } else {
        assert Slice(TenantName(t), tenant, rows, compare) == Slice(TenantName(t), tenant, rows[1..], compare);
      }
    }
  }

  lemma AfterCons(u: UpdatePlan, row: Row, rest: seq<Row>, compare: Compare)
    ensures After(u, [row] + rest, compare) == [AfterRow(u, row, compare)] + After(u, rest, compare)
  {
    hide AfterRow;
    assert ([row] + rest)[1..] == rest;
  }

  // -------------------------------------------------------------------------- runs

  /** One accepted update, with the options (and tenant) it was compiled under. */
  datatype Work = Work(o: Options, s: UpdateSpec)

  ghost function Run(t: Table, works: seq<Work>, rows: seq<Row>, compare: Compare): seq<Row> {
    if works == [] then rows
    else
      var n := |works| - 1;
      After(CompiledUpdate(Context(t, works[n].o), works[n].s), Run(t, works[..n], rows, compare), compare)
  }

  ghost function Own(t: Table, works: seq<Work>, tenant: Value): seq<Work> {
    if works == [] then []
    else
      var n := |works| - 1;
      Own(t, works[..n], tenant) + if Context(t, works[n].o).Current() == tenant then [works[n]] else []
  }

  ghost predicate WorkOk(t: Table, w: Work, tenant: Value, compare: Compare) {
    UpdateValid(w.o, w.s, t)
    && (Context(t, w.o).Current() == tenant || Apart(tenant, Context(t, w.o).Current(), compare))
  }

  /** Over every run of accepted updates by any tenants, each tenant's rows evolve
      exactly as if that tenant were alone in the table. */
  lemma {:induction false} TenantsAreAlone(t: Table, works: seq<Work>, tenant: Value, rows: seq<Row>, compare: Compare)
    requires TenantName(t) != "" && forall i :: 0 <= i < |works| ==> WorkOk(t, works[i], tenant, compare)
    ensures Slice(TenantName(t), tenant, Run(t, works, rows, compare), compare)
            == Run(t, Own(t, works, tenant), Slice(TenantName(t), tenant, rows, compare), compare)
  {
    hide UpdateValid, CompiledUpdate, After, Slice, TenantName;
    if works != [] {
      var n := |works| - 1;
      var w := works[n];
      TenantsAreAlone(t, works[..n], tenant, rows, compare);
      assert WorkOk(t, w, tenant, compare);
      var before := Run(t, works[..n], rows, compare);
      if Context(t, w.o).Current() == tenant {
        var own := Own(t, works[..n], tenant);
        OwnSliceUpdates(w.o, w.s, t, before, compare);
        assert (own + [w])[..|own|] == own;
      } else {
        OtherSliceStays(w.o, w.s, t, tenant, before, compare);
        assert Own(t, works, tenant) == Own(t, works[..n], tenant);
      }
    }
  }

  /** So what a tenant reads after the run does not depend on the other tenants. */
  lemma ReadsAfterRun(
    t: Table, works: seq<Work>, o: Options, spec: OperationSpec, rows: seq<Row>, compare: Compare)
    requires Valid(o, spec, false, t) && TenantName(t) != ""
    requires forall i :: 0 <= i < |works| ==> WorkOk(t, works[i], Context(t, o).Current(), compare)
    ensures var tenant, conds := Context(t, o).Current(), Compiled(Context(t, o), spec).conds;
            Selected(conds, Run(t, works, rows, compare), compare)
            == Selected(conds, Run(t, Own(t, works, tenant), Slice(TenantName(t), tenant, rows, compare), compare),
                compare)
  {
    hide Valid, Compiled, Run, Slice, Own, WorkOk, TenantName;
    var tenant, conds := Context(t, o).Current(), Compiled(Context(t, o), spec).conds;
    SelectStaysInside(o, spec, t, compare);
    SelectedInSlice(conds, TenantName(t), tenant, Run(t, works, rows, compare), compare);
    TenantsAreAlone(t, works, tenant, rows, compare);
  }

  /** A column whose filter is enforced really is filtered on, or is the tenant's. */
  lemma RequiredColumnsAreBound(o: Options, spec: OperationSpec, t: Table, name: string)
    requires Valid(o, spec, false, t) && name in RequiredModes(t, t.policies)
    requires RequiredModes(t, t.policies)[name] != "warn" && name != NormalizeName(TenantName(t))
    ensures exists i :: 0 <= i < |spec.filters| && NormalizeName(spec.filters[i].field) == name
                        && Resolve(Context(t, o), spec.filters[i]).Some?
  {
    hide NormalizeName, Resolve, TypedOk, AllAllowed, RequiredModes, TenantName, FindTable, HeaderOk;
    var x := Context(t, o);
    ValidParts(o, spec, false, t);
    assert NameMet(x, spec.filters, name, RequiredModes(t, t.policies)[name]);
  }

  // ------------------------------------------------- an accepted read of deleted rows

  predicate PlainName(s: string) { s != "" && forall i :: 0 <= i < |s| ==> IsLower(s[i]) || s[i] == '_' }

  /** Lower-case names are their own normal form. */
  lemma PlainNamesStay(s: string)
    requires PlainName(s)
    ensures TrimSpace(s) == s && NormalizeName(s) == s && Plain(s) && ToLower(s) == s
  {
    assert IsLower(s[0]) || s[0] == '_';
    assert IsLower(s[|s| - 1]) || s[|s| - 1] == '_';
    assert ToLower(s) == s;
    assert TrimSpace(s) == s && TrimQuotesRight(TrimQuotesLeft(s)) == s && CutLast(s) == ("", s);
  }

  function PlainColumn(name: string): Column {
    Column(name, "sql", true, true, false, false, false, false, false, false, false, false)
  }

  const POSTS := Table("posts", "post", [PlainColumn("id"), PlainColumn("deleted_at")], [])

  function Registering(softDeleteColumn: string): Options {
    Options(Settings(true, false, false, None, (table: string) => Policy("", softDeleteColumn, [], [], [])),
            Some(Manifest("1", [POSTS], false, true)), map[], false, "",
            TypeRules((c, op) => true, c => false, (c, op, v) => true))
  }

  const DELETED_POSTS :=
    OperationSpec(1, "select", "post", ["id"], [FilterSpec("deleted_at", "is_not_null", None, None)], [], None, "")

  lemma PostNames()
    ensures PlainName("id") && PlainName("deleted_at") && PlainName("post") && PlainName("posts")
    ensures PlainName("is_not_null") && PlainName("select")
  {
  }

  lemma PostColumns(o: Options)
    ensures FieldOf(POSTS, "id") == Some(PlainColumn("id"))
    ensures FieldOf(POSTS, "deleted_at") == Some(PlainColumn("deleted_at"))
    ensures FilterOp("is_not_null") == "is_not_null"
  {
    hide NormalizeName, TrimSpace, ToLower, Plain;
    PostNames();
    PlainNamesStay("id");
    PlainNamesStay("deleted_at");
    PlainNamesStay("is_not_null");
    assert "id" != "deleted_at" by { assert |"id"| != |"deleted_at"|; }
  }

  lemma PostsDeclared()
    ensures Declarations(Manifest("1", [POSTS], false, true)) && FindTable([POSTS], "post") == Some(POSTS)
    ensures TrimSpace("post") == "post" && ToLower(TrimSpace("select")) == "select"
  {
    hide NormalizeName, TrimSpace, ToLower, Plain;
    PostNames();
    PlainNamesStay("id");
    PlainNamesStay("deleted_at");
    PlainNamesStay("post");
    PlainNamesStay("posts");
    PlainNamesStay("select");
    assert |"id"| != |"deleted_at"|;
  }

  lemma PostsHaveNoScope(soft: string)
    requires soft == "" || soft == "deleted_at"
    ensures var x := Context(POSTS, Registering(soft));
            && x.Tenant() == "" && SoftDeleteColumn(POSTS) == "" && TenantDeclared(POSTS, "")
            && RequiredModes(POSTS, POSTS.policies) == map[]
            && x.Policy() == Policy("", soft, [], [], [])
  {
    hide NormalizeName;
    var cs := POSTS.columns;
    assert cs[1..] == [PlainColumn("deleted_at")] && cs[1..][1..] == [];
    assert FirstScoped(cs[1..][1..]) == "" && FirstScoped(cs[1..]) == "";
    assert FirstSoftColumn(cs[1..][1..]) == "" && FirstSoftColumn(cs[1..]) == "";
    assert FirstSoftColumn(cs) == "" && FirstSoftPolicy(POSTS.policies) == "";
    assert cs[..1] == [PlainColumn("id")] && cs[..1][..0] == [] && ColumnModes(cs[..1]) == map[];
  }

  /** Such a read is accepted, whether or not the settings register the column. */
  lemma DeletedPostsAccepted(soft: string)
    requires soft == "" || soft == "deleted_at"
    ensures Valid(Registering(soft), DELETED_POSTS, false, POSTS)
  {
    hide NormalizeName, TrimSpace, ToLower, FieldOf, FilterOp, TenantName, Declarations, FindTable, SoftDeleteColumn;
    hide TenantDeclared, RequiredModes;
    var o := Registering(soft);
    var x := Context(POSTS, o);
    PostColumns(o);
    PostsDeclared();
    PostsHaveNoScope(soft);
    PostNames();
    PlainNamesStay("deleted_at");
    assert Resolve(x, DELETED_POSTS.filters[0]).Some?;
    if soft != "" { assert NormalizeName(DELETED_POSTS.filters[0].field) == NormalizeName(soft); }
  }

  const DELETED_POST: Row := map["id" := Scalar("1"), "deleted_at" := Scalar("yesterday")]

  /** The registration alone decides: the same accepted read of deleted posts finds the
      deleted post without it and misses it with it. */
  lemma RegistrationHidesDeletedPost(compare: Compare)
    ensures forall soft :: soft == "" || soft == "deleted_at" ==>
              && Valid(Registering(soft), DELETED_POSTS, false, POSTS)
              && (Matches(Compiled(Context(POSTS, Registering(soft)), DELETED_POSTS).conds, DELETED_POST, compare)
                 <==> soft == "")
  {
    hide Valid, Compiled, Matches, NormalizeName, FilterOp;
    forall soft | soft == "" || soft == "deleted_at"
      ensures Valid(Registering(soft), DELETED_POSTS, false, POSTS)
      ensures Matches(Compiled(Context(POSTS, Registering(soft)), DELETED_POSTS).conds, DELETED_POST, compare)
              <==> soft == ""
    {
      DeletedPostsAccepted(soft);
      DeletedPostMatches(soft, compare);
    }
  }

  lemma DeletedPostMatches(soft: string, compare: Compare)
    requires soft == "" || soft == "deleted_at"
    ensures Matches(Compiled(Context(POSTS, Registering(soft)), DELETED_POSTS).conds, DELETED_POST, compare)
            <==> soft == ""
  {
    hide NormalizeName, FieldOf, FilterOp, Compiled, Matches, TenantName, SoftDeleteColumn, Valid, CheckColumn,
         FindColumn;
    var x := Context(POSTS, Registering(soft));
    DeletedPostsAccepted(soft);
    SelectMeans(Registering(soft), DELETED_POSTS, POSTS, DELETED_POST, compare);
    PostColumns(Registering(soft));
    PostsHaveNoScope(soft);
    PostNames();
    PlainNamesStay("deleted_at");
    assert FilterTruth(x, DELETED_POSTS.filters[0], DELETED_POST, compare) by {
      ValidParts(Registering(soft), DELETED_POSTS, false, POSTS);
      assert Resolve(x, DELETED_POSTS.filters[0]).Some?;
    }
  }
}
