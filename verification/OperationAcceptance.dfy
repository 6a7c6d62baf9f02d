/** Exactly which structured reads and updates are accepted, from the fields of the
    specification, the manifest, the settings and the named values. */
module OperationAcceptance {
  import opened Text
  import Optimistic
  import opened OperationCompiler
  import opened OperationUpdate
  import opened OperationTheorems

  // -------------------------------------------------------------------- one column

  /** The first column of that normal name, where the name is a plain one. */
  predicate ColumnOf(t: Table, field: string, k: int) {
    && 0 <= k < |t.columns| && TrimSpace(field) != ""
    && (forall i :: 0 <= i < |TrimSpace(field)| ==> TrimSpace(field)[i] !in {'(', ')', '*', ' '})
    && NormalizeName(t.columns[k].name) == NormalizeName(TrimSpace(field))
    && forall j :: 0 <= j < k ==> NormalizeName(t.columns[j].name) != NormalizeName(TrimSpace(field))
  }

  /** The declared type admits the operator and its argument; "" is no operator. */
  predicate Suits(o: Options, c: Column, op: string, v: Value) {
    && o.types.declared(c, op)
    && (op in {"", "is_null", "is_not_null"}
        || (!o.types.isArray(c)
            && (if op == "in" then
                  v.List? && 1 <= |v.items| <= 1000
                  && forall i :: 0 <= i < |v.items| ==> o.types.scalar(c, op, v.items[i])
                else o.types.scalar(c, op, v))))
  }

  /** The field is the exact name of a column that is not forbidden, alone or behind the
      table's, and the column suits. */
  predicate Checked(t: Table, o: Options, field: string, op: string, v: Value) {
    exists k :: 0 <= k < |t.columns| && ColumnOf(t, field, k) && !t.columns[k].forbidden
                && (field == t.columns[k].name || field == t.name + "." + t.columns[k].name)
                && Suits(o, t.columns[k], op, v)
  }

  lemma {:induction false} FindColumnIs(columns: seq<Column>, name: string, k: nat)
    requires k < |columns| && NormalizeName(columns[k].name) == name
    requires forall j :: 0 <= j < k ==> NormalizeName(columns[j].name) != name
    ensures FindColumn(columns, name) == Some(columns[k])
  {
    hide NormalizeName;
    if k > 0 { FindColumnIs(columns[1..], name, k - 1); }
  }

  lemma {:induction false} FindColumnAt(columns: seq<Column>, name: string) returns (k: nat)
    requires FindColumn(columns, name).Some?
    ensures k < |columns| && FindColumn(columns, name) == Some(columns[k])
    ensures NormalizeName(columns[k].name) == name
    ensures forall j :: 0 <= j < k ==> NormalizeName(columns[j].name) != name
  {
    hide NormalizeName;
    if NormalizeName(columns[0].name) == name {
      k := 0;
    } else {
      k := FindColumnAt(columns[1..], name);
      assert forall j :: 0 < j < k + 1 ==> columns[j] == columns[1..][j - 1];
      k := k + 1;
    }
  }

  lemma PlainMeans(f: string)
    ensures Plain(f) <==> f != "" && forall i :: 0 <= i < |f| ==> f[i] !in {'(', ')', '*', ' '}
  {
  }

  lemma FieldIs(t: Table, field: string, k: int)
    requires ColumnOf(t, field, k)
    ensures FieldOf(t, field) == if t.columns[k].forbidden then None else Some(t.columns[k])
  {
    hide NormalizeName, TrimSpace, Plain, FindColumn;
    PlainMeans(TrimSpace(field));
    FindColumnIs(t.columns, NormalizeName(TrimSpace(field)), k);
  }

  lemma FieldAt(t: Table, field: string) returns (k: nat)
    requires FieldOf(t, field).Some?
    ensures k < |t.columns| && ColumnOf(t, field, k) && FieldOf(t, field) == Some(t.columns[k])
    ensures !t.columns[k].forbidden
  {
    hide NormalizeName, TrimSpace, Plain, FindColumn;
    PlainMeans(TrimSpace(field));
    k := FindColumnAt(t.columns, NormalizeName(TrimSpace(field)));
  }

  lemma SuitsMeans(o: Options, c: Column, op: string, v: Value)
    ensures TypeAccepts(o, c, op, v) <==> Suits(o, c, op, v)
  {
  }

  lemma CheckedExactly(t: Table, o: Options, field: string, op: string, v: Value)
    ensures CheckColumn(t, o, field, op, v) <==> Checked(t, o, field, op, v)
  {
    hide ColumnOf, FieldOf, TypeAccepts, Suits;
    if CheckColumn(t, o, field, op, v) {
      var k := FieldAt(t, field);
      SuitsMeans(o, t.columns[k], op, v);
    }
    if Checked(t, o, field, op, v) {
      var k :| 0 <= k < |t.columns| && ColumnOf(t, field, k) && !t.columns[k].forbidden
               && (field == t.columns[k].name || field == t.name + "." + t.columns[k].name)
               && Suits(o, t.columns[k], op, v);
      FieldIs(t, field, k);
      SuitsMeans(o, t.columns[k], op, v);
    }
  }

  // -------------------------------------------------------------------- one filter

  predicate NullWord(f: FilterSpec) { Word(f) == "is_null" || Word(f) == "is_not_null" }

  /** The operator behind the word a filter writes. */
  function Symbol(f: FilterSpec): Option<string> {
    if NullWord(f) || Word(f) == "in" then Some(Word(f)) else Relation(Word(f))
  }

  predicate OnTenant(t: Table, f: FilterSpec) {
    TenantName(t) != "" && NormalizeName(f.field) == NormalizeName(TenantName(t))
  }

  predicate SaysTenant(f: FilterSpec) { f.valueRef == Some("current_tenant") && Symbol(f) == Some("=") }

  predicate RefersTenant(f: FilterSpec) {
    f.valueRef.Some? && ToLower(TrimSpace(f.valueRef.value)) == "current_tenant"
  }

  /** A known operator with the right number of arguments, all there; the tenant column and
      the reserved reference only together, in an equality; and a column that suits. */
  predicate FilterFine(o: Options, t: Table, f: FilterSpec) {
    && Symbol(f).Some?
    && (if NullWord(f) then f.value.None? && f.valueRef.None?
        else
          && (f.value.Some? <==> f.valueRef.None?) && (f.valueRef.Some? ==> TrimSpace(f.valueRef.value) != "")
          && Given(o, f).Some?)
    && (OnTenant(t, f) ==> SaysTenant(f)) && (RefersTenant(f) ==> SaysTenant(f) && OnTenant(t, f))
    && Checked(t, o, f.field, Symbol(f).value, if NullWord(f) then Null else Given(o, f).value)
  }

  lemma SymbolMeans(f: FilterSpec)
    ensures FilterOp(f.op) in OPERATORS <==> Symbol(f).Some?
    ensures Symbol(f).Some? ==> Symbol(f).value == FilterOp(f.op)
    ensures NullWord(f) <==> NullTest(FilterOp(f.op))
  {
    hide TrimSpace, ToLower;
  }

  lemma FilterExactly(x: Context, f: FilterSpec)
    requires TenantGiven(x)
    ensures FilterOp(f.op) in OPERATORS && Resolve(x, f).Some? <==> FilterFine(x.o, x.t, f)
  {
    hide CheckColumn, Checked, TenantName, NormalizeName, TrimSpace, ToLower, FilterOp, Symbol, NullWord;
    SymbolMeans(f);
    if Symbol(f).Some? {
      CheckedExactly(x.t, x.o, f.field, Symbol(f).value, if NullWord(f) || Given(x.o, f).None? then Null
          else Given(x.o, f).value);
    }
  }

  // --------------------------------------------------------------- required filters

  predicate Demands(p: TablePolicy, name: string) {
    (p.kind == "tenant_scope" || p.kind == "required_filter") && NormalizeName(p.column) == name
  }

  predicate LastDemand(ps: seq<TablePolicy>, name: string, k: int) {
    0 <= k < |ps| && Demands(ps[k], name) && forall l :: k < l < |ps| ==> !Demands(ps[l], name)
  }

  predicate ColumnDemands(cs: seq<Column>, name: string) {
    exists k :: 0 <= k < |cs| && (cs[k].requiredFilter || cs[k].tenantScope) && NormalizeName(cs[k].name) == name
  }

  /** The last policy about a name decides it, before any column flag; only "warn" spares. */
  predicate Enforced(t: Table, name: string) {
    || (exists k :: 0 <= k < |t.policies| && LastDemand(t.policies, name, k) && t.policies[k].mode != "warn")
    || ((forall k :: 0 <= k < |t.policies| ==> !Demands(t.policies[k], name)) && ColumnDemands(t.columns, name))
  }

  lemma {:induction false} ColumnModesAre(cs: seq<Column>, name: string)
    ensures name in ColumnModes(cs) <==> ColumnDemands(cs, name)
    ensures name in ColumnModes(cs) ==> ColumnModes(cs)[name] == "enforce"
  {
    hide NormalizeName;
    if cs != [] {
      var n := |cs| - 1;
      ColumnModesAre(cs[..n], name);
      assert forall k :: 0 <= k < n ==> cs[..n][k] == cs[k];
    }
  }

  lemma ModeOf(t: Table, ps: seq<TablePolicy>, name: string)
    requires ps != []
    ensures var p, init := ps[|ps| - 1], RequiredModes(t, ps[..|ps| - 1]);
            if Demands(p, name) then
              && name in RequiredModes(t, ps)
              && RequiredModes(t, ps)[name] == if p.mode == "" then "enforce" else p.mode
            else
              && (name in RequiredModes(t, ps) <==> name in init)
              && (name in init ==> RequiredModes(t, ps)[name] == init[name])
  {
    hide NormalizeName;
  }

  lemma {:induction false} ModesOfColumns(t: Table, ps: seq<TablePolicy>, name: string)
    requires forall k :: 0 <= k < |ps| ==> !Demands(ps[k], name)
    ensures name in RequiredModes(t, ps) <==> ColumnDemands(t.columns, name)
    ensures name in RequiredModes(t, ps) ==> RequiredModes(t, ps)[name] == "enforce"
  {
    hide ColumnDemands, Demands;
    if ps == [] {
      ColumnModesAre(t.columns, name);
    } else {
      ModeOf(t, ps, name);
      ModesOfColumns(t, ps[..|ps| - 1], name);
    }
  }

  lemma {:induction false} ModeOfLast(t: Table, ps: seq<TablePolicy>, name: string, k: int)
    requires LastDemand(ps, name, k)
    ensures name in RequiredModes(t, ps)
    ensures RequiredModes(t, ps)[name] == if ps[k].mode == "" then "enforce" else ps[k].mode
  {
    hide Demands, RequiredModes;
    ModeOf(t, ps, name);
    if k < |ps| - 1 {
      assert LastDemand(ps[..|ps| - 1], name, k);
      ModeOfLast(t, ps[..|ps| - 1], name, k);
    }
  }

  lemma {:induction false} SomeLast(ps: seq<TablePolicy>, name: string)
    ensures (forall k :: 0 <= k < |ps| ==> !Demands(ps[k], name)) || exists k :: LastDemand(ps, name, k)
  {
    hide Demands;
    if ps != [] {
      var n := |ps| - 1;
      SomeLast(ps[..n], name);
      if Demands(ps[n], name) {
        assert LastDemand(ps, name, n);
      } else if k :| LastDemand(ps[..n], name, k) {
        assert LastDemand(ps, name, k);
      }
    }
  }

  lemma EnforcedIs(t: Table, name: string)
    ensures Enforced(t, name) <==> name in RequiredModes(t, t.policies) && RequiredModes(t, t.policies)[name] != "warn"
  {
    hide Demands, ColumnDemands, RequiredModes;
    SomeLast(t.policies, name);
    if k :| LastDemand(t.policies, name, k) {
      ModeOfLast(t, t.policies, name, k);
      OnlyLast(t.policies, name, k);
      assert Demands(t.policies[k], name);
    } else {
      ModesOfColumns(t, t.policies, name);
    }
  }

  lemma OnlyLast(ps: seq<TablePolicy>, name: string, k: int)
    requires LastDemand(ps, name, k)
    ensures forall l :: LastDemand(ps, name, l) ==> l == k
  {
  }

  predicate FiltersOn(filters: seq<FilterSpec>, name: string) {
    exists i :: 0 <= i < |filters| && NormalizeName(filters[i].field) == name
  }

  /** Every enforced name is filtered on, or is the tenant's. */
  ghost predicate RequirementsMet(t: Table, filters: seq<FilterSpec>) {
    forall name :: Enforced(t, name) ==> FiltersOn(filters, name) || name == NormalizeName(TenantName(t))
  }

  lemma RequirementsExactly(x: Context, filters: seq<FilterSpec>)
    ensures RequiredMet(x, filters) <==> RequirementsMet(x.t, filters)
  {
    hide NormalizeName, TenantName, RequiredModes, Enforced;
    var modes := RequiredModes(x.t, x.t.policies);
    forall name ensures Enforced(x.t, name) <==> name in modes && modes[name] != "warn" { EnforcedIs(x.t, name); }
    if RequirementsMet(x.t, filters) {
      forall name | name in modes ensures NameMet(x, filters, name, modes[name]) {
        assert modes[name] != "warn" ==> Enforced(x.t, name);
      }
    }
    if RequiredMet(x, filters) {
      forall name | Enforced(x.t, name) ensures FiltersOn(filters, name) || name == NormalizeName(TenantName(x.t)) {
        assert NameMet(x, filters, name, modes[name]);
      }
    }
  }

  // ----------------------------------------------------------------------- manifest

  predicate SameName(a: string, b: string) { NormalizeName(a) == NormalizeName(b) }

  /** Version 1; tables and, in each, columns have names, no two of them alike. */
  predicate ManifestFine(m: Manifest) {
    && m.version == "1"
    && (forall i :: 0 <= i < |m.tables| ==> NormalizeName(m.tables[i].name) != "" && ColumnsFine(m.tables[i].columns))
    && (forall i, j :: 0 <= i < j < |m.tables| ==> !SameName(m.tables[i].name, m.tables[j].name))
  }

  predicate ColumnsFine(cs: seq<Column>) {
    && (forall i :: 0 <= i < |cs| ==> NormalizeName(cs[i].name) != "" && cs[i].typeSource in {"", "sql", "go"})
    && (forall i, j :: 0 <= i < j < |cs| ==> !SameName(cs[i].name, cs[j].name))
  }

  /** The first table whose model or name is the one asked for. */
  predicate TableAt(m: Manifest, model: string, k: int) {
    && 0 <= k < |m.tables| && (SameName(m.tables[k].model, model) || SameName(m.tables[k].name, model))
    && forall j :: 0 <= j < k ==> !SameName(m.tables[j].model, model) && !SameName(m.tables[j].name, model)
  }

  lemma ManifestExactly(m: Manifest)
    ensures Declarations(m) <==> ManifestFine(m)
  {
    hide NormalizeName;
    forall i | 0 <= i < |m.tables| ensures
        TableDeclared(m.tables[i]) <==>
          NormalizeName(m.tables[i].name) != "" && ColumnsFine(m.tables[i].columns)
    {
      TableFine(m.tables[i]);
    }
    if Declarations(m) {
      forall i | 0 <= i < |m.tables| ensures TableDeclared(m.tables[i]) { assert m.tables[i] in m.tables; }
    }
  }

  lemma TableFine(t: Table)
    ensures TableDeclared(t) <==> NormalizeName(t.name) != "" && ColumnsFine(t.columns)
  {
    hide NormalizeName;
    if TableDeclared(t) {
      forall i | 0 <= i < |t.columns| ensures ColumnDeclared(t.columns[i]) { assert t.columns[i] in t.columns; }
    }
  }

  lemma {:induction false} TableIs(tables: seq<Table>, model: string, k: nat)
    requires k < |tables| && Named(tables[k], model)
    requires forall j :: 0 <= j < k ==> !Named(tables[j], model)
    ensures FindTable(tables, model) == Some(tables[k])
  {
    hide Named;
    if k > 0 { TableIs(tables[1..], model, k - 1); }
  }

  lemma {:induction false} TableFound(tables: seq<Table>, model: string) returns (k: nat)
    requires FindTable(tables, model).Some?
    ensures k < |tables| && FindTable(tables, model) == Some(tables[k]) && Named(tables[k], model)
    ensures forall j :: 0 <= j < k ==> !Named(tables[j], model)
  {
    hide Named;
    if Named(tables[0], model) {
      k := 0;
    } else {
      k := TableFound(tables[1..], model);
      assert forall j :: 0 < j < k + 1 ==> tables[j] == tables[1..][j - 1];
      k := k + 1;
    }
  }

  lemma TableExactly(m: Manifest, model: string, t: Table)
    ensures FindTable(m.tables, model) == Some(t) <==> exists k :: TableAt(m, model, k) && m.tables[k] == t
  {
    hide NormalizeName;
    if FindTable(m.tables, model) == Some(t) {
      var k := TableFound(m.tables, model);
      assert TableAt(m, model, k);
    }
    if k :| TableAt(m, model, k) && m.tables[k] == t { TableIs(m.tables, model, k); }
  }

  // ------------------------------------------------------------- tenant, soft delete

  predicate Filtered(filters: seq<FilterSpec>, field: string) {
    exists i :: 0 <= i < |filters| && SameName(filters[i].field, field)
  }

  /** All scope declarations name the tenant column; manifest and settings agree on it under
      strict settings with a tenant; and it is filtered on, or bound automatically. */
  predicate TenantFine(o: Options, t: Table, filters: seq<FilterSpec>) {
    var tenant, p := TenantName(t), o.settings.policies(t.name);
    && (forall i :: 0 <= i < |t.columns| && t.columns[i].tenantScope ==> t.columns[i].name == tenant && tenant != "")
    && (forall i :: 0 <= i < |t.policies| && t.policies[i].kind == "tenant_scope" ==>
          t.policies[i].column == tenant && tenant != "")
    && tenant == p.tenantColumn
    && (tenant != "" ==>
          && o.settings.strict && o.settings.tenant.Some?
          && (Filtered(filters, tenant)
              || (o.settings.automatic && Checked(t, o, tenant, "=", o.settings.tenant.value))))
  }

  /** Manifest and settings agree on the soft-delete column where both name one, and the
      default test on it is possible unless it is filtered on. */
  predicate SoftFine(o: Options, t: Table, filters: seq<FilterSpec>) {
    var own, registered := SoftDeleteColumn(t), o.settings.policies(t.name).softDeleteColumn;
    && (own == "" || registered == "" || own == registered)
    && (own != "" && !Filtered(filters, own) ==> Checked(t, o, own, "is_null", Null))
    && (registered != "" && !Filtered(filters, registered) ==> Checked(t, o, registered, "is_null", Null))
  }

  lemma TenantExactly(x: Context, filters: seq<FilterSpec>)
    ensures TenantRight(x, filters) <==> TenantFine(x.o, x.t, filters)
  {
    hide NormalizeName, TenantName, CheckColumn, Checked;
    if x.o.settings.tenant.Some? {
      CheckedExactly(x.t, x.o, TenantName(x.t), "=", x.o.settings.tenant.value);
    }
    DeclaredIs(x.t, TenantName(x.t));
    assert HasFilter(filters, TenantName(x.t)) <==> Filtered(filters, TenantName(x.t)) by {
      FilteredIs(filters, TenantName(x.t));
    }
  }

  /** One name given by every scope declaration is the tenant column; no declaration, none. */
  lemma TenantIsNamed(t: Table, name: string)
    requires forall i :: 0 <= i < |t.columns| && t.columns[i].tenantScope ==> t.columns[i].name == name
    requires forall i :: 0 <= i < |t.policies| && t.policies[i].kind == "tenant_scope" ==> t.policies[i].column == name
    ensures TenantName(t) ==
            if (exists i :: 0 <= i < |t.columns| && t.columns[i].tenantScope)
               || (exists i :: 0 <= i < |t.policies| && t.policies[i].kind == "tenant_scope") then name
            else ""
  {
    FirstScopedIs(t.columns, name);
    FirstPolicyIs(t.policies, name);
    assert (exists c :: c in t.columns && c.tenantScope)
           <==> exists i :: 0 <= i < |t.columns| && t.columns[i].tenantScope;
    assert (exists p :: p in t.policies && p.kind == "tenant_scope") <==>
           exists i :: 0 <= i < |t.policies| && t.policies[i].kind == "tenant_scope";
  }

  lemma FilteredIs(filters: seq<FilterSpec>, field: string)
    ensures HasFilter(filters, field) <==> Filtered(filters, field)
  {
    hide NormalizeName;
    if HasFilter(filters, field) {
      var i :| 0 <= i < |filters| && NormalizeName(filters[i].field) == NormalizeName(field);
      assert SameName(filters[i].field, field);
    }
  }

  lemma DeclaredIs(t: Table, tenant: string)
    ensures TenantDeclared(t, tenant) <==>
              && (forall i :: 0 <= i < |t.columns| && t.columns[i].tenantScope ==>
                    t.columns[i].name == tenant && tenant != "")
              && (forall i :: 0 <= i < |t.policies| && t.policies[i].kind == "tenant_scope" ==>
                    t.policies[i].column == tenant && tenant != "")
  {
    if TenantDeclared(t, tenant) {
      forall i | 0 <= i < |t.columns| && t.columns[i].tenantScope ensures t.columns[i].name == tenant && tenant != "" {
        assert t.columns[i] in t.columns;
      }
      forall i | 0 <= i < |t.policies| && t.policies[i].kind == "tenant_scope"
        ensures t.policies[i].column == tenant && tenant != "" {
        assert t.policies[i] in t.policies;
      }
    }
  }

  lemma SoftExactly(x: Context, filters: seq<FilterSpec>)
    ensures SoftRight(x, filters) <==> SoftFine(x.o, x.t, filters)
  {
    hide NormalizeName, SoftDeleteColumn, CheckColumn, Checked, HasFilter, Filtered;
    var own, registered := SoftDeleteColumn(x.t), x.Policy().softDeleteColumn;
    CheckedExactly(x.t, x.o, own, "is_null", Null);
    CheckedExactly(x.t, x.o, registered, "is_null", Null);
    FilteredIs(filters, own);
    FilteredIs(filters, registered);
  }

  // ------------------------------------------------------------------ accepted reads

  predicate Reason(o: Options, spec: OperationSpec) {
    TrimSpace(spec.accessReason) != "" || TrimSpace(o.accessReason) != ""
  }

  /** A read of version 0 or 1 over a declared, fresh enough manifest and valid settings. */
  predicate HeaderFine(o: Options, spec: OperationSpec, update: bool, t: Table) {
    && (spec.version == 0 || spec.version == 1) && ToLower(TrimSpace(spec.operation)) in {"", "select"}
    && TrimSpace(spec.model) != "" && (update || spec.select != []) && o.settings.valid
    && o.manifest.Some? && ManifestFine(o.manifest.value)
    && (o.requireFresh ==> o.manifest.value.verified && !o.manifest.value.stale)
    && exists k :: 0 <= k < |o.manifest.value.tables| && TableAt(o.manifest.value, spec.model, k)
                   && o.manifest.value.tables[k] == t
  }

  /** Selected columns suit, and a reason is given where one is sensitive. */
  predicate SelectFine(o: Options, spec: OperationSpec, t: Table) {
    forall i :: 0 <= i < |spec.select| ==>
      && Checked(t, o, spec.select[i], "", Null)
      && forall k :: 0 <= k < |t.columns| && ColumnOf(t, spec.select[i], k) && t.columns[k].pii ==> Reason(o, spec)
  }

  predicate OrderFine(o: Options, spec: OperationSpec, t: Table) {
    forall i :: 0 <= i < |spec.orderBy| ==>
      && Checked(t, o, spec.orderBy[i].field, "", Null)
      && ToLower(TrimSpace(spec.orderBy[i].direction)) in {"", "asc", "desc"}
  }

  ghost predicate ReadFine(o: Options, spec: OperationSpec, update: bool, t: Table) {
    && HeaderFine(o, spec, update, t) && SelectFine(o, spec, t) && OrderFine(o, spec, t)
    && (spec.limit.Some? ==> 0 <= spec.limit.value <= 10000)
    && (forall name :: name in o.values ==> ToLower(TrimSpace(name)) != "current_tenant")
    && TenantFine(o, t, spec.filters) && SoftFine(o, t, spec.filters)
    && (forall i :: 0 <= i < |spec.filters| ==> FilterFine(o, t, spec.filters[i]))
    && RequirementsMet(t, spec.filters)
  }

  lemma TableInRange(m: Manifest, model: string)
    ensures forall k :: TableAt(m, model, k) ==> 0 <= k < |m.tables|
  {
  }

  lemma HeaderExactly(o: Options, spec: OperationSpec, update: bool, t: Table)
    ensures HeaderOk(o, spec, update) && FindTable(o.manifest.value.tables, spec.model) == Some(t) && Fresh(o) <==>
              HeaderFine(o, spec, update, t)
  {
    hide NormalizeName, TrimSpace, ToLower, Declarations, ManifestFine, FindTable, TableAt;
    if o.manifest.Some? {
      ManifestExactly(o.manifest.value);
      TableExactly(o.manifest.value, spec.model, t);
      TableInRange(o.manifest.value, spec.model);
    }
  }

  lemma FieldExactly(x: Context, spec: OperationSpec, field: string)
    ensures FieldAllowed(x, spec, field) && CheckColumn(x.t, x.o, field, "", Null) <==>
              && Checked(x.t, x.o, field, "", Null)
              && forall k :: 0 <= k < |x.t.columns| && ColumnOf(x.t, field, k) && x.t.columns[k].pii ==>
                   Reason(x.o, spec)
  {
    hide ColumnOf, FieldOf, Checked, TypeAccepts;
    CheckedExactly(x.t, x.o, field, "", Null);
    if FieldOf(x.t, field).Some? {
      var k := FieldAt(x.t, field);
      forall j | 0 <= j < |x.t.columns| && ColumnOf(x.t, field, j) ensures x.t.columns[j].pii ==> x.t.columns[k].pii {
        FieldIs(x.t, field, j);
      }
    }
  }

  lemma OrderExactly(x: Context, order: OrderSpec)
    ensures OrderAllowed(x, order) && CheckColumn(x.t, x.o, order.field, "", Null) <==>
              Checked(x.t, x.o, order.field, "", Null) && ToLower(TrimSpace(order.direction)) in {"", "asc", "desc"}
  {
    hide FieldOf, Checked, TypeAccepts, TrimSpace, ToLower;
    CheckedExactly(x.t, x.o, order.field, "", Null);
  }

  lemma FiltersExactly(x: Context, spec: OperationSpec)
    requires TenantGiven(x)
    ensures (forall i :: 0 <= i < |spec.filters| ==> FilterAllowed(x, spec.filters[i]))
              && AllResolve(x, spec.filters) <==>
            forall i :: 0 <= i < |spec.filters| ==> FilterFine(x.o, x.t, spec.filters[i])
  {
    hide FilterAllowed, Resolve, FilterFine;
    forall i | 0 <= i < |spec.filters|
      ensures FilterAllowed(x, spec.filters[i]) && Resolve(x, spec.filters[i]).Some? <==>
                FilterFine(x.o, x.t, spec.filters[i]) {
      FilterExactly(x, spec.filters[i]);
      ResolvedIsAllowed(x, spec.filters[i]);
    }
  }

  lemma ResolvedIsAllowed(x: Context, f: FilterSpec)
    ensures Resolve(x, f).Some? && FilterOp(f.op) in OPERATORS ==> FilterAllowed(x, f)
    ensures FilterAllowed(x, f) ==> FilterOp(f.op) in OPERATORS
  {
    hide NormalizeName, TrimSpace, TypeAccepts, FindColumn, Argument, Arity, ReservedRight;
  }

  lemma TenantIsThere(x: Context, filters: seq<FilterSpec>)
    requires TenantRight(x, filters)
    ensures TenantGiven(x)
  {
    hide TenantName, NormalizeName, CheckColumn;
  }

  /** A structured read, or the read behind an update, is accepted exactly on these
      conditions. */
  lemma ReadAcceptedExactly(o: Options, spec: OperationSpec, update: bool, t: Table)
    ensures Valid(o, spec, update, t) <==> ReadFine(o, spec, update, t)
  {
    hide HeaderOk, FindTable, Fresh, HeaderFine, TenantRight, TenantFine, SoftRight, SoftFine, RequiredMet, FilterFine;
    hide FieldAllowed, CheckColumn, Checked, ColumnOf, OrderAllowed, FilterAllowed, RequirementsMet, AllResolve,
         TenantGiven;
    hide TrimSpace, ToLower, Reason;
    var x := Context(t, o);
    HeaderExactly(o, spec, update, t);
    TenantExactly(x, spec.filters);
    SoftExactly(x, spec.filters);
    RequirementsExactly(x, spec.filters);
    forall i | 0 <= i < |spec.select| ensures
        FieldAllowed(x, spec, spec.select[i]) && CheckColumn(t, o, spec.select[i], "", Null) <==>
          && Checked(t, o, spec.select[i], "", Null)
          && forall k :: 0 <= k < |t.columns| && ColumnOf(t, spec.select[i], k) && t.columns[k].pii ==> Reason(o, spec)
    {
      FieldExactly(x, spec, spec.select[i]);
    }
    forall i | 0 <= i < |spec.orderBy| ensures
        OrderAllowed(x, spec.orderBy[i]) && CheckColumn(t, o, spec.orderBy[i].field, "", Null) <==>
          && Checked(t, o, spec.orderBy[i].field, "", Null)
          && ToLower(TrimSpace(spec.orderBy[i].direction)) in {"", "asc", "desc"}
    {
      OrderExactly(x, spec.orderBy[i]);
    }
    if TenantRight(x, spec.filters) {
      TenantIsThere(x, spec.filters);
      FiltersExactly(x, spec);
    }
  }

  // ---------------------------------------------------------------- accepted updates

  /** A column updates may write: none of the protecting flags, no protecting policy of the
      manifest, and none of the settings'. */
  predicate MayWrite(t: Table, p: Policy, c: Column) {
    && !c.primary && !c.readonly && !c.generated && !c.pii && !c.forbidden && !c.tenantScope && !c.softDelete
    && (forall i :: 0 <= i < |t.policies| && SameName(t.policies[i].column, c.name) ==>
          t.policies[i].kind !in {"tenant_scope", "soft_delete", "forbidden", "protected", "immutable", "readonly",
                                  "generated"})
    && c.name != p.tenantColumn && c.name != p.softDeleteColumn
    && (forall i :: 0 <= i < |p.forbidden| ==> !SameName(p.forbidden[i], c.name))
    && (forall i :: 0 <= i < |p.pii| ==> !SameName(p.pii[i], c.name))
    && (forall i :: 0 <= i < |p.immutable| ==> !SameName(p.immutable[i], c.name))
  }

  /** A value that is not null, a null where the column is known to allow it, or nothing. */
  predicate StateFine(a: Assignment, c: Column) {
    || (a.state == "value" && a.value.Some? && a.value.value != Null)
    || (a.state == "null" && a.value.None? && c.nullableKnown && c.nullable && c.typeSource == "sql")
    || (a.state == "unchanged" && a.value.None?)
  }

  predicate AssignmentFine(o: Options, t: Table, a: Assignment) {
    exists k :: 0 <= k < |t.columns| && ColumnOf(t, a.column, k) && a.column == t.columns[k].name
      && (forall i :: 0 <= i < |a.column| ==> a.column[i] !in {'.', '-', '>'})
      && MayWrite(t, o.settings.policies(t.name), t.columns[k]) && StateFine(a, t.columns[k])
      && !o.types.isArray(t.columns[k]) && (t.columns[k].nullableKnown || !o.settings.strict)
      && (if a.state == "value" && a.value.Some? then Suits(o, t.columns[k], "=", a.value.value)
          else Suits(o, t.columns[k], "", Null))
  }

  /** Equality filters that are passed on name a plain identifier or a qualified column. */
  predicate PlainEqualities(o: Options, t: Table, filters: seq<FilterSpec>) {
    forall i :: 0 <= i < |filters| && !(OnTenant(t, filters[i]) && o.settings.automatic)
                && Symbol(filters[i]) == Some("=") && '.' !in filters[i].field ==>
      Optimistic.ScopeIdent(filters[i].field)
  }

  ghost predicate UpdateFine(o: Options, s: UpdateSpec, t: Table) {
    && s.version == 1
    && ReadFine(o, OperationSpec(1, "select", s.model, s.returning, s.filters, [], None, s.accessReason), true, t)
    && (forall i :: 0 <= i < |s.assignments| ==> AssignmentFine(o, t, s.assignments[i]))
    && (forall i, j :: 0 <= i < j < |s.assignments| ==> !SameName(s.assignments[i].column, s.assignments[j].column))
    && (exists i :: 0 <= i < |s.assignments| && s.assignments[i].state != "unchanged")
    && PlainEqualities(o, t, s.filters)
  }

  lemma GuardsExactly(x: Context, c: Column)
    ensures Writable(x, c) <==> MayWrite(x.t, x.Policy(), c)
  {
    hide NormalizeName;
    var p := x.Policy();
    var all := p.forbidden + p.pii + p.immutable;
    assert forall i :: 0 <= i < |p.forbidden| ==> all[i] == p.forbidden[i];
    assert forall i :: 0 <= i < |p.pii| ==> all[|p.forbidden| + i] == p.pii[i];
    assert forall i :: 0 <= i < |p.immutable| ==> all[|p.forbidden| + |p.pii| + i] == p.immutable[i];
    assert (forall i :: 0 <= i < |all| ==> !SameName(all[i], c.name)) <==>
           && (forall i :: 0 <= i < |p.forbidden| ==> !SameName(p.forbidden[i], c.name))
           && (forall i :: 0 <= i < |p.pii| ==> !SameName(p.pii[i], c.name))
           && (forall i :: 0 <= i < |p.immutable| ==> !SameName(p.immutable[i], c.name));
  }

  lemma StateExactly(a: Assignment, c: Column)
    ensures StateRight(a, c) <==> StateFine(a, c)
  {
  }

  lemma PlainText(s: string)
    ensures !('.' in s || '-' in s || '>' in s) <==> forall i :: 0 <= i < |s| ==> s[i] !in {'.', '-', '>'}
  {
  }

  lemma NotForbidden(t: Table, p: Policy, c: Column)
    requires MayWrite(t, p, c)
    ensures !c.forbidden
  {
  }

  lemma AssignmentExactly(x: Context, a: Assignment)
    ensures AssignmentOk(x, a) <==> AssignmentFine(x.o, x.t, a)
  {
    hide ColumnOf, FieldOf, TypeAccepts, Suits, Writable, MayWrite, StateRight, StateFine;
    PlainText(a.column);
    if FieldOf(x.t, a.column).Some? {
      var k := FieldAt(x.t, a.column);
      AssignedColumn(x, a, k);
    }
    if AssignmentFine(x.o, x.t, a) {
      var k :| 0 <= k < |x.t.columns| && ColumnOf(x.t, a.column, k) && a.column == x.t.columns[k].name
        && (forall i :: 0 <= i < |a.column| ==> a.column[i] !in {'.', '-', '>'})
        && MayWrite(x.t, x.o.settings.policies(x.t.name), x.t.columns[k]) && StateFine(a, x.t.columns[k])
        && !x.o.types.isArray(x.t.columns[k]) && (x.t.columns[k].nullableKnown || !x.o.settings.strict)
        && (if a.state == "value" && a.value.Some? then Suits(x.o, x.t.columns[k], "=", a.value.value)
            else Suits(x.o, x.t.columns[k], "", Null));
      NotForbidden(x.t, x.o.settings.policies(x.t.name), x.t.columns[k]);
      FieldIs(x.t, a.column, k);
      AssignedColumn(x, a, k);
    }
  }

  lemma AssignedColumn(x: Context, a: Assignment, k: nat)
    requires k < |x.t.columns|
    ensures var c := x.t.columns[k];
            && (Writable(x, c) <==> MayWrite(x.t, x.o.settings.policies(x.t.name), c))
            && (StateRight(a, c) <==> StateFine(a, c))
            && (StateFine(a, c) ==>
                  (TypeAccepts(x.o, c, if a.state == "value" then "=" else "", AssignedValue(a)) <==>
                   if a.state == "value" && a.value.Some? then Suits(x.o, c, "=", a.value.value)
                   else Suits(x.o, c, "", Null)))
  {
    hide TypeAccepts, Suits, Writable, MayWrite;
    var c := x.t.columns[k];
    GuardsExactly(x, c);
    StateExactly(a, c);
    SuitsMeans(x.o, c, if a.state == "value" then "=" else "", AssignedValue(a));
  }

  lemma {:induction false} SomethingWritten(assignments: seq<Assignment>)
    ensures Values(assignments) != map[] <==>
            exists i :: 0 <= i < |assignments| && assignments[i].state != "unchanged"
  {
    hide AssignedValue;
    if assignments != [] {
      var n := |assignments| - 1;
      SomethingWritten(assignments[..n]);
      assert forall i :: 0 <= i < n ==> assignments[..n][i] == assignments[i];
      if assignments[n].state != "unchanged" { assert assignments[n].column in Values(assignments); }
    }
  }

  lemma {:induction false} LiteralsExactly(x: Context, filters: seq<FilterSpec>)
    requires AllResolve(x, filters) && AllSupported(filters)
    ensures (forall c :: c in Kept(x, filters) ==> LiteralOk(c)) <==> PlainEqualities(x.o, x.t, filters)
  {
    hide Resolve, Dropped, FilterOp, Symbol, OnTenant, TenantName, LiteralOk, Optimistic.ScopeIdent;
    if filters != [] {
      var n := |filters| - 1;
      assert forall i :: 0 <= i < n ==> filters[..n][i] == filters[i];
      LiteralsExactly(x, filters[..n]);
      LiteralIs(x, filters[n]);
      var rest := Kept(x, filters[..n]);
      assert Resolve(x, filters[n]).Some?;
      if !Dropped(x, filters[n]) {
        var c := Resolve(x, filters[n]).value;
        assert Kept(x, filters) == rest + [c];
        assert forall d :: d in Kept(x, filters) <==> d in rest || d == c;
      } else {
        assert Kept(x, filters) == rest;
      }
    }
  }

  lemma LiteralIs(x: Context, f: FilterSpec)
    requires Resolve(x, f).Some? && FilterOp(f.op) in OPERATORS
    ensures Dropped(x, f) <==> OnTenant(x.t, f) && x.o.settings.automatic
    ensures LiteralOk(Resolve(x, f).value) <==>
              (Symbol(f) == Some("=") && '.' !in f.field ==> Optimistic.ScopeIdent(f.field))
  {
    hide TenantName, NormalizeName, CheckColumn, FilterOp, Symbol, NullWord, Optimistic.ScopeIdent;
    SymbolMeans(f);
  }

  /** A structured update is accepted exactly on these conditions. */
  lemma UpdateAcceptedExactly(o: Options, s: UpdateSpec, t: Table)
    ensures UpdateValid(o, s, t) <==> UpdateFine(o, s, t)
  {
    hide Valid, ReadFine, AssignmentOk, AssignmentFine, Values, Kept, LiteralOk, PlainEqualities, AllResolve;
    hide AllSupported, NormalizeName;
    var x := Context(t, o);
    ReadAcceptedExactly(o, AsRead(s), true, t);
    SomethingWritten(s.assignments);
    forall i | 0 <= i < |s.assignments| ensures AssignmentOk(x, s.assignments[i])
        <==> AssignmentFine(o, t, s.assignments[i]) {
      AssignmentExactly(x, s.assignments[i]);
    }
    if Valid(o, AsRead(s), true, t) {
      ReadResolves(o, s, t);
      LiteralsExactly(x, s.filters);
    }
  }

  lemma ReadResolves(o: Options, s: UpdateSpec, t: Table)
    requires Valid(o, AsRead(s), true, t)
    ensures AllResolve(Context(t, o), s.filters) && AllSupported(s.filters)
  {
    hide Resolve, FilterOp, CheckColumn, HeaderOk, FindTable, Fresh, TenantRight, SoftRight, RequiredMet, FieldOf;
    hide TrimSpace;
  }
}
