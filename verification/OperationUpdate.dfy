/** orm/operation/update.go: the assignments of a structured update, and what the
    compiled update writes. */
module OperationUpdate {
  import opened Text
  import opened OperationCompiler
  import Optimistic

  datatype Assignment = Assignment(column: string, state: string, value: Option<Value>)

  datatype UpdateSpec = UpdateSpec(
    version: int, model: string, filters: seq<FilterSpec>, assignments: seq<Assignment>, returning: seq<string>,
    accessReason: string)

  datatype UpdatePlan = UpdatePlan(table: string, conds: seq<Cond>, values: map<string, Value>, returning: seq<string>)

  const PROTECTED_KINDS: set<string> :=
    {"tenant_scope", "soft_delete", "forbidden", "protected", "immutable", "readonly", "generated"}

  /** A column the manifest keeps updates away from. */
  predicate Guarded(t: Table, c: Column) {
    c.primary || c.readonly || c.generated || c.pii || c.forbidden || c.tenantScope || c.softDelete
    || exists i :: 0 <= i < |t.policies| && GuardedBy(t.policies[i], c)
  }

  predicate GuardedBy(p: TablePolicy, c: Column) {
    NormalizeName(p.column) == NormalizeName(c.name) && p.kind in PROTECTED_KINDS
  }

  /** RepositoryUpdateCandidate. */
  method Candidate(t: Table, c: Column) returns (ok: bool)
    ensures ok <==> !Guarded(t, c)
  {
    if c.primary || c.readonly || c.generated || c.pii || c.forbidden || c.tenantScope || c.softDelete { return false; }
    for i := 0 to |t.policies|
      invariant forall k :: 0 <= k < i ==> !GuardedBy(t.policies[k], c)
    {
      if GuardedBy(t.policies[i], c) { return false; }
    }
    return true;
  }

  predicate PolicyGuards(p: Policy, c: Column) {
    c.name == p.tenantColumn || c.name == p.softDeleteColumn
    || exists i :: 0 <= i < |p.forbidden + p.pii + p.immutable|
                   && NormalizeName((p.forbidden + p.pii + p.immutable)[i]) == NormalizeName(c.name)
  }

  predicate StateRight(a: Assignment, c: Column) {
    && (a.state == "unchanged" || a.state == "null" || a.state == "value")
    && (if a.state == "value" then a.value.Some? && a.value.value != Null else a.value.None?)
    && (a.state == "null" ==> c.nullableKnown && c.nullable && c.typeSource == "sql")
  }

  function AssignedValue(a: Assignment): Value { if a.state == "value" && a.value.Some? then a.value.value else Null }

  predicate Writable(x: Context, c: Column) { !Guarded(x.t, c) && !PolicyGuards(x.Policy(), c) }

  predicate AssignmentOk(x: Context, a: Assignment) {
    var c := FieldOf(x.t, a.column);
    && c.Some? && a.column == c.value.name
    && !('.' in a.column || '-' in a.column || '>' in a.column)
    && Writable(x, c.value) && StateRight(a, c.value) && !x.o.types.isArray(c.value)
    && CheckColumn(x.t, x.o, a.column, if a.state == "value" then "=" else "", AssignedValue(a))
    && (c.value.nullableKnown || !x.o.settings.strict)
  }

  predicate OncePerName(assignments: seq<Assignment>) {
    forall i, j :: 0 <= i < j < |assignments| ==>
      NormalizeName(assignments[i].column) != NormalizeName(assignments[j].column)
  }

  function Values(assignments: seq<Assignment>): (r: map<string, Value>)
    ensures forall k :: k in r ==> exists i :: 0 <= i < |assignments| && assignments[i].column == k
  {
    if assignments == [] then map[]
    else
      var n := |assignments| - 1;
      if assignments[n].state == "unchanged" then Values(assignments[..n])
      else Values(assignments[..n])[assignments[n].column := AssignedValue(assignments[n])]
  }

  function AsRead(s: UpdateSpec): OperationSpec {
    OperationSpec(1, "select", s.model, s.returning, s.filters, [], None, s.accessReason)
  }

  predicate AssignmentsOk(x: Context, assignments: seq<Assignment>) {
    OncePerName(assignments) && forall i :: 0 <= i < |assignments| ==> AssignmentOk(x, assignments[i])
  }

  /** Equality filters go through a literal identifier, which must be a plain one. */
  predicate LiteralOk(c: Cond) { c.op == "=" && '.' !in c.field ==> Optimistic.ScopeIdent(c.field) }

  predicate UpdateValid(o: Options, s: UpdateSpec, t: Table) {
    && s.version == 1 && Valid(o, AsRead(s), true, t) && AssignmentsOk(Context(t, o), s.assignments)
    && Values(s.assignments) != map[]
    && forall c :: c in Kept(Context(t, o), s.filters) ==> LiteralOk(c)
  }

  function CompiledUpdate(x: Context, s: UpdateSpec): UpdatePlan {
    UpdatePlan(x.t.name, Predicate(x, s.filters), Values(s.assignments), s.returning)
  }

  method PolicyForbids(p: Policy, c: Column) returns (bad: bool)
    ensures bad <==> PolicyGuards(p, c)
  {
    hide NormalizeName;
    if c.name == p.tenantColumn || c.name == p.softDeleteColumn { return true; }
    var guarded := p.forbidden + p.pii + p.immutable;
    for i := 0 to |guarded|
      invariant forall k :: 0 <= k < i ==> NormalizeName(guarded[k]) != NormalizeName(c.name)
    {
      if NormalizeName(guarded[i]) == NormalizeName(c.name) { return true; }
    }
    return false;
  }

  /** One turn of the assignment loop, in the order the original refuses. */
  method CheckAssignment(x: Context, a: Assignment) returns (ok: bool)
    ensures ok <==> AssignmentOk(x, a)
  {
    hide Guarded, PolicyGuards, CheckColumn, FieldOf, NormalizeName;
    var c := FieldOf(x.t, a.column);
    if c.None? || a.column != c.value.name { return false; }
    if '.' in c.value.name || '-' in c.value.name || '>' in c.value.name { return false; }
    var candidate := Candidate(x.t, c.value);
    var bad := PolicyForbids(x.Policy(), c.value);
    if !candidate || bad { return false; }
    if a.state != "unchanged" && a.state != "null" && a.state != "value" { return false; }
    if a.state == "value" {
      if a.value.None? || a.value.value == Null { return false; }
    } else if a.value.Some? {
      return false;
    }
    if a.state == "null" && (!c.value.nullableKnown || !c.value.nullable || c.value.typeSource != "sql") {
      return false;
    }
    if x.o.types.isArray(c.value) { return false; }
    if !CheckColumn(x.t, x.o, a.column, if a.state == "value" then "=" else "", AssignedValue(a)) { return false; }
    return c.value.nullableKnown || !x.o.settings.strict;
  }

  /** The assignment loop fills the values and the names seen. */
  method CollectAssignments(x: Context, assignments: seq<Assignment>) returns (values: Option<map<string, Value>>)
    ensures values.Some? <==> AssignmentsOk(x, assignments)
    ensures values.Some? ==> values.value == Values(assignments)
  {
    hide AssignmentOk, NormalizeName, AssignedValue;
    var filled: map<string, Value> := map[];
    var seen: set<string> := {};
    for i := 0 to |assignments|
      invariant forall n :: n in seen <==> exists k :: 0 <= k < i && NormalizeName(assignments[k].column) == n
      invariant OncePerName(assignments[..i])
      invariant forall k :: 0 <= k < i ==> AssignmentOk(x, assignments[k])
      invariant filled == Values(assignments[..i])
    {
      var a := assignments[i];
      if NormalizeName(a.column) in seen { return None; }
      seen := seen + {NormalizeName(a.column)};
      var ok := CheckAssignment(x, a);
      if !ok { return None; }
      assert assignments[..i + 1][..i] == assignments[..i];
      if a.state != "unchanged" { filled := filled[a.column := AssignedValue(a)]; }
    }
    assert assignments[..|assignments|] == assignments;
    return Some(filled);
  }

  method CheckLiterals(conds: seq<Cond>) returns (ok: bool)
    ensures ok <==> forall c :: c in conds ==> LiteralOk(c)
  {
    hide LiteralOk;
    for i := 0 to |conds|
      invariant forall k :: 0 <= k < i ==> LiteralOk(conds[k])
    {
      if !LiteralOk(conds[i]) { return false; }
    }
    return true;
  }

  /** prepareUpdate: validate as a read, collect the assignments, add the conditions. */
  method PrepareUpdate(o: Options, s: UpdateSpec) returns (plan: Option<UpdatePlan>)
    ensures plan.Some? <==> exists t :: UpdateValid(o, s, t)
    ensures plan.Some? ==> exists t :: UpdateValid(o, s, t) && plan.value == CompiledUpdate(Context(t, o), s)
  {
    hide Valid, Kept, HasFilter, SoftDeleteColumn, AssignmentsOk, Values, LiteralOk;
    if s.version != 1 { return None; }
    var valid := ValidateOperation(o, AsRead(s), true);
    if valid.None? { return None; }
    var (t, filters) := valid.value;
    var x := Context(t, o);
    OneTable(o, AsRead(s), t);
    var values := CollectAssignments(x, s.assignments);
    if values.None? || values.value == map[] { return None; }
    var ok := CheckLiterals(filters);
    if !ok { return None; }
    var conds: seq<Cond> := [];
    if SoftDeleteColumn(t) != "" && !HasFilter(s.filters, SoftDeleteColumn(t)) {
      conds := conds + [Cond(SoftDeleteColumn(t), "is_null", Null)];
    }
    conds := conds + filters;
    assert UpdateValid(o, s, t);
    plan := Some(UpdatePlan(t.name, conds + PolicyConds(x), values.value, s.returning));
    assert plan.value == CompiledUpdate(x, s);
  }

  lemma OneTable(o: Options, spec: OperationSpec, t: Table)
    requires Valid(o, spec, true, t)
    ensures forall other :: Valid(o, spec, true, other) ==> other == t
  {
  }
}
