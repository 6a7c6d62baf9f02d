/** What an accepted operation asserts about its fields, what an accepted update writes,
    and what the names and declarations of a manifest mean. */
module OperationMeaning {
  import opened Text
  import opened OperationCompiler
  import opened OperationUpdate
  import opened OperationTheorems

  // -------------------------------------------------------------------------- names

  predicate Letters(s: string) {
    s != "" && forall i :: 0 <= i < |s| ==> IsLower(s[i]) || IsUpper(s[i]) || IsDigit(s[i]) || s[i] == '_'
  }

  lemma {:induction false} AfterDot(q: string, n: string)
    requires '.' !in n
    ensures CutLast(q + "." + n) == (q, n)
  {
    var s := q + "." + n;
    if q == "" {
      assert s[1..] == n;
    } else {
      assert s[1..] == q[1..] + "." + n;
      AfterDot(q[1..], n);
      assert s[1..][|q| - 1] == '.' && '.' in s[1..];
      assert [s[0]] + q[1..] == q;
    }
  }

  lemma LettersHold(s: string)
    requires Letters(s)
    ensures '.' !in s && CutLast(s) == ("", s)
    ensures !IsSpace(s[0]) && !IsSpace(s[|s| - 1]) && s[0] != '`' && s[0] != '"'
            && s[|s| - 1] != '`' && s[|s| - 1] != '"'
  {
    assert forall i :: 0 <= i < |s| ==> s[i] != '.';
    assert IsLower(s[0]) || IsUpper(s[0]) || IsDigit(s[0]) || s[0] == '_';
    assert IsLower(s[|s| - 1]) || IsUpper(s[|s| - 1]) || IsDigit(s[|s| - 1]) || s[|s| - 1] == '_';
  }

  lemma StaysTrimmed(s: string)
    requires s != "" && !IsSpace(s[0]) && !IsSpace(s[|s| - 1])
    ensures TrimSpace(s) == s
  {
  }

  lemma StaysUnquoted(s: string)
    requires s != "" && s[0] != '`' && s[0] != '"' && s[|s| - 1] != '`' && s[|s| - 1] != '"'
    ensures TrimQuotesRight(TrimQuotesLeft(s)) == s
  {
  }

  lemma QuotesGo(s: string, quote: char)
    requires Letters(s) && (quote == '`' || quote == '"')
    ensures TrimQuotesRight(TrimQuotesLeft([quote] + s + [quote])) == s
  {
    LettersHold(s);
    var q := [quote] + s + [quote];
    assert q[1..] == s + [quote];
    assert TrimQuotesLeft(q) == s + [quote];
    assert (s + [quote])[..|s|] == s;
  }

  /** Letter case, a qualifier and one pair of quotes do not make a different name. */
  lemma NormalizedName(qualifier: string, name: string, quote: char)
    requires Letters(qualifier) && Letters(name) && (quote == '`' || quote == '"')
    ensures NormalizeName(name) == ToLower(name)
    ensures NormalizeName(qualifier + "." + name) == ToLower(name)
    ensures NormalizeName([quote] + name + [quote]) == ToLower(name)
  {
    hide TrimSpace, TrimQuotesLeft, TrimQuotesRight, CutLast, ToLower;
    LettersHold(name);
    LettersHold(qualifier);
    var q := qualifier + "." + name;
    assert q[0] == qualifier[0] && q[|q| - 1] == name[|name| - 1];
    StaysTrimmed(name);
    StaysTrimmed(q);
    StaysTrimmed([quote] + name + [quote]);
    StaysUnquoted(name);
    StaysUnquoted(q);
    QuotesGo(name, quote);
    AfterDot(qualifier, name);
  }

  // ------------------------------------------------------------------- declarations

  predicate ScopesTenant(t: Table) {
    || (exists i :: 0 <= i < |t.columns| && t.columns[i].tenantScope)
    || (exists i :: 0 <= i < |t.policies| && t.policies[i].kind == "tenant_scope")
  }

  /** The tenant column is the one name every scope declaration gives, if any does. */
  lemma TenantIsDeclared(t: Table)
    requires TenantDeclared(t, TenantName(t))
    ensures TenantName(t) != "" <==> ScopesTenant(t)
    ensures forall i :: 0 <= i < |t.columns| && t.columns[i].tenantScope ==> t.columns[i].name == TenantName(t)
    ensures forall i :: 0 <= i < |t.policies| && t.policies[i].kind == "tenant_scope" ==>
              t.policies[i].column == TenantName(t)
  {
    var tenant := TenantName(t);
    FirstScopedIs(t.columns, tenant);
    FirstPolicyIs(t.policies, tenant);
    if exists c :: c in t.columns && c.tenantScope {
      var c :| c in t.columns && c.tenantScope;
      var i :| 0 <= i < |t.columns| && t.columns[i] == c;
    }
    if exists p :: p in t.policies && p.kind == "tenant_scope" {
      var p :| p in t.policies && p.kind == "tenant_scope";
      var i :| 0 <= i < |t.policies| && t.policies[i] == p;
    }
    forall i | 0 <= i < |t.columns| && t.columns[i].tenantScope ensures t.columns[i].name == tenant {
      assert t.columns[i] in t.columns;
    }
    forall i | 0 <= i < |t.policies| && t.policies[i].kind == "tenant_scope" ensures t.policies[i].column == tenant {
      assert t.policies[i] in t.policies;
    }
  }

  predicate SoftPolicy(p: TablePolicy) { p.kind == "soft_delete" && TrimSpace(p.column) != "" }

  predicate FirstSoftPolicyAt(ps: seq<TablePolicy>, i: int) {
    0 <= i < |ps| && SoftPolicy(ps[i]) && forall k :: 0 <= k < i ==> !SoftPolicy(ps[k])
  }

  predicate FirstSoftColumnAt(cs: seq<Column>, i: int) {
    0 <= i < |cs| && cs[i].softDelete && forall k :: 0 <= k < i ==> !cs[k].softDelete
  }

  lemma {:induction false} SoftPolicyIs(ps: seq<TablePolicy>)
    ensures FirstSoftPolicy(ps) == "" <==> forall i :: 0 <= i < |ps| ==> !SoftPolicy(ps[i])
    ensures forall i :: FirstSoftPolicyAt(ps, i) ==> FirstSoftPolicy(ps) == ps[i].column
  {
    hide TrimSpace;
    BlankIsEmpty();
    if ps != [] && !SoftPolicy(ps[0]) {
      SoftPolicyIs(ps[1..]);
      forall i | FirstSoftPolicyAt(ps, i) ensures FirstSoftPolicyAt(ps[1..], i - 1) {
        assert forall k :: 0 <= k < i - 1 ==> ps[1..][k] == ps[k + 1];
      }
      if FirstSoftPolicy(ps) != "" {
        var i :| 0 <= i < |ps[1..]| && SoftPolicy(ps[1..][i]);
        assert ps[i + 1] == ps[1..][i];
      }
    }
  }

  lemma BlankIsEmpty()
    ensures TrimSpace("") == ""
  {
  }

  lemma {:induction false} SoftColumnIs(cs: seq<Column>)
    ensures forall i :: FirstSoftColumnAt(cs, i) ==> FirstSoftColumn(cs) == cs[i].name
    ensures (forall i :: 0 <= i < |cs| ==> !cs[i].softDelete) ==> FirstSoftColumn(cs) == ""
  {
    if cs != [] && !cs[0].softDelete {
      SoftColumnIs(cs[1..]);
      forall i | FirstSoftColumnAt(cs, i) ensures FirstSoftColumnAt(cs[1..], i - 1) {
        assert forall k :: 0 <= k < i - 1 ==> cs[1..][k] == cs[k + 1];
      }
    }
  }

  /** The manifest's soft-delete column: the first such policy that names one, else the
      first column flagged so, else none. */
  lemma SoftColumnMeans(t: Table)
    ensures forall i :: FirstSoftPolicyAt(t.policies, i) ==> SoftDeleteColumn(t) == t.policies[i].column
    ensures (forall i :: 0 <= i < |t.policies| ==> !SoftPolicy(t.policies[i])) ==>
              && (forall i :: FirstSoftColumnAt(t.columns, i) ==> SoftDeleteColumn(t) == t.columns[i].name)
              && ((forall i :: 0 <= i < |t.columns| ==> !t.columns[i].softDelete) ==> SoftDeleteColumn(t) == "")
  {
    hide TrimSpace, FirstSoftPolicy, FirstSoftColumn;
    SoftPolicyIs(t.policies);
    SoftColumnIs(t.columns);
  }

  // ---------------------------------------------------------------- accepted fields

  /** A column the table declares once, not forbidden, under its exact name, alone or
      after the table's. */
  ghost predicate Exact(t: Table, field: string) {
    exists c :: c in t.columns && !c.forbidden && (field == c.name || field == t.name + "." + c.name)
  }

  lemma CheckedIsExact(t: Table, o: Options, field: string, op: string, v: Value)
    requires CheckColumn(t, o, field, op, v)
    ensures Exact(t, field)
  {
    hide NormalizeName, TrimSpace, Plain, TypeAccepts;
  }

  /** One argument or one reference for a comparison, none for a null test. */
  predicate OneArgument(f: FilterSpec) {
    if Word(f) == "is_null" || Word(f) == "is_not_null" then f.value.None? && f.valueRef.None?
    else (f.value.Some? && f.valueRef.None?) || (f.value.None? && f.valueRef.Some? && TrimSpace(f.valueRef.value) != "")
  }

  const WORDS: set<string> :=
    {"", "eq", "=", "ne", "!=", "<>", "gt", ">", "gte", ">=", "lt", "<", "lte", "<=", "like", "in", "is_null",
     "is_not_null"}

  /** What acceptance says of each filter: a known operator on an exact column, one
      argument that is there, and the tenant column only as "= current_tenant". */
  lemma AcceptedFilter(o: Options, spec: OperationSpec, t: Table, update: bool, i: nat)
    requires Valid(o, spec, update, t) && i < |spec.filters|
    ensures var f, tenant := spec.filters[i], TenantName(t);
            && Word(f) in WORDS && Exact(t, f.field) && OneArgument(f)
            && (Word(f) != "is_null" && Word(f) != "is_not_null" ==> Given(o, f).Some?)
            && (tenant != "" && NormalizeName(f.field) == NormalizeName(tenant) ==>
                  f.valueRef == Some("current_tenant") && Relation(Word(f)) == Some("="))
            && (f.valueRef.Some? && ToLower(TrimSpace(f.valueRef.value)) == "current_tenant" ==>
                  tenant != "" && NormalizeName(f.field) == NormalizeName(tenant))
  {
    hide Valid, NormalizeName, TenantName, CheckColumn, TrimSpace, ToLower, Exact;
    var x, f := Context(t, o), spec.filters[i];
    ValidParts(o, spec, update, t);
    assert Resolve(x, f).Some?;
    CheckedIsExact(t, o, f.field, FilterOp(f.op), Argument(x, f).value);
    OperatorMeans(f);
    SupportedWord(f);
    TenantIsGiven(o, spec, update, t);
    ArgumentMeans(x, f);
  }

  lemma SupportedWord(f: FilterSpec)
    requires FilterOp(f.op) in OPERATORS
    ensures Word(f) in WORDS
    ensures FilterOp(f.op) == "=" ==> Relation(Word(f)) == Some("=")
  {
    hide TrimSpace, ToLower;
  }

  lemma TenantIsGiven(o: Options, spec: OperationSpec, update: bool, t: Table)
    requires Valid(o, spec, update, t)
    ensures TenantGiven(Context(t, o))
  {
    hide Valid, TenantName;
    ValidParts(o, spec, update, t);
  }

  /** The plan of an accepted read: its table and fields, every ordering ascending unless
      it says otherwise, and its limit. */
  lemma PlanCarries(o: Options, spec: OperationSpec, t: Table)
    requires Valid(o, spec, false, t)
    ensures var plan := Compiled(Context(t, o), spec);
            && plan.table == t.name && plan.select == spec.select && spec.select != [] && plan.limit == spec.limit
            && (plan.limit.Some? ==> 0 <= plan.limit.value <= 10000)
            && |plan.order| == |spec.orderBy|
            && (forall i :: 0 <= i < |plan.order| ==>
                  && plan.order[i].field == spec.orderBy[i].field && Exact(t, plan.order[i].field)
                  && plan.order[i].direction
                     == (if ToLower(TrimSpace(spec.orderBy[i].direction)) == "desc" then "desc" else "asc"))
            && (forall i :: 0 <= i < |plan.select| ==> Exact(t, plan.select[i]))
  {
    hide NormalizeName, CheckColumn, TrimSpace, ToLower, Exact, RequiredMet, AllResolve, SoftRight, TenantRight,
         FieldAllowed, FilterAllowed, Predicate, Declarations, FindTable;
    var x := Context(t, o);
    assert FieldsRight(x, spec.select) && OrdersRight(x, spec.orderBy) && AllAllowed(x, spec);
    forall i | 0 <= i < |spec.select| ensures Exact(t, spec.select[i]) {
      CheckedIsExact(t, o, spec.select[i], "", Null);
    }
    forall i | 0 <= i < |spec.orderBy| ensures Exact(t, spec.orderBy[i].field) {
      CheckedIsExact(t, o, spec.orderBy[i].field, "", Null);
    }
  }

  // ------------------------------------------------------------------ written values

  lemma {:induction false} AssignedOnce(assignments: seq<Assignment>, k: nat)
    requires OncePerName(assignments) && k < |assignments|
    ensures var a := assignments[k];
            && (a.column in Values(assignments) <==> a.state != "unchanged")
            && (a.state != "unchanged" ==> Values(assignments)[a.column] == AssignedValue(a))
  {
    hide NormalizeName, AssignedValue;
    var n := |assignments| - 1;
    if k < n { AssignedOnce(assignments[..n], k); } else { NotYetAssigned(assignments); }
  }

  lemma NotYetAssigned(assignments: seq<Assignment>)
    requires assignments != [] && OncePerName(assignments)
    ensures assignments[|assignments| - 1].column !in Values(assignments[..|assignments| - 1])
  {
    hide NormalizeName;
  }

  /** The only assigned name of its normal form is the assignment's own. */
  lemma OnlyName(assignments: seq<Assignment>, k: nat)
    requires OncePerName(assignments) && k < |assignments|
    ensures forall name ::
            name in Values(assignments) && NormalizeName(name) == NormalizeName(assignments[k].column) ==>
              name == assignments[k].column
  {
    hide NormalizeName;
    forall name | name in Values(assignments) && NormalizeName(name) == NormalizeName(assignments[k].column)
      ensures name == assignments[k].column
    {
      var i :| 0 <= i < |assignments| && assignments[i].column == name;
      assert i == k;
    }
  }

  /** What an accepted update does to a row it matches: an assigned value is written, an
      assigned null clears, an unchanged or unmentioned column stays. */
  lemma UpdateWrites(o: Options, s: UpdateSpec, t: Table, row: Row, compare: Compare, k: nat)
    requires UpdateValid(o, s, t) && Matches(CompiledUpdate(Context(t, o), s).conds, row, compare)
    requires k < |s.assignments| && NormalizeName(s.assignments[k].column) in row
    ensures var a, after := s.assignments[k], AfterRow(CompiledUpdate(Context(t, o), s), row, compare);
            var key := NormalizeName(a.column);
            && key in after
            && (a.state == "value" ==> a.value.Some? && a.value.value != Null && after[key] == a.value.value)
            && (a.state == "null" ==> after[key] == Null)
            && (a.state == "unchanged" ==> after[key] == row[key])
            && (a.state == "value" || a.state == "null" || a.state == "unchanged")
  {
    hide NormalizeName, Valid, Matches, CheckColumn, Guarded, PolicyGuards, LiteralOk, FieldOf, Values;
    var a := s.assignments[k];
    assert AssignmentOk(Context(t, o), a);
    AssignedOnce(s.assignments, k);
    OnlyName(s.assignments, k);
  }

  lemma UpdateLeaves(o: Options, s: UpdateSpec, t: Table, row: Row, compare: Compare, key: string)
    requires UpdateValid(o, s, t) && key in row
    requires forall k :: 0 <= k < |s.assignments| ==> NormalizeName(s.assignments[k].column) != key
    ensures var after := AfterRow(CompiledUpdate(Context(t, o), s), row, compare);
            after.Keys == row.Keys && after[key] == row[key]
  {
    hide NormalizeName, Valid, Matches, AssignmentsOk, LiteralOk, Values;
  }

  /** What acceptance says of each assignment: an exact unguarded column of the table that
      the settings do not guard either, and null only where the column is known to allow it. */
  lemma AcceptedAssignment(o: Options, s: UpdateSpec, t: Table, k: nat)
    requires UpdateValid(o, s, t) && k < |s.assignments|
    ensures var a, p := s.assignments[k], o.settings.policies(t.name);
            exists c :: c in t.columns && c.name == a.column
              && !c.primary && !c.readonly && !c.generated && !c.pii && !c.forbidden && !c.tenantScope && !c.softDelete
              && a.column != p.tenantColumn && a.column != p.softDeleteColumn
              && (forall name :: name in p.forbidden || name in p.pii || name in p.immutable ==>
                    NormalizeName(name) != NormalizeName(a.column))
              && (a.state == "null" ==> c.nullableKnown && c.nullable && c.typeSource == "sql")
    ensures forall i :: 0 <= i < |s.assignments| && i != k ==>
              NormalizeName(s.assignments[i].column) != NormalizeName(s.assignments[k].column)
  {
    hide NormalizeName, Valid, CheckColumn, LiteralOk, Values, Plain, TrimSpace;
    var x, a := Context(t, o), s.assignments[k];
    assert AssignmentOk(x, a);
    var c := FieldOf(t, a.column).value;
    PolicySpares(x.Policy(), c);
  }

  lemma PolicySpares(p: Policy, c: Column)
    requires !PolicyGuards(p, c)
    ensures forall name :: name in p.forbidden || name in p.pii || name in p.immutable ==>
              NormalizeName(name) != NormalizeName(c.name)
  {
    hide NormalizeName;
    var all := p.forbidden + p.pii + p.immutable;
    forall name | name in p.forbidden || name in p.pii || name in p.immutable
      ensures NormalizeName(name) != NormalizeName(c.name)
    {
      assert name in all;
      var i :| 0 <= i < |all| && all[i] == name;
    }
  }
}
